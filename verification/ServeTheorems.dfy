/**
  What a caller gets for an event, read off the guest's turns alone: the last
  answer any of them gave under the id of this dispatch, and nothing else.
 */
module ServeTheorems {
  import opened Sequences
  import opened EventLoop
  import opened Options
  import opened DrainLoop
  import opened DrainTheorems
  import opened PassTheorems
  import opened Workers

  /** The last answer for dispatch `id` among some actions. */
  function Said(actions: seq<Action>, id: int): Option<Payload> {
    if actions == [] then None
    else
      var a := Last(actions);
      if a.Answer? && a.dispatch == id then Some(a.payload) else Said(Past(actions), id)
  }

  /** The last answer for dispatch `id` in the turns after `from`, up to and including `upto`. */
  function SaidSince(w: World, id: int, from: nat, upto: nat): Option<Payload> {
    if upto <= from then None
    else if Said(w.turns(upto).actions, id).Some? then Said(w.turns(upto).actions, id)
    else SaidSince(w, id, from, upto - 1)
  }

  lemma {:induction false} SaidSomewhere(w: World, id: int, from: nat, upto: nat) returns (n: nat)
    requires SaidSince(w, id, from, upto).Some?
    ensures from < n <= upto && Answer(id, SaidSince(w, id, from, upto).value) in w.turns(n).actions
  {
    if Said(w.turns(upto).actions, id).Some? {
      SaidIn(w.turns(upto).actions, id);
      return upto;
    }
    n := SaidSomewhere(w, id, from, upto - 1);
  }

  lemma {:induction false} SaidIn(actions: seq<Action>, id: int)
    ensures Said(actions, id).Some? ==> Answer(id, Said(actions, id).value) in actions
  {
    if actions != [] && !(Last(actions).Answer? && Last(actions).dispatch == id) {
      SaidIn(Past(actions), id);
    }
  }

  /** The slot of the dispatch under way holds the last answer its turns have given. */
  predicate HasHeard(w: World, from: nat, s: State) {
    from <= s.turns && s.outcome == SaidSince(w, s.dispatch, from, s.turns)
  }

  /** Nothing but the guest's answers touches the slot. */
  predicate SameSlot(s: State, s': State) {
    s'.outcome == s.outcome && s'.dispatch == s.dispatch && s'.dispatches == s.dispatches
  }

  lemma ActionIsHeard(s: State, a: Action)
    ensures Play(s, [a]).dispatch == s.dispatch && Play(s, [a]).dispatches == s.dispatches && Play(s, [a]).turns == s.turns
    ensures Play(s, [a]).outcome == if a.Answer? && a.dispatch == s.dispatch then Some(a.payload) else s.outcome
  {
    hide Play;
    hide Without;
    PlayOne(s, a);
  }

  lemma {:induction false} PlayIsHeard(s: State, actions: seq<Action>)
    ensures Play(s, actions).dispatch == s.dispatch && Play(s, actions).dispatches == s.dispatches
    ensures Play(s, actions).turns == s.turns
    ensures Play(s, actions).outcome
         == if Said(actions, s.dispatch).Some? then Said(actions, s.dispatch) else s.outcome
    decreases |actions|
  {
    if actions != [] {
      hide Apply;
      PlayIsHeard(s, Past(actions));
      PlayTwice(s, Past(actions), [Last(actions)]);
      assert Past(actions) + [Last(actions)] == actions;
      ActionIsHeard(Play(s, Past(actions)), Last(actions));
    }
  }

  /** A step begins a turn, and the turn is heard. */
  lemma TurnIsHeard(w: World, from: nat, s: State, begun: State)
    requires HasHeard(w, from, s) && SameSlot(s, begun) && begun.turns == s.turns + 1
    ensures HasHeard(w, from, PlayTurn(w, begun)) && PlayTurn(w, begun).turns == begun.turns
    ensures PlayTurn(w, begun).dispatch == s.dispatch && PlayTurn(w, begun).dispatches == s.dispatches
  {
    hide Play;
    hide Said;
    PlayIsHeard(begun, w.turns(begun.turns).actions);
  }

  /** What a drain keeps, and what it adds. */
  predicate Hears(w: World, from: nat, s: State, s': State) {
    && (HasHeard(w, from, s) ==> HasHeard(w, from, s'))
    && s'.dispatch == s.dispatch && s'.dispatches == s.dispatches
    && s.turns <= s'.turns
  }

  lemma JobIsHeard(w: World, from: nat, s: State)
    requires s.jobs != []
    ensures Hears(w, from, s, JobStep(w, s))
  {
    hide PlayTurn;
    hide HasHeard;
    hide Take;
    hide Without;
    if w.unfinished(s.polls) {
      SlotIsHeard(w, from, s, Apply(s, Rotate(s.jobs[0])));
    } else {
      BegunIsHeard(w, from, s, Apply(s, RunJob(s.jobs[0])));
    }
  }

  lemma SlotIsHeard(w: World, from: nat, s: State, s': State)
    requires SameSlot(s, s') && s'.turns == s.turns
    ensures Hears(w, from, s, s')
  {
  }

  lemma BegunIsHeard(w: World, from: nat, s: State, begun: State)
    requires SameSlot(s, begun) && begun.turns == s.turns + 1
    ensures Hears(w, from, s, PlayTurn(w, begun))
  {
    hide Play;
    PlayIsHeard(begun, w.turns(begun.turns).actions);
    if HasHeard(w, from, s) {
      TurnIsHeard(w, from, s, begun);
    }
  }

  lemma {:induction false} JobsAreHeard(w: World, from: nat, s: State, cap: nat)
    ensures Hears(w, from, s, RunJobs(w, s, cap).0)
    decreases cap
  {
    hide JobStep;
    hide HasHeard;
    hide Take;
    hide Without;
    if s.jobs != [] {
      if cap == 0 {
        SlotIsHeard(w, from, s, Apply(s, DropJobs(s.jobs)));
      } else {
        JobIsHeard(w, from, s);
        JobsAreHeard(w, from, JobStep(w, s), cap - 1);
      }
    }
  }

  lemma CallIsHeard(w: World, from: nat, s: State)
    requires s.bindings != []
    ensures Hears(w, from, s, AwaitCall(w, s).state)
  {
    hide PlayTurn;
    hide HasHeard;
    hide Take;
    hide Without;
    if AwaitCall(w, s).More? {
      CallPass(w, s);
      BegunIsHeard(w, from, s, Settling(w, s));
    } else {
      SlotIsHeard(w, from, s, AwaitCall(w, s).state);
    }
  }

  lemma TimerIsHeard(w: World, from: nat, s: State)
    requires s.timers != []
    ensures Hears(w, from, s, AwaitTimer(w, s).state)
  {
    hide PlayTurn;
    hide HasHeard;
    hide Take;
    hide Without;
    hide DueFirst;
    if AwaitTimer(w, s).More? {
      TimerPass(w, s);
      BegunIsHeard(w, from, s, Firing(w, s));
    } else {
      SlotIsHeard(w, from, s, AwaitTimer(w, s).state);
    }
  }

  lemma PassIsHeard(w: World, from: nat, s: State)
    ensures Hears(w, from, s, Iterate(w, s).state)
  {
    hide RunJobs;
    hide AwaitCall;
    hide AwaitTimer;
    hide HasHeard;
    JobsAreHeard(w, from, s, MAX_JOBS);
    var ready := RunJobs(w, s, MAX_JOBS).0;
    if ready.bindings != [] {
      CallIsHeard(w, from, ready);
    } else if ready.timers != [] {
      TimerIsHeard(w, from, ready);
    }
  }

  lemma {:induction false} LoopIsHeard(w: World, from: nat, s: State, fuel: nat)
    ensures Hears(w, from, s, Loop(w, s, fuel).state)
    decreases fuel
  {
    hide Iterate;
    hide HasHeard;
    if fuel > 0 {
      PassIsHeard(w, from, s);
      if Iterate(w, s).More? {
        LoopIsHeard(w, from, Iterate(w, s).state, fuel - 1);
      }
    }
  }

  /** The state the dispatcher's turn begins in, field by field. */
  function Dispatching(s: State): State {
    s.(dispatches := s.dispatches + 1, dispatch := s.dispatches + 1, outcome := None, turns := s.turns + 1)
  }

  /** The drain of an event begins when its dispatcher's turn is over. */
  function EventDrain(w: World, wallClock: Option<nat>, s: State, fuel: nat): Next {
    Drained(w, wallClock, Play(Dispatching(s), w.turns(s.turns + 1).actions), fuel)
  }

  lemma EventDrainSays(w: World, wallClock: Option<nat>, s: State, fuel: nat)
    ensures HasHeard(w, s.turns, EventDrain(w, wallClock, s, fuel).state)
    ensures EventDrain(w, wallClock, s, fuel).state.dispatch == s.dispatches + 1
    ensures EventDrain(w, wallClock, s, fuel).state.dispatches == s.dispatches + 1
  {
    hide Play;
    hide Loop;
    hide Take;
    hide Without;
    hide Said;
    var begun := Dispatching(s);
    PlayIsHeard(begun, w.turns(begun.turns).actions);
    var played := Play(begun, w.turns(begun.turns).actions);
    assert SaidSince(w, begun.dispatch, s.turns, s.turns) == None;
    assert HasHeard(w, s.turns, played);
    var drain := Apply(played, BeginDrain(DeadlineOf(wallClock, played.now)));
    SlotIsHeard(w, s.turns, played, drain);
    LoopIsHeard(w, s.turns, drain, fuel);
  }

  /**
    Isolation, for every guest and every schedule: an event whose drain ends well
    is answered with the last answer given under its own id by the turns played
    for it, and with no other; and each way of ending badly has its own reply.
   */
  lemma ServedSays(w: World, wallClock: Option<nat>, s: State, fuel: nat)
    ensures w.turns(s.turns + 1).throws
        ==> Served(w, wallClock, s, fuel).1.Err? && Served(w, wallClock, s, fuel).1.reason.Exception?
    ensures !w.turns(s.turns + 1).throws && EventDrain(w, wallClock, s, fuel).More?
        ==> Served(w, wallClock, s, fuel).1.Pending?
    ensures !w.turns(s.turns + 1).throws && EventDrain(w, wallClock, s, fuel).Stop?
        ==> match EventDrain(w, wallClock, s, fuel).result
            case Done =>
              && Served(w, wallClock, s, fuel).0.turns == EventDrain(w, wallClock, s, fuel).state.turns
              && IsReply(Served(w, wallClock, s, fuel).1,
                         SaidSince(w, s.dispatches + 1, s.turns, Served(w, wallClock, s, fuel).0.turns))
            case MaxIterations => Served(w, wallClock, s, fuel).1 == Err(MaxIterationsReached)
            case WallClock => Served(w, wallClock, s, fuel).1 == Err(WallClockTimeout)
            case Hung => Served(w, wallClock, s, fuel).1.Pending?
  {
    hide Play;
    hide Loop;
    hide Take;
    hide Without;
    hide SaidSince;
    EventDrainSays(w, wallClock, s, fuel);
    assert Apply(s, Op.Dispatch(s.dispatches + 1)) == Dispatching(s);
  }

  /** In particular: a reply that is Ok is the text of an answer a turn of this event gave under its own id. */
  lemma OkIsOwn(w: World, wallClock: Option<nat>, s: State, fuel: nat) returns (n: nat)
    requires Served(w, wallClock, s, fuel).1.Ok?
    ensures s.turns < n <= Served(w, wallClock, s, fuel).0.turns
    ensures Answer(s.dispatches + 1, Value(Served(w, wallClock, s, fuel).1.text)) in w.turns(n).actions
  {
    hide Served;
    hide EventDrain;
    ServedSays(w, wallClock, s, fuel);
    n := SaidSomewhere(w, s.dispatches + 1, s.turns, Served(w, wallClock, s, fuel).0.turns);
  }

  // Loads.

  predicate Throws(w: World, turn: nat) {
    w.turns(turn).throws
  }

  /** One of the turns after `from`, up to and including `upto`, throws. */
  predicate SomeThrows(w: World, from: nat, upto: nat) {
    exists turn :: from < turn <= upto && Throws(w, turn)
  }

  /** Scripts take one turn each, one after the other, and one that throws is the last. */
  lemma {:induction false} EvaluatedSays(w: World, s: State, scripts: nat)
    ensures Evaluated(w, s, scripts).1 <==> SomeThrows(w, s.turns, s.turns + scripts)
    ensures !Evaluated(w, s, scripts).1 ==> Evaluated(w, s, scripts).0.turns == s.turns + scripts
    decreases scripts
  {
    hide Play;
    hide Take;
    hide Without;
    if scripts > 0 {
      var begun := Apply(s, Script);
      PlayIsHeard(begun, w.turns(begun.turns).actions);
      if !Throws(w, begun.turns) {
        EvaluatedSays(w, PlayTurn(w, begun), scripts - 1);
      }
    }
  }

  lemma {:induction false} EvaluatedTwice(w: World, s: State, a: nat, b: nat)
    ensures !Evaluated(w, s, a).1 ==> Evaluated(w, s, a + b) == Evaluated(w, Evaluated(w, s, a).0, b)
    decreases a
  {
    hide PlayTurn;
    hide Apply;
    if a > 0 && !w.turns(Apply(s, Script).turns).throws {
      EvaluatedTwice(w, PlayTurn(w, Apply(s, Script)), a - 1, b);
    }
  }

  /**
    A load fails with the error of the runtime when one of its scripts throws,
    with the guest's when the guest's does, and otherwise answers for the drain
    of all of them.
   */
  lemma BuiltSays(w: World, wallClock: Option<nat>, s: State, platform: nat, fuel: nat)
    ensures SomeThrows(w, s.turns, s.turns + platform)
       <==> Built(w, wallClock, s, platform, fuel).1.Failed?
            && Built(w, wallClock, s, platform, fuel).1.reason.InitializationError?
    ensures !SomeThrows(w, s.turns, s.turns + platform)
        ==> (Throws(w, s.turns + platform + 1)
             <==> Built(w, wallClock, s, platform, fuel).1.Failed?
                  && Built(w, wallClock, s, platform, fuel).1.reason.Exception?)
    ensures !SomeThrows(w, s.turns, s.turns + platform + 1)
        ==> LoadSays(Built(w, wallClock, s, platform, fuel).1,
                     Drained(w, wallClock, Evaluated(w, s, platform + 1).0, fuel))
            && Evaluated(w, s, platform + 1).0.turns == s.turns + platform + 1
  {
    hide Evaluated;
    hide Drained;
    EvaluatedSays(w, s, platform);
    EvaluatedSays(w, s, platform + 1);
    EvaluatedTwice(w, s, platform, 1);
    EvaluatedSays(w, Evaluated(w, s, platform).0, 1);
    assert SomeThrows(w, s.turns, s.turns + platform + 1)
        <==> SomeThrows(w, s.turns, s.turns + platform) || Throws(w, s.turns + platform + 1);
  }

  /** The drain of a load, as the caller has to see it. */
  predicate LoadSays(r: LoadResult, drained: Next) {
    match drained
    case More(_) => r == Loading
    case Stop(_, Done) => r == Loaded
    case Stop(_, MaxIterations) => r == Failed(MaxIterationsReached)
    case Stop(_, WallClock) => r == Failed(WallClockTimeout)
    case Stop(_, Hung) => r == Loading
  }
}
