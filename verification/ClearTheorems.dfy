/**
  What clearing a handle forbids: exactly the handles given out already. Any
  other can still be given out in the same turn, and fire in the drain after it.
 */
module ClearTheorems {
  import opened EventLoop
  import opened Options
  import opened DrainLoop
  import opened TimerTheorems
  import opened WorldRuns

  /**
    A turn either begins its drain when it is over, as those of scripts and
    dispatches do, or is part of one, as those of timers and answers are.
   */
  datatype Kind = Opening(wallClock: Option<nat>) | Within

  /** Where the drain stands when the turn is over, with the next pass to come. */
  function AfterTurn(kind: Kind, s: State): State {
    match kind
    case Opening(wallClock) => Apply(s, BeginDrain(DeadlineOf(wallClock, s.now)))
    case Within => s
  }

  /** The turn that begins in `s` starts with these actions. */
  predicate StartsWith(w: World, s: State, actions: seq<Action>) {
    actions <= w.turns(s.turns).actions
  }

  /** Pass number `n` fires the timer of a handle. */
  predicate FiresAt(w: World, s: State, n: nat, handle: nat) {
    && Loop(w, s, n).More?
    && var (ready, ok) := RunJobs(w, Loop(w, s, n).state, MAX_JOBS);
       && ok && ready.bindings == [] && ready.timers != []
       && DueFirst(ready.timers).handle == handle
       && AwaitTimer(w, ready).More?
  }

  /** The deadline of the drain under way has gone by. */
  predicate TooLate(kind: Kind, s: State) {
    kind.Within? && s.deadline.Some? && s.deadline.value < s.now
  }

  /** A turn up to its clearing, the clearing, and the rest. */
  lemma TurnSplits(w: World, s: State, before: seq<Action>, handle: nat) returns (rest: seq<Action>)
    requires StartsWith(w, s, before + [ClearTimer(handle)])
    ensures w.turns(s.turns).actions == before + [ClearTimer(handle)] + rest
    ensures PlayTurn(w, s) == Play(Apply(Play(s, before), Cancel(handle)), rest)
  {
    hide Play;
    var actions, start := w.turns(s.turns).actions, before + [ClearTimer(handle)];
    rest := actions[|start|..];
    PlayTwice(s, start, rest);
    PlayTwice(s, before, [ClearTimer(handle)]);
    PlayOne(Play(s, before), ClearTimer(handle));
  }

  // A handle that was given out.

  /** A pass that fires a timer finds it on the list, and in time, after a run of the state machine. */
  lemma FiringIsARun(w: World, s: State, n: nat, handle: nat) returns (log: seq<Op>, ready: State)
    requires s.flight.Grounded? && FiresAt(w, s, n, handle)
    ensures Leads(s, log, ready) && ready.timers != [] && DueFirst(ready.timers).handle == handle
    ensures ready.deadline.Some? ==> DueFirst(ready.timers).at <= ready.deadline.value
  {
    hide Loop;
    hide RunJobs;
    hide Leads;
    hide DueFirst;
    hide PlayTurn;
    hide Take;
    log := DrainIsARun(w, s, n);
    var at := Loop(w, s, n).state;
    ready := RunJobs(w, at, MAX_JOBS).0;
    var jobs := JobsLead(w, at, MAX_JOBS);
    LeadsTwice(s, log, at, jobs, ready);
    log := log + jobs;
  }

  lemma AfterTurnIsARun(kind: Kind, s: State) returns (log: seq<Op>)
    requires s.flight.Grounded?
    ensures Legal(s, log) && Run(s, log) == AfterTurn(kind, s) && AfterTurn(kind, s).flight.Grounded?
  {
    if kind.Within? {
      return [];
    }
    log := [BeginDrain(DeadlineOf(kind.wallClock, s.now))];
    LogStep(s, [], log[0]);
    assert [] + log == log;
  }

  lemma DeadIsNotDue(s: State, handle: nat)
    requires IsDead(s, handle) && s.timers != []
    ensures DueFirst(s.timers).handle != handle
  {
    assert DueFirst(s.timers) in s.timers;
  }

  /** Cleared after it was given out, a handle does not fire in any world. */
  lemma KnownNeverFires(start: nat, log: seq<Op>, before: seq<Action>, handle: nat, kind: Kind, w: World, n: nat)
    requires Legal(Init(start), log) && Run(Init(start), log).flight.Grounded?
    requires handle < Play(Run(Init(start), log), before).nextTimer
    requires StartsWith(w, Run(Init(start), log), before + [ClearTimer(handle)])
    ensures !FiresAt(w, AfterTurn(kind, PlayTurn(w, Run(Init(start), log))), n, handle)
  {
    hide Enabled;
    hide Apply;
    hide IsDead;
    hide Play;
    hide PlayTurn;
    hide FiresAt;
    hide Legal;
    hide Run;
    hide AfterTurn;
    var s := Run(Init(start), log);
    var rest := TurnSplits(w, s, before, handle);
    var cleared := Play(s, before);
    var a := PlayLeads(s, before);
    LogTwice(Init(start), log, a);
    LogStep(Init(start), log + a, Cancel(handle));
    CanCancel(cleared, handle);
    CancelKills(cleared, Cancel(handle));
    var dead := log + a + [Cancel(handle)];
    var b := PlayLeads(Apply(cleared, Cancel(handle)), rest);
    LogTwice(Init(start), dead, b);
    var c := AfterTurnIsARun(kind, PlayTurn(w, s));
    LogTwice(Init(start), dead + b, c);
    if FiresAt(w, AfterTurn(kind, PlayTurn(w, s)), n, handle) {
      var d, ready := FiringIsARun(w, AfterTurn(kind, PlayTurn(w, s)), n, handle);
      LogTwice(Init(start), dead + b + c, d);
      var whole := dead + b + c + d;
      assert whole[..|dead|] == dead;
      DeadStays(start, whole, |dead|, handle);
      DeadIsNotDue(ready, handle);
    }
  }

  lemma CanCancel(s: State, handle: nat)
    requires s.flight.Grounded?
    ensures Enabled(s, Cancel(handle)) && Apply(s, Cancel(handle)).flight.Grounded?
  {
    hide Without;
  }

  // A handle that was not, when it is too late.

  /** The deadline has gone by, and no timer of the handle is due before it. */
  predicate IsLate(s: State, handle: nat) {
    && s.deadline.Some? && s.deadline.value < s.now
    && (forall t :: t in s.timers && t.handle == handle ==> s.deadline.value < t.at)
  }

  lemma {:induction false} TakeOnlyMoves(timers: seq<Timer>, t: Timer, u: Timer)
    requires u in Take(timers, t)
    ensures u in timers || (t in timers && t.period.Some? && u == Rearmed(t))
  {
    assert timers == [timers[0]] + timers[1..];
    if timers[0] != t {
      if u != timers[0] {
        TakeOnlyMoves(timers[1..], t, u);
      }
    }
  }

  lemma LateStep(s: State, op: Op, handle: nat)
    requires IsLate(s, handle) && !op.BeginDrain?
    ensures IsLate(Apply(s, op), handle)
  {
    hide Take;
    hide Without;
    forall t | t in Apply(s, op).timers && t.handle == handle
      ensures s.deadline.value < t.at
    {
      match op {
        case Cancel(h) => WithoutMembers(s.timers, h, t);
        case TakeTimer(u) => TakeOnlyMoves(s.timers, u, t);
        case _ =>
      }
    }
  }

  lemma {:induction false} LateStays(s: State, log: seq<Op>, handle: nat)
    requires IsLate(s, handle) && forall i :: 0 <= i < |log| ==> !log[i].BeginDrain?
    ensures IsLate(Run(s, log), handle)
  {
    hide Apply;
    hide IsLate;
    if log != [] {
      LateStays(s, log[..|log| - 1], handle);
      LateStep(Run(s, log[..|log| - 1]), log[|log| - 1], handle);
    }
  }

  lemma LateIsNotDue(s: State, handle: nat)
    requires IsLate(s, handle) && s.timers != []
    ensures DueFirst(s.timers).handle == handle ==> s.deadline.value < DueFirst(s.timers).at
  {
    assert DueFirst(s.timers) in s.timers;
  }

  lemma LateNeverFires(w: World, s: State, before: seq<Action>, handle: nat, n: nat)
    requires s.flight.Grounded? && IsLate(Play(s, before), handle)
    requires StartsWith(w, s, before + [ClearTimer(handle)])
    ensures !FiresAt(w, PlayTurn(w, s), n, handle)
  {
    hide Apply;
    hide Play;
    hide PlayTurn;
    hide FiresAt;
    hide Run;
    hide Legal;
    var rest := TurnSplits(w, s, before, handle);
    var a := PlayLeads(s, before);
    var cleared := Play(s, before);
    CanCancel(cleared, handle);
    LateStep(cleared, Cancel(handle), handle);
    var b := PlayLeads(Apply(cleared, Cancel(handle)), rest);
    LateStays(Apply(cleared, Cancel(handle)), b, handle);
    if FiresAt(w, PlayTurn(w, s), n, handle) {
      var c, ready := FiringIsARun(w, PlayTurn(w, s), n, handle);
      LateStays(PlayTurn(w, s), c, handle);
      LateIsNotDue(ready, handle);
    }
  }

  lemma NewIsLate(start: nat, log: seq<Op>, handle: nat)
    requires Legal(Init(start), log) && Run(Init(start), log).nextTimer <= handle
    requires Run(Init(start), log).deadline.Some? && Run(Init(start), log).deadline.value < Run(Init(start), log).now
    ensures IsLate(Run(Init(start), log), handle)
  {
    hide Run;
    hide Legal;
    TimersAlways(start, log);
  }

  // More jobs than the cap.

  lemma {:induction false} PlayKeepsJobs(s: State, actions: seq<Action>)
    ensures |s.jobs| <= |Play(s, actions).jobs|
    decreases |actions|
  {
    hide Without;
    if actions != [] {
      PlayKeepsJobs(Apply(s, OpOf(s, actions[0])), actions[1..]);
    }
  }

  lemma {:induction false} JobsOverflow(w: World, s: State, cap: nat)
    requires cap < |s.jobs|
    ensures !RunJobs(w, s, cap).1
    decreases cap
  {
    hide Play;
    if cap > 0 {
      if !w.unfinished(s.polls) {
        var begun := Apply(s, RunJob(s.jobs[0]));
        PlayKeepsJobs(begun, w.turns(begun.turns).actions);
      }
      JobsOverflow(w, JobStep(w, s), cap - 1);
    }
  }

  lemma OverflowNeverFires(w: World, s: State, before: seq<Action>, handle: nat, kind: Kind, n: nat)
    requires MAX_JOBS < |Play(s, before).jobs| && StartsWith(w, s, before + [ClearTimer(handle)])
    ensures !FiresAt(w, AfterTurn(kind, PlayTurn(w, s)), n, handle)
  {
    hide Play;
    hide PlayTurn;
    hide RunJobs;
    hide Without;
    var rest := TurnSplits(w, s, before, handle);
    PlayKeepsJobs(Apply(Play(s, before), Cancel(handle)), rest);
    JobsOverflow(w, AfterTurn(kind, PlayTurn(w, s)), MAX_JOBS);
  }

  // A handle that was not given out, otherwise.

  /** Clearing every timer there is. */
  function ClearAll(timers: seq<Timer>): seq<Action>
    decreases |timers|
  {
    if timers == [] then []
    else
      WithoutShrinks(timers[1..], timers[0].handle);
      [ClearTimer(timers[0].handle)] + ClearAll(Without(timers, timers[0].handle))
  }

  lemma {:induction false} WithoutShrinks(timers: seq<Timer>, handle: nat)
    ensures |Without(timers, handle)| <= |timers|
  {
    if timers != [] {
      WithoutShrinks(timers[1..], handle);
    }
  }

  /** Setting and clearing timers until `handle` is the next to be given out. */
  function SkipTo(next: nat, handle: nat): seq<Action>
    decreases handle - next
  {
    if handle <= next then [] else [SetTimer(Ticks(0), false), ClearTimer(next)] + SkipTo(next + 1, handle)
  }

  /** What stays the same while timers come and go. */
  predicate SameButTimers(s: State, s': State) {
    s'.jobs == s.jobs && s'.bindings == s.bindings && s'.now == s.now && s'.deadline == s.deadline && s'.turns == s.turns
    && s'.flight == s.flight
  }

  lemma {:induction false} PlayClearAll(s: State)
    ensures SameButTimers(s, Play(s, ClearAll(s.timers))) && Play(s, ClearAll(s.timers)).timers == []
    ensures Play(s, ClearAll(s.timers)).nextTimer == s.nextTimer
    decreases |s.timers|
  {
    if s.timers != [] {
      var h := s.timers[0].handle;
      WithoutShrinks(s.timers[1..], h);
      var s' := Apply(s, Cancel(h));
      assert ClearAll(s.timers)[1..] == ClearAll(s'.timers);
      PlayClearAll(s');
    }
  }

  lemma {:induction false} PlaySkipTo(s: State, handle: nat)
    requires s.timers == [] && s.nextTimer <= handle
    ensures SameButTimers(s, Play(s, SkipTo(s.nextTimer, handle))) && Play(s, SkipTo(s.nextTimer, handle)).timers == []
    ensures Play(s, SkipTo(s.nextTimer, handle)).nextTimer == handle
    decreases handle - s.nextTimer
  {
    if s.nextTimer < handle {
      var n := s.nextTimer;
      var one := Apply(s, Schedule(n, 0, false));
      assert one.timers == [Timer(n, s.now, None, s.timerSeq)] && one.timers[1..] == [];
      assert Without([], n) == [];
      var two := Apply(one, Cancel(n));
      assert two.timers == [];
      var actions := SkipTo(n, handle);
      assert actions[1..][0] == ClearTimer(n) && actions[1..][1..] == SkipTo(n + 1, handle);
      assert Play(s, actions) == Play(one, actions[1..]) == Play(two, SkipTo(n + 1, handle));
      PlaySkipTo(two, handle);
    }
  }

  /** The rest of a turn after which the timer of `handle`, due at once, is the only one set. */
  function Bait(s: State, handle: nat): seq<Action> {
    ClearAll(s.timers) + (SkipTo(s.nextTimer, handle) + [SetTimer(Ticks(0), false)])
  }

  lemma PlayBait(s: State, handle: nat)
    requires s.nextTimer <= handle
    ensures SameButTimers(s, Play(s, Bait(s, handle)))
    ensures exists order :: Play(s, Bait(s, handle)).timers == [Timer(handle, s.now, None, order)]
  {
    hide Play;
    hide ClearAll;
    hide SkipTo;
    hide Without;
    hide Apply;
    PlayTwice(s, ClearAll(s.timers), SkipTo(s.nextTimer, handle) + [SetTimer(Ticks(0), false)]);
    PlayClearAll(s);
    var bare := Play(s, ClearAll(s.timers));
    PlayTwice(bare, SkipTo(s.nextTimer, handle), [SetTimer(Ticks(0), false)]);
    PlaySkipTo(bare, handle);
    var next := Play(bare, SkipTo(s.nextTimer, handle));
    PlayOne(next, SetTimer(Ticks(0), false));
    SetNow(next);
  }

  lemma SetNow(s: State)
    requires s.timers == []
    ensures SameButTimers(s, Apply(s, OpOf(s, SetTimer(Ticks(0), false))))
    ensures Apply(s, OpOf(s, SetTimer(Ticks(0), false))).timers == [Timer(s.nextTimer, s.now, None, s.timerSeq)]
  {
    hide Without;
  }

  /** A guest that takes one turn of actions, and is silent in all others; every call is answered at once. */
  function Once(turn: nat, actions: seq<Action>): World {
    World((n: nat) => Turn(if n == turn then actions else [], false),
          (n: nat) => false, (n: nat) => Some(0), (n: nat) => 0)
  }

  /** After the turn: what is left is jobs, calls, and the one timer, in time. */
  predicate IsBaited(s: State, turn: nat, handle: nat) {
    && s.flight.Grounded? && turn <= s.turns
    && |s.timers| == 1 && s.timers[0].handle == handle && s.timers[0].at <= s.now
    && (s.deadline.Some? ==> s.timers[0].at <= s.deadline.value)
  }

  lemma SilentTurn(turn: nat, actions: seq<Action>, s: State)
    requires turn < s.turns
    ensures PlayTurn(Once(turn, actions), s) == s
  {
  }

  lemma {:induction false} JobsRunSilently(turn: nat, actions: seq<Action>, s: State, handle: nat, cap: nat)
    requires IsBaited(s, turn, handle) && |s.jobs| <= cap
    ensures RunJobs(Once(turn, actions), s, cap).1
    ensures RunJobs(Once(turn, actions), s, cap).0.jobs == []
    ensures RunJobs(Once(turn, actions), s, cap).0.bindings == s.bindings
    ensures IsBaited(RunJobs(Once(turn, actions), s, cap).0, turn, handle)
    decreases cap
  {
    hide Take;
    hide Without;
    hide Play;
    if s.jobs != [] {
      var w := Once(turn, actions);
      SilentTurn(turn, actions, Apply(s, RunJob(s.jobs[0])));
      JobsRunSilently(turn, actions, JobStep(w, s), handle, cap - 1);
    }
  }

  lemma CallSettlesSilently(turn: nat, actions: seq<Action>, s: State, handle: nat)
    requires IsBaited(s, turn, handle) && s.bindings != [] && s.jobs == []
    ensures AwaitCall(Once(turn, actions), s).More?
    ensures IsBaited(AwaitCall(Once(turn, actions), s).state, turn, handle)
    ensures AwaitCall(Once(turn, actions), s).state.jobs == []
    ensures |AwaitCall(Once(turn, actions), s).state.bindings| == |s.bindings| - 1
  {
    hide Play;
    var id := s.bindings[|s.bindings| - 1];
    var ready := Apply(Apply(s, Await(id)), Elapse(0));
    SilentTurn(turn, actions, Apply(ready, Settle(id, id in ready.pending)));
  }

  lemma TimerIsReady(w: World, s: State, turn: nat, handle: nat)
    requires IsBaited(s, turn, handle)
    ensures DueFirst(s.timers).handle == handle && AwaitTimer(w, s).More?
  {
    hide PlayTurn;
    hide Take;
    assert DueFirst(s.timers) in s.timers;
  }

  /** One call a pass, and then the timer. */
  lemma {:induction false} BaitIsTaken(turn: nat, actions: seq<Action>, s: State, handle: nat)
    requires IsBaited(s, turn, handle) && |s.jobs| <= MAX_JOBS
    ensures FiresAt(Once(turn, actions), s, |s.bindings|, handle)
    decreases |s.bindings|
  {
    hide RunJobs;
    hide AwaitCall;
    hide AwaitTimer;
    hide DueFirst;
    hide Once;
    hide IsBaited;
    var w := Once(turn, actions);
    JobsRunSilently(turn, actions, s, handle, MAX_JOBS);
    var ready := RunJobs(w, s, MAX_JOBS).0;
    if s.bindings == [] {
      TimerIsReady(w, ready, turn, handle);
      BaitedHasATimer(ready, turn, handle);
    } else {
      CallSettlesSilently(turn, actions, ready, handle);
      BaitIsTaken(turn, actions, AwaitCall(w, ready).state, handle);
    }
  }

  lemma BaitedHasATimer(s: State, turn: nat, handle: nat)
    requires IsBaited(s, turn, handle)
    ensures s.timers != []
  {
  }

  /** The world in which a guest clears a handle it was not given yet, and then sees to it that it fires. */
  function Baiter(s: State, before: seq<Action>, handle: nat): World {
    Once(s.turns, before + [ClearTimer(handle)] + Bait(Apply(Play(s, before), Cancel(handle)), handle))
  }

  lemma UnknownFires(s: State, before: seq<Action>, handle: nat, kind: Kind)
    requires s.flight.Grounded? && Play(s, before).nextTimer <= handle
    requires |Play(s, before).jobs| <= MAX_JOBS && !TooLate(kind, Play(s, before))
    ensures StartsWith(Baiter(s, before, handle), s, before + [ClearTimer(handle)])
    ensures FiresAt(Baiter(s, before, handle), AfterTurn(kind, PlayTurn(Baiter(s, before, handle), s)),
                    |Play(s, before).bindings|, handle)
  {
    hide Play;
    hide Bait;
    hide FiresAt;
    hide Without;
    var w := Baiter(s, before, handle);
    var rest := TurnSplits(w, s, before, handle);
    var cleared := Apply(Play(s, before), Cancel(handle));
    var actions, cut := w.turns(s.turns).actions, |before| + 1;
    assert actions[cut..] == rest && actions[cut..] == Bait(cleared, handle);
    PlayBait(cleared, handle);
    var log := PlayLeads(s, before);
    PlayKeepsTurns(s, before);
    var order :| Play(cleared, rest).timers == [Timer(handle, cleared.now, None, order)];
    assert PlayTurn(w, s) == Play(cleared, rest);
    var entered := AfterTurn(kind, PlayTurn(w, s));
    assert IsBaited(entered, s.turns, handle);
    BaitIsTaken(s.turns, w.turns(s.turns).actions, entered, handle);
    assert Once(s.turns, w.turns(s.turns).actions) == w;
  }

  lemma {:induction false} PlayKeepsTurns(s: State, actions: seq<Action>)
    ensures Play(s, actions).turns == s.turns
    decreases |actions|
  {
    hide Without;
    if actions != [] {
      PlayKeepsTurns(Apply(s, OpOf(s, actions[0])), actions[1..]);
    }
  }

  /**
    Exactly: whatever a worker has been through, and whatever a guest has done
    in this turn, clearing a handle now rules out that its timer fires in the
    drain, in every way the turn and the world can go on, if and only if the
    handle was given out, or no new timer could fire in that drain anyway: more
    jobs are queued than the cap allows, or its deadline has gone by. (Once it
    was given out, ClearedNeverFires rules it out for good.)
   */
  lemma ClearForbidsExactly(start: nat, log: seq<Op>, before: seq<Action>, handle: nat, kind: Kind)
    requires Legal(Init(start), log) && Run(Init(start), log).flight.Grounded?
    ensures (forall w: World, n :: StartsWith(w, Run(Init(start), log), before + [ClearTimer(handle)])
               ==> !FiresAt(w, AfterTurn(kind, PlayTurn(w, Run(Init(start), log))), n, handle))
       <==> || handle < Play(Run(Init(start), log), before).nextTimer
            || |Play(Run(Init(start), log), before).jobs| > MAX_JOBS
            || TooLate(kind, Play(Run(Init(start), log), before))
  {
    hide Legal;
    hide Run;
    hide Play;
    hide PlayTurn;
    hide StartsWith;
    hide FiresAt;
    hide AfterTurn;
    var s := Run(Init(start), log);
    var now := Play(s, before);
    if handle < now.nextTimer || |now.jobs| > MAX_JOBS || TooLate(kind, now) {
      forall w: World, n: nat | StartsWith(w, s, before + [ClearTimer(handle)])
        ensures !FiresAt(w, AfterTurn(kind, PlayTurn(w, s)), n, handle)
      {
        if handle < now.nextTimer {
          KnownNeverFires(start, log, before, handle, kind, w, n);
        } else if |now.jobs| > MAX_JOBS {
          OverflowNeverFires(w, s, before, handle, kind, n);
        } else {
          TooLateNeverFires(start, log, before, handle, w, n);
          WithinIsNothing(PlayTurn(w, s));
        }
      }
    } else {
      UnknownFires(s, before, handle, kind);
    }
  }

  lemma WithinIsNothing(s: State)
    ensures AfterTurn(Within, s) == s
  {
  }

  lemma TooLateNeverFires(start: nat, log: seq<Op>, before: seq<Action>, handle: nat, w: World, n: nat)
    requires Legal(Init(start), log) && Run(Init(start), log).flight.Grounded?
    requires StartsWith(w, Run(Init(start), log), before + [ClearTimer(handle)])
    requires Play(Run(Init(start), log), before).nextTimer <= handle && TooLate(Within, Play(Run(Init(start), log), before))
    ensures !FiresAt(w, PlayTurn(w, Run(Init(start), log)), n, handle)
  {
    hide Legal;
    hide Run;
    hide Play;
    hide PlayTurn;
    hide FiresAt;
    var a := PlayLeads(Run(Init(start), log), before);
    LogTwice(Init(start), log, a);
    NewIsLate(start, log + a, handle);
    LateNeverFires(w, Run(Init(start), log), before, handle, n);
  }

  /** A script that clears handle 1 and then sets its first timer, due at once. */
  function EarlyBird(): World {
    Once(1, [ClearTimer(1), SetTimer(Ticks(0), false)])
  }

  /**
    A load in which it happens: handle 1 is cleared, given out, and fires. The
    drain ends well after two passes, with the callback run and forgotten.
   */
  lemma EarlyClearIsLost(start: nat, wallClock: Option<nat>)
    ensures !Evaluated(EarlyBird(), Init(start), 1).1
    ensures Evaluated(EarlyBird(), Init(start), 1).0.timers == [Timer(1, start, None, 0)]
    ensures Evaluated(EarlyBird(), Init(start), 1).0.callbacks == map[1 := false]
    ensures Drained(EarlyBird(), wallClock, Evaluated(EarlyBird(), Init(start), 1).0, 2).Stop?
    ensures Drained(EarlyBird(), wallClock, Evaluated(EarlyBird(), Init(start), 1).0, 2).result == Done
    ensures Drained(EarlyBird(), wallClock, Evaluated(EarlyBird(), Init(start), 1).0, 2).state.turns == 2
    ensures Drained(EarlyBird(), wallClock, Evaluated(EarlyBird(), Init(start), 1).0, 2).state.callbacks == map[]
  {
    EarlyScript(start);
    var w, s := EarlyBird(), Evaluated(EarlyBird(), Init(start), 1).0;
    hide Evaluated;
    EarlyDrain(w, Apply(s, BeginDrain(DeadlineOf(wallClock, s.now))));
  }

  lemma EarlyScript(start: nat)
    ensures !Evaluated(EarlyBird(), Init(start), 1).1
    ensures Evaluated(EarlyBird(), Init(start), 1).0
         == Init(start).(turns := 1, callbacks := map[1 := false], nextTimer := 2, timerSeq := 1,
                         timers := [Timer(1, start, None, 0)])
  {
    var w, s := EarlyBird(), Apply(Init(start), Script);
    assert Without([], 1) == [];
    var s1 := Apply(s, Cancel(1));
    assert s1 == s;
    PlayTwice(s, [ClearTimer(1)], [SetTimer(Ticks(0), false)]);
    assert [ClearTimer(1)] + [SetTimer(Ticks(0), false)] == [ClearTimer(1), SetTimer(Ticks(0), false)];
    PlayOne(s, ClearTimer(1));
    PlayOne(s1, SetTimer(Ticks(0), false));
    assert Evaluated(w, Init(start), 1) == Evaluated(w, PlayTurn(w, s), 0);
  }

  lemma EarlyDrain(w: World, s: State)
    requires w == EarlyBird() && s.jobs == [] && s.bindings == [] && s.turns == 1
    requires s.timers == [Timer(1, s.now, None, 0)] && s.callbacks == map[1 := false]
    requires s.deadline.Some? ==> s.now <= s.deadline.value
    ensures Loop(w, s, 2).Stop? && Loop(w, s, 2).result == Done
    ensures Loop(w, s, 2).state.turns == 2 && Loop(w, s, 2).state.callbacks == map[]
  {
    var t := s.timers[0];
    assert DueFirst(s.timers) == t;
    assert s.timers[1..] == [] && Take(s.timers, t) == [];
    var awake := Apply(Apply(s, TakeTimer(t)), Elapse(0));
    var fired := Apply(awake, Fire(t, true));
    SilentTurn(1, [ClearTimer(1), SetTimer(Ticks(0), false)], fired);
    assert Iterate(w, s) == More(fired);
    assert fired.callbacks == map[];
    assert Iterate(w, fired) == Stop(fired, Done);
    assert Loop(w, s, 2) == Loop(w, fired, 1);
  }
}
