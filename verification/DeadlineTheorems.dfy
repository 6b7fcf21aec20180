/**
  What a deadline is worth. It ends every drain whose guest takes time, however
  many timers and calls that guest goes on starting, as long as only finitely
  many calls are answered at once; and it is worth nothing beyond that.
 */
module DeadlineTheorems {
  import opened Sequences
  import opened EventLoop
  import opened Options
  import opened DrainLoop
  import opened DrainTheorems

  function Duration(actions: seq<Action>): nat {
    if actions == [] then 0
    else (if actions[0].Pass? then actions[0].ticks else 0) + Duration(actions[1..])
  }

  /** No turn is over in the very instant it began. */
  ghost predicate TakesTime(w: World) {
    forall n: nat :: Duration(w.turns(n).actions) > 0
  }

  type Waits = nat -> Option<nat>

  /** No call from number `k` on is answered in the very instant it is awaited. */
  ghost predicate Delays(waits: Waits, k: nat) {
    forall id: nat :: k <= id ==> waits(id) != Some(0)
  }

  /** The drain has ended within `fuel` passes. */
  predicate IsOver(w: World, s: State, fuel: nat) {
    Loop(w, s, fuel).Stop?
  }

  // The deadline works.

  /** The calls below `k` that wait on the list. */
  function Early(ids: seq<nat>, k: nat): nat {
    if ids == [] then 0 else Early(Past(ids), k) + (if Last(ids) < k then 1 else 0)
  }

  lemma EarlySnoc(ids: seq<nat>, id: nat, k: nat)
    ensures Early(ids + [id], k) == Early(ids, k) + (if id < k then 1 else 0)
  {
    assert Past(ids + [id]) == ids;
  }

  /** What is left to do past the deadline: timers due before it, and calls below `k` made or still to be made. */
  function Rest(s: State, k: nat): nat {
    Weights(s.timers, s.deadline) + Early(s.bindings, k) + (if s.nextCall < k then k - s.nextCall else 0)
  }

  function TimeLeft(s: State): nat {
    if s.deadline.Some? && s.now <= s.deadline.value then s.deadline.value - s.now + 1 else 0
  }

  /** Time does not go back, and past the deadline nothing adds to the rest. */
  predicate Nears(k: nat, s: State, s': State) {
    && s'.deadline == s.deadline
    && s.now <= s'.now
    && (TimeLeft(s) == 0 ==> Rest(s', k) <= Rest(s, k))
  }

  lemma ActionNears(k: nat, s: State, a: Action)
    requires s.deadline.Some?
    ensures Nears(k, s, Apply(s, OpOf(s, a)))
    ensures Apply(s, OpOf(s, a)).now == s.now + Duration([a])
  {
    hide Without;
    hide Weights;
    hide Early;
    match a {
      case ClearTimer(handle) => WithoutWeighsLess(s.timers, handle, s.deadline);
      case SetTimer(delay, repeating) =>
        var t := Timer(s.nextTimer, s.now + DelayOf(delay), if repeating then Some(DelayOf(delay)) else None, s.timerSeq);
        AppendWeighs(s.timers, t, s.deadline);
      case CallHost(_) => EarlySnoc(s.bindings, s.nextCall, k);
      case _ =>
    }
  }

  lemma {:induction false} PlayNears(k: nat, s: State, actions: seq<Action>)
    requires s.deadline.Some?
    ensures Nears(k, s, Play(s, actions)) && Play(s, actions).now == s.now + Duration(actions)
    decreases |actions|
  {
    hide Apply;
    hide OpOf;
    hide Rest;
    if actions != [] {
      ActionNears(k, s, actions[0]);
      PlayNears(k, Apply(s, OpOf(s, actions[0])), actions[1..]);
    }
  }

  lemma TurnNears(w: World, k: nat, s: State)
    requires TakesTime(w) && s.deadline.Some?
    ensures Nears(k, s, PlayTurn(w, s)) && s.now < PlayTurn(w, s).now
  {
    PlayNears(k, s, w.turns(s.turns).actions);
  }

  lemma {:induction false} JobsNear(w: World, k: nat, s: State, cap: nat)
    requires TakesTime(w) && s.deadline.Some?
    ensures Nears(k, s, RunJobs(w, s, cap).0)
    decreases cap
  {
    hide PlayTurn;
    hide TakesTime;
    if s.jobs != [] && cap != 0 {
      if !w.unfinished(s.polls) {
        TurnNears(w, k, Apply(s, RunJob(s.jobs[0])));
      }
      JobsNear(w, k, JobStep(w, s), cap - 1);
    }
  }

  /** Every pass takes time off the deadline or, past it, something off the rest. */
  predicate Closer(k: nat, s: State, s': State) {
    && s'.deadline == s.deadline
    && (TimeLeft(s') < TimeLeft(s) || (TimeLeft(s') == TimeLeft(s) == 0 && Rest(s', k) < Rest(s, k)))
  }

  lemma CallPassNears(w: World, k: nat, s: State)
    requires TakesTime(w) && Delays(w.waits, k) && s.deadline.Some? && s.bindings != [] && AwaitCall(w, s).More?
    ensures Closer(k, s, AwaitCall(w, s).state)
  {
    hide AwaitCall;
    hide PlayTurn;
    hide Settling;
    hide TakesTime;
    hide Weights;
    CallPass(w, s);
    TurnNears(w, k, Settling(w, s));
  }

  lemma TimerPassNears(w: World, k: nat, s: State)
    requires TakesTime(w) && s.deadline.Some? && s.timers != [] && AwaitTimer(w, s).More?
    ensures Closer(k, s, AwaitTimer(w, s).state)
  {
    hide AwaitTimer;
    hide PlayTurn;
    hide Firing;
    hide TakesTime;
    hide Weights;
    hide Take;
    hide DueFirst;
    TimerPass(w, s);
    TakeWeighsLess(s.timers, DueFirst(s.timers), s.deadline);
    TurnNears(w, k, Firing(w, s));
  }

  lemma PassNears(w: World, k: nat, s: State)
    requires TakesTime(w) && Delays(w.waits, k) && s.deadline.Some? && Iterate(w, s).More?
    ensures Closer(k, s, Iterate(w, s).state)
  {
    hide RunJobs;
    hide AwaitCall;
    hide AwaitTimer;
    hide TakesTime;
    hide Delays;
    hide Rest;
    var ready := RunJobs(w, s, MAX_JOBS).0;
    JobsNear(w, k, s, MAX_JOBS);
    if ready.bindings != [] {
      CallPassNears(w, k, ready);
    } else {
      TimerPassNears(w, k, ready);
    }
  }

  /** The time left bounds the passes until the deadline has gone by, or the drain is over. */
  lemma {:induction false} PassesUntilLate(w: World, s: State, k: nat, n: nat)
    requires TakesTime(w) && Delays(w.waits, k) && s.deadline.Some? && TimeLeft(s) <= n
    ensures Loop(w, s, n).More? ==> TimeLeft(Loop(w, s, n).state) == 0 && Loop(w, s, n).state.deadline == s.deadline
    decreases n
  {
    hide Iterate;
    hide TakesTime;
    hide Delays;
    hide Rest;
    if n > 0 && Iterate(w, s).More? {
      PassNears(w, k, s);
      PassesUntilLate(w, Iterate(w, s).state, k, n - 1);
    }
  }

  /** Past the deadline, the rest bounds the passes. */
  lemma {:induction false} PassesWhenLate(w: World, s: State, k: nat, n: nat)
    requires TakesTime(w) && Delays(w.waits, k) && s.deadline.Some? && TimeLeft(s) == 0 && Rest(s, k) < n
    ensures Loop(w, s, n).Stop?
    decreases n
  {
    hide Iterate;
    hide TakesTime;
    hide Delays;
    hide Rest;
    if Iterate(w, s).More? {
      PassNears(w, k, s);
      PassesWhenLate(w, Iterate(w, s).state, k, n - 1);
    }
  }

  /** Passes enough: as many as there are ticks to the deadline and, from there, as there is a rest. */
  function Passes(w: World, s: State, k: nat): nat {
    var late := Loop(w, s, TimeLeft(s));
    TimeLeft(s) + (if late.More? then Rest(late.state, k) + 1 else 0)
  }

  /**
    The deadline holds against every guest: one that sets a new timer in every
    callback, or retries a call for ever, is stopped like any other.
   */
  lemma DeadlineEndsEveryDrain(w: World, s: State, k: nat)
    requires TakesTime(w) && Delays(w.waits, k) && s.deadline.Some?
    ensures Loop(w, s, Passes(w, s, k)).Stop?
  {
    hide Loop;
    hide TakesTime;
    hide Delays;
    hide Rest;
    var n := TimeLeft(s);
    PassesUntilLate(w, s, k, n);
    if Loop(w, s, n).More? {
      var late := Loop(w, s, n).state;
      PassesWhenLate(w, late, k, Rest(late, k) + 1);
      LoopTwice(w, s, n, Rest(late, k) + 1);
    }
  }

  // The deadline does not work.

  function Botches(n: nat): seq<Action> {
    if n == 0 then [] else [CallHost(false)] + Botches(n - 1)
  }

  /** The number of the first call that can be made after the n-th of `ids`. */
  function From(ids: nat -> nat, n: nat): nat {
    if n == 0 then 1 else ids(n - 1) + 1
  }

  predicate IsRising(ids: nat -> nat, n: nat) {
    From(ids, n) <= ids(n)
  }

  function SpinTurn(ids: nat -> nat, n: nat): Turn {
    if n == 0 || ids(n - 1) < From(ids, n - 1) then Turn([Pass(1)], false)
    else Turn([Pass(1)] + (Botches(ids(n - 1) - From(ids, n - 1)) + [CallHost(true)]), false)
  }

  /** A guest that makes one call a turn, under the numbers `ids`, and takes one tick over it. */
  function Spinner(waits: Waits, ids: nat -> nat): World {
    World((n: nat) => SpinTurn(ids, n), (n: nat) => false, waits, (n: nat) => 0)
  }

  /** The drain of a load: the scripts of a new worker have run, and what they started is drained. */
  function LoadDrain(w: World, start: nat, wallClock: Option<nat>, scripts: nat, fuel: nat): Next {
    Drained(w, wallClock, Evaluated(w, Init(start), scripts).0, fuel)
  }

  /** What the spinning guest leaves alone. */
  predicate Same(s: State, s': State) {
    s'.jobs == s.jobs && s'.turns == s.turns
  }

  lemma {:induction false} PlayBotches(s: State, n: nat)
    ensures Same(s, Play(s, Botches(n))) && Play(s, Botches(n)).bindings == s.bindings
    ensures Play(s, Botches(n)).nextCall == s.nextCall + n
    decreases n
  {
    if n > 0 {
      assert Botches(n)[1..] == Botches(n - 1);
      PlayBotches(Apply(s, OpOf(s, CallHost(false))), n - 1);
    }
  }

  /** A turn of the spinning guest queues the next of its calls. */
  lemma SpinPlays(waits: Waits, ids: nat -> nat, s: State)
    requires s.turns > 0 && IsRising(ids, s.turns - 1) && s.nextCall == From(ids, s.turns - 1) && s.bindings == []
    ensures Same(s, PlayTurn(Spinner(waits, ids), s))
    ensures PlayTurn(Spinner(waits, ids), s).bindings == [ids(s.turns - 1)]
    ensures PlayTurn(Spinner(waits, ids), s).nextCall == From(ids, s.turns)
  {
    hide Play;
    hide Without;
    var n := ids(s.turns - 1) - From(ids, s.turns - 1);
    PlayTwice(s, [Pass(1)], Botches(n) + [CallHost(true)]);
    PlayOne(s, Pass(1));
    var s1 := Play(s, [Pass(1)]);
    PlayTwice(s1, Botches(n), [CallHost(true)]);
    PlayBotches(s1, n);
    PlayOne(Play(s1, Botches(n)), CallHost(true));
  }

  /** No job, and the call of the last turn queued. */
  predicate Spins(ids: nat -> nat, s: State) {
    && s.jobs == []
    && s.turns > 0
    && s.bindings == [ids(s.turns - 1)]
    && s.nextCall == From(ids, s.turns)
  }

  lemma SpinPass(waits: Waits, ids: nat -> nat, s: State)
    requires Spins(ids, s) && IsRising(ids, s.turns) && waits(ids(s.turns - 1)) == Some(0)
    ensures AwaitCall(Spinner(waits, ids), s).More? && Spins(ids, AwaitCall(Spinner(waits, ids), s).state)
  {
    hide PlayTurn;
    var w := Spinner(waits, ids);
    CallPass(w, s);
    SpinPlays(waits, ids, Settling(w, s));
  }

  lemma {:induction false} SpinsOn(waits: Waits, ids: nat -> nat, s: State, fuel: nat)
    requires forall n: nat :: IsRising(ids, n) && waits(ids(n)) == Some(0)
    ensures RunJobs(Spinner(waits, ids), s, MAX_JOBS).1 && Spins(ids, RunJobs(Spinner(waits, ids), s, MAX_JOBS).0)
        ==> Loop(Spinner(waits, ids), s, fuel).More?
    decreases fuel
  {
    hide AwaitCall;
    hide AwaitTimer;
    hide JobStep;
    hide IsRising;
    hide Spinner;
    var w := Spinner(waits, ids);
    var ready := RunJobs(w, s, MAX_JOBS).0;
    if fuel > 0 && RunJobs(w, s, MAX_JOBS).1 && Spins(ids, ready) {
      SpinPass(waits, ids, ready);
      SpinsOn(waits, ids, AwaitCall(w, ready).state, fuel - 1);
    }
  }

  /** The one script of a load is the first turn of the spinning guest. */
  lemma FirstScript(waits: Waits, ids: nat -> nat, start: nat)
    requires IsRising(ids, 0)
    ensures Spins(ids, Evaluated(Spinner(waits, ids), Init(start), 1).0)
    ensures !Evaluated(Spinner(waits, ids), Init(start), 1).1
  {
    hide PlayTurn;
    var w, begun := Spinner(waits, ids), Apply(Init(start), Script);
    SpinPlays(waits, ids, begun);
    assert Evaluated(w, Init(start), 1) == (PlayTurn(w, begun), false) by {
      assert Evaluated(w, PlayTurn(w, begun), 0) == (PlayTurn(w, begun), false);
    }
  }

  lemma SpinnerTakesTime(waits: Waits, ids: nat -> nat)
    ensures TakesTime(Spinner(waits, ids))
  {
    forall n: nat
      ensures Duration(SpinTurn(ids, n).actions) > 0
    {
      var actions := SpinTurn(ids, n).actions;
      assert actions[0] == Pass(1);
    }
  }

  /**
    A load no deadline ends: its one script makes a call, and so does every turn
    that follows, each answered at once. However small what is left of the
    deadline, an answer that is there already still counts.
   */
  lemma SpinsForEver(waits: Waits, ids: nat -> nat, start: nat, wallClock: nat, fuel: nat)
    requires forall n: nat :: IsRising(ids, n) && waits(ids(n)) == Some(0)
    ensures TakesTime(Spinner(waits, ids)) && !Evaluated(Spinner(waits, ids), Init(start), 1).1
    ensures LoadDrain(Spinner(waits, ids), start, Some(wallClock), 1, fuel).More?
  {
    hide Loop;
    hide Spinner;
    hide RunJobs;
    hide Evaluated;
    hide IsRising;
    SpinnerTakesTime(waits, ids);
    assert IsRising(ids, 0);
    FirstScript(waits, ids, start);
    var loaded := Evaluated(Spinner(waits, ids), Init(start), 1).0;
    var begun := Apply(loaded, BeginDrain(DeadlineOf(Some(wallClock), loaded.now)));
    NoJobs(Spinner(waits, ids), begun);
    SpinsOn(waits, ids, begun, fuel);
  }

  lemma NoJobs(w: World, s: State)
    requires s.jobs == []
    ensures RunJobs(w, s, MAX_JOBS) == (s, true)
  {
  }

  function UnwiredSpinner(): World {
    Spinner((id: nat) => Some(0), (n: nat) => n + 1)
  }

  /** So does a guest on a worker without an operations handler, whose every call is answered at once. */
  lemma UnwiredHostSpins(start: nat, wallClock: nat, fuel: nat)
    ensures LoadDrain(UnwiredSpinner(), start, Some(wallClock), 1, fuel).More?
  {
    hide LoadDrain;
    hide Spinner;
    SpinsForEver((id: nat) => Some(0), (n: nat) => n + 1, start, wallClock, fuel);
  }

  /** The first call from `from` on that is answered at once. */
  ghost function NextAtOnce(waits: Waits, from: nat): (id: nat)
    requires !Delays(waits, from)
    ensures from <= id && waits(id) == Some(0)
  {
    var id: nat :| from <= id && waits(id) == Some(0);
    id
  }

  ghost function AtOnce(waits: Waits, n: nat): (id: nat)
    ensures (forall k: nat :: !Delays(waits, k)) ==> waits(id) == Some(0)
    decreases n
  {
    if k: nat :| Delays(waits, k) then 0
    else NextAtOnce(waits, if n == 0 then 1 else AtOnce(waits, n - 1) + 1)
  }

  /** A worker in the middle of a drain, and the guest it drains for. */
  ghost predicate IsDrain(waits: Waits, w: World, s: State) {
    w.waits == waits && TakesTime(w) && s.deadline.Some?
  }

  /** The drain of a load has ended within `fuel` passes. */
  predicate LoadIsOver(w: World, start: nat, wallClock: nat, scripts: nat, fuel: nat) {
    LoadDrain(w, start, Some(wallClock), scripts, fuel).Stop?
  }

  /**
    Exactly: deadlines end every drain, whatever the guest, if and only if no
    more than finitely many calls are answered at once.
   */
  lemma DeadlineIsAsGoodAsItsAnswers(waits: Waits)
    ensures (exists k: nat :: Delays(waits, k))
       <==> forall w: World, s: State :: IsDrain(waits, w, s) ==> exists fuel :: IsOver(w, s, fuel)
  {
    hide LoadDrain;
    hide Delays;
    hide TakesTime;
    LoadsAreAsGoodAsTheirAnswers(waits);
    if k: nat :| Delays(waits, k) {
      forall w: World, s: State | IsDrain(waits, w, s)
        ensures exists fuel :: IsOver(w, s, fuel)
      {
        DeadlineEndsEveryDrain(w, s, k);
        assert IsOver(w, s, Passes(w, s, k));
      }
    } else {
      var w, start, wallClock, scripts := BadLoad(waits);
      var loaded := Evaluated(w, Init(start), scripts).0;
      var s := Apply(loaded, BeginDrain(DeadlineOf(Some(wallClock), loaded.now)));
      assert IsDrain(waits, w, s);
      forall fuel
        ensures !IsOver(w, s, fuel)
      {
        assert !LoadIsOver(w, start, wallClock, scripts, fuel);
        LoadDrainIsLoop(w, start, wallClock, scripts, fuel);
      }
    }
  }

  lemma LoadDrainIsLoop(w: World, start: nat, wallClock: nat, scripts: nat, fuel: nat)
    ensures var loaded := Evaluated(w, Init(start), scripts).0;
            LoadIsOver(w, start, wallClock, scripts, fuel)
            <==> IsOver(w, Apply(loaded, BeginDrain(DeadlineOf(Some(wallClock), loaded.now))), fuel)
  {
    hide Loop;
    hide Evaluated;
    hide Apply;
  }

  lemma BadLoad(waits: Waits) returns (w: World, start: nat, wallClock: nat, scripts: nat)
    requires forall k: nat :: !Delays(waits, k)
    ensures w.waits == waits && TakesTime(w) && !Evaluated(w, Init(start), scripts).1
    ensures forall fuel :: !LoadIsOver(w, start, wallClock, scripts, fuel)
  {
    hide LoadDrain;
    hide Delays;
    hide TakesTime;
    hide Evaluated;
    var ids := (n: nat) => AtOnce(waits, n);
    forall n: nat
      ensures IsRising(ids, n) && waits(ids(n)) == Some(0)
    {
      AtOnceRises(waits, n);
    }
    w, start, wallClock, scripts := Spinner(waits, ids), 0, 0, 1;
    forall fuel
      ensures !LoadIsOver(w, start, wallClock, scripts, fuel)
    {
      SpinsForEver(waits, ids, start, wallClock, fuel);
    }
    SpinsForEver(waits, ids, start, wallClock, 0);
  }

  /** And it takes no more than a load to tell. */
  lemma LoadsAreAsGoodAsTheirAnswers(waits: Waits)
    ensures (exists k: nat :: Delays(waits, k))
       <==> forall w: World, start, wallClock, scripts :: w.waits == waits && TakesTime(w) && IsLoaded(w, start, scripts)
              ==> LoadEnds(w, start, wallClock, scripts)
  {
    hide LoadDrain;
    hide Delays;
    hide TakesTime;
    hide Evaluated;
    if k: nat :| Delays(waits, k) {
      forall w: World, start: nat, wallClock: nat, scripts: nat | w.waits == waits && TakesTime(w) && IsLoaded(w, start, scripts)
        ensures LoadEnds(w, start, wallClock, scripts)
      {
        var loaded := Evaluated(w, Init(start), scripts).0;
        var s := Apply(loaded, BeginDrain(DeadlineOf(Some(wallClock), loaded.now)));
        DeadlineEndsEveryDrain(w, s, k);
        LoadDrainIsLoop(w, start, wallClock, scripts, Passes(w, s, k));
        assert LoadIsOver(w, start, wallClock, scripts, Passes(w, s, k));
      }
    } else {
      var w, start, wallClock, scripts := BadLoad(waits);
      assert IsLoaded(w, start, scripts) && !LoadEnds(w, start, wallClock, scripts);
    }
  }

  ghost predicate LoadEnds(w: World, start: nat, wallClock: nat, scripts: nat) {
    exists fuel :: LoadIsOver(w, start, wallClock, scripts, fuel)
  }

  /** No script threw, so a drain follows. */
  predicate IsLoaded(w: World, start: nat, scripts: nat) {
    !Evaluated(w, Init(start), scripts).1
  }

  lemma AtOnceRises(waits: Waits, n: nat)
    requires forall k: nat :: !Delays(waits, k)
    ensures (if n == 0 then 1 else AtOnce(waits, n - 1) + 1) <= AtOnce(waits, n)
  {
  }
}
