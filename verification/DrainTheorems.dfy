/**
  When a drain ends, and how: guests that turn quiet, guests that never do but
  run against a deadline, and the one family of guests no deadline stops.
 */
module DrainTheorems {
  import opened Sequences
  import opened EventLoop
  import opened Options
  import opened DrainLoop

  /** How often a timer can still fire: without a deadline, once; with one, until it is due past it. */
  function Weight(t: Timer, deadline: Option<nat>): nat {
    if deadline.None? then 1
    else if deadline.value < t.at then 0
    else (deadline.value - t.at) / MILLISECOND + 1
  }

  function Weights(timers: seq<Timer>, deadline: Option<nat>): nat {
    if timers == [] then 0 else Weight(timers[0], deadline) + Weights(timers[1..], deadline)
  }

  lemma {:induction false} WithoutWeighsLess(timers: seq<Timer>, handle: nat, deadline: Option<nat>)
    ensures Weights(Without(timers, handle), deadline) <= Weights(timers, deadline)
  {
    hide Weight;
    if timers != [] {
      WithoutWeighsLess(timers[1..], handle, deadline);
      var rest := Without(timers[1..], handle);
      assert ([timers[0]] + rest)[1..] == rest && [] + rest == rest;
    }
  }

  lemma {:induction false} AppendWeighs(timers: seq<Timer>, t: Timer, deadline: Option<nat>)
    ensures Weights(timers + [t], deadline) == Weights(timers, deadline) + Weight(t, deadline)
  {
    hide Weight;
    if timers != [] {
      AppendWeighs(timers[1..], t, deadline);
      assert (timers + [t])[1..] == timers[1..] + [t];
    }
  }

  /** Firing counts as long as the deadline has not been passed and, without one, the timer does not repeat. */
  predicate CanRun(t: Timer, deadline: Option<nat>) {
    if deadline.Some? then t.at <= deadline.value else t.period.None?
  }

  lemma RearmedWeighsLess(t: Timer, deadline: Option<nat>)
    requires t.period.Some? && CanRun(t, deadline)
    ensures Weight(Rearmed(t), deadline) < Weight(t, deadline)
  {
    var d := deadline.value - t.at;
    var p := Max(t.period.value, MILLISECOND);
    if p <= d {
      DivideLess(d, p);
    }
  }

  lemma DivideLess(d: nat, p: nat)
    requires MILLISECOND <= p <= d
    ensures (d - p) / MILLISECOND < d / MILLISECOND
  {
    assert (d - MILLISECOND) / MILLISECOND == d / MILLISECOND - 1;
  }

  /** Taking a timer that may run uses up some of what the list weighs. */
  lemma {:induction false} TakeWeighsLess(timers: seq<Timer>, t: Timer, deadline: Option<nat>)
    requires t in timers && CanRun(t, deadline)
    ensures Weights(Take(timers, t), deadline) < Weights(timers, deadline)
  {
    hide Weight;
    hide CanRun;
    assert timers == [timers[0]] + timers[1..];
    if timers[0] != t {
      TakeWeighsLess(timers[1..], t, deadline);
      assert Take(timers, t)[1..] == Take(timers[1..], t);
    } else if t.period.Some? {
      RearmedWeighsLess(t, deadline);
      assert Take(timers, t)[1..] == timers[1..];
    } else {
      CanRunWeighs(t, deadline);
      assert Take(timers, t) == timers[1..];
    }
  }

  lemma CanRunWeighs(t: Timer, deadline: Option<nat>)
    requires CanRun(t, deadline)
    ensures Weight(t, deadline) > 0
  {
  }

  // Every guest: what a drain keeps.

  predicate OneShots(timers: seq<Timer>) {
    forall t :: t in timers ==> t.period.None?
  }

  ghost predicate NoIntervals(w: World) {
    forall n: nat, a: Action :: a in w.turns(n).actions && a.SetTimer? ==> !a.repeating
  }

  lemma WithoutOneShots(timers: seq<Timer>, handle: nat)
    requires OneShots(timers)
    ensures OneShots(Without(timers, handle))
  {
    forall t | t in Without(timers, handle)
      ensures t.period.None?
    {
      WithoutMembers(timers, handle, t);
    }
  }

  lemma {:induction false} TakeOneShots(timers: seq<Timer>, t: Timer)
    requires OneShots(timers)
    ensures OneShots(Take(timers, t))
  {
    if timers != [] {
      assert timers == [timers[0]] + timers[1..];
      TakeOneShots(timers[1..], t);
    }
  }

  /** The deadline stays, turns and time only go forward, and intervals come from nowhere but the guest. */
  predicate GoesOn(plain: bool, s: State, s': State) {
    && s'.deadline == s.deadline
    && s.turns <= s'.turns
    && s.now <= s'.now
    && (plain && OneShots(s.timers) ==> OneShots(s'.timers))
  }

  lemma ActionGoesOn(plain: bool, s: State, a: Action)
    requires plain && a.SetTimer? ==> !a.repeating
    ensures GoesOn(plain, s, Apply(s, OpOf(s, a)))
  {
    hide Without;
    if a.ClearTimer? && OneShots(s.timers) {
      WithoutOneShots(s.timers, a.handle);
    }
  }

  lemma {:induction false} PlayGoesOn(plain: bool, s: State, actions: seq<Action>)
    requires forall a :: a in actions ==> plain && a.SetTimer? ==> !a.repeating
    ensures GoesOn(plain, s, Play(s, actions))
    decreases |actions|
  {
    hide Apply;
    hide OpOf;
    hide OneShots;
    if actions != [] {
      ActionGoesOn(plain, s, actions[0]);
      PlayGoesOn(plain, Apply(s, OpOf(s, actions[0])), actions[1..]);
    }
  }

  lemma TurnGoesOn(w: World, plain: bool, s: State)
    requires plain ==> NoIntervals(w)
    ensures GoesOn(plain, s, PlayTurn(w, s))
  {
    PlayGoesOn(plain, s, w.turns(s.turns).actions);
  }

  lemma {:induction false} JobsGoOn(w: World, plain: bool, s: State, cap: nat)
    requires plain ==> NoIntervals(w)
    ensures GoesOn(plain, s, RunJobs(w, s, cap).0)
    decreases cap
  {
    hide PlayTurn;
    hide NoIntervals;
    hide OneShots;
    if s.jobs != [] && cap != 0 {
      if !w.unfinished(s.polls) {
        TurnGoesOn(w, plain, Apply(s, RunJob(s.jobs[0])));
      }
      JobsGoOn(w, plain, JobStep(w, s), cap - 1);
    }
  }

  /** The state in which a settled call's turn begins. */
  function Settling(w: World, s: State): State
    requires s.bindings != []
  {
    var id := Last(s.bindings);
    var wait := w.waits(id);
    var ready := Apply(Apply(s, Await(id)), Elapse(if wait.Some? then wait.value else 0));
    Apply(ready, Settle(id, id in ready.pending))
  }

  /** The state in which a fired timer's turn begins. */
  function Firing(w: World, s: State): State
    requires s.timers != []
  {
    var t := DueFirst(s.timers);
    var wait := if s.now <= t.at then t.at - s.now + w.lag(s.turns) else 0;
    var awake := Apply(Apply(s, TakeTimer(t)), Elapse(wait));
    Apply(awake, Fire(t, t.handle in awake.callbacks))
  }

  /** What a pass that goes on does: it settles a call or fires a timer, in a turn of its own. */
  lemma CallPass(w: World, s: State)
    requires s.bindings != [] && AwaitCall(w, s).More?
    ensures AwaitCall(w, s).state == PlayTurn(w, Settling(w, s))
    ensures Settling(w, s).turns == s.turns + 1 && Settling(w, s).bindings == Past(s.bindings)
    ensures Settling(w, s).timers == s.timers && Settling(w, s).deadline == s.deadline
    ensures Settling(w, s).nextCall == s.nextCall && Settling(w, s).jobs == s.jobs
    ensures w.waits(Last(s.bindings)).Some? && Settling(w, s).now == s.now + w.waits(Last(s.bindings)).value
    ensures s.deadline.Some? ==> w.waits(Last(s.bindings)).value <= Budget(s)
  {
    hide PlayTurn;
  }

  lemma TimerPass(w: World, s: State)
    requires s.timers != [] && AwaitTimer(w, s).More?
    ensures AwaitTimer(w, s).state == PlayTurn(w, Firing(w, s))
    ensures Firing(w, s).turns == s.turns + 1 && Firing(w, s).bindings == s.bindings
    ensures Firing(w, s).timers == Take(s.timers, DueFirst(s.timers)) && Firing(w, s).deadline == s.deadline
    ensures Firing(w, s).nextCall == s.nextCall && s.now <= Firing(w, s).now
    ensures s.deadline.Some? ==> DueFirst(s.timers).at <= s.deadline.value
  {
    hide PlayTurn;
    hide Take;
    hide DueFirst;
  }

  /** Every pass plays a turn. */
  lemma PassGoesOn(w: World, plain: bool, s: State)
    requires (plain ==> NoIntervals(w)) && Iterate(w, s).More?
    ensures GoesOn(plain, s, Iterate(w, s).state) && s.turns < Iterate(w, s).state.turns
  {
    hide NoIntervals;
    hide RunJobs;
    hide AwaitCall;
    hide AwaitTimer;
    hide PlayTurn;
    hide Settling;
    hide Firing;
    hide OneShots;
    hide Take;
    hide DueFirst;
    var ready := RunJobs(w, s, MAX_JOBS).0;
    JobsGoOn(w, plain, s, MAX_JOBS);
    if ready.bindings != [] {
      CallPass(w, ready);
      TurnGoesOn(w, plain, Settling(w, ready));
    } else {
      TimerPass(w, ready);
      if OneShots(ready.timers) {
        TakeOneShots(ready.timers, DueFirst(ready.timers));
      }
      TurnGoesOn(w, plain, Firing(w, ready));
    }
  }

  lemma {:induction false} LoopGoesOn(w: World, plain: bool, s: State, n: nat)
    requires plain ==> NoIntervals(w)
    ensures Loop(w, s, n).More? ==> GoesOn(plain, s, Loop(w, s, n).state) && s.turns + n <= Loop(w, s, n).state.turns
    decreases n
  {
    hide NoIntervals;
    hide Iterate;
    hide OneShots;
    if n > 0 && Iterate(w, s).More? {
      PassGoesOn(w, plain, s);
      LoopGoesOn(w, plain, Iterate(w, s).state, n - 1);
    }
  }

  /** Some passes, and then some more. */
  lemma {:induction false} LoopTwice(w: World, s: State, m: nat, n: nat)
    ensures Loop(w, s, m).More? ==> Loop(w, s, m + n) == Loop(w, Loop(w, s, m).state, n)
    ensures Loop(w, s, m).Stop? ==> Loop(w, s, m + n) == Loop(w, s, m)
    decreases m
  {
    hide Iterate;
    if m > 0 && Iterate(w, s).More? {
      LoopTwice(w, Iterate(w, s).state, m - 1, n);
    }
  }

  // Guests that turn quiet.

  /** A call that sets no timer and hands the host nothing to wait for. */
  predicate IsQuiet(a: Action) {
    !a.SetTimer? && !(a.CallHost? && a.serializable)
  }

  ghost predicate QuietFrom(w: World, k: nat) {
    forall n :: k <= n ==> forall a :: a in w.turns(n).actions ==> IsQuiet(a)
  }

  ghost predicate Answers(w: World) {
    forall id: nat :: w.waits(id).Some?
  }

  function Measure(s: State): nat {
    |s.bindings| + Weights(s.timers, s.deadline)
  }

  /** A step that adds nothing to what the loop is waiting for. */
  predicate Calms(s: State, s': State) {
    && s'.deadline == s.deadline
    && s.turns <= s'.turns
    && Measure(s') <= Measure(s)
    && (OneShots(s.timers) ==> OneShots(s'.timers))
  }

  lemma ActionIsCalm(s: State, a: Action)
    requires IsQuiet(a)
    ensures Calms(s, Apply(s, OpOf(s, a)))
  {
    hide Without;
    if a.ClearTimer? {
      WithoutWeighsLess(s.timers, a.handle, s.deadline);
      if OneShots(s.timers) {
        WithoutOneShots(s.timers, a.handle);
      }
    }
  }

  lemma {:induction false} PlayIsCalm(s: State, actions: seq<Action>)
    requires forall a :: a in actions ==> IsQuiet(a)
    ensures Calms(s, Play(s, actions))
    decreases |actions|
  {
    hide IsQuiet;
    hide Measure;
    hide Apply;
    hide OpOf;
    hide OneShots;
    if actions != [] {
      ActionIsCalm(s, actions[0]);
      PlayIsCalm(Apply(s, OpOf(s, actions[0])), actions[1..]);
    }
  }

  lemma TurnIsCalm(w: World, s: State, k: nat)
    requires QuietFrom(w, k) && k <= s.turns
    ensures Calms(s, PlayTurn(w, s))
  {
    PlayIsCalm(s, w.turns(s.turns).actions);
  }

  lemma {:induction false} JobsAreCalm(w: World, s: State, cap: nat, k: nat)
    requires QuietFrom(w, k) && k <= s.turns
    ensures Calms(s, RunJobs(w, s, cap).0)
    decreases cap
  {
    hide PlayTurn;
    hide QuietFrom;
    hide OneShots;
    if s.jobs != [] && cap != 0 {
      if !w.unfinished(s.polls) {
        TurnIsCalm(w, Apply(s, RunJob(s.jobs[0])), k);
      }
      JobsAreCalm(w, JobStep(w, s), cap - 1, k);
    }
  }

  /** A deadline, or nothing on the list that repeats. */
  predicate IsBounded(s: State) {
    s.deadline.Some? || OneShots(s.timers)
  }

  /** Once the guest is quiet, every pass uses up some of what there is to wait for. */
  lemma PassCounts(w: World, s: State, k: nat)
    requires QuietFrom(w, k) && k <= s.turns && IsBounded(s) && Iterate(w, s).More?
    ensures Calms(s, Iterate(w, s).state) && Measure(Iterate(w, s).state) < Measure(s)
  {
    hide RunJobs;
    hide AwaitCall;
    hide AwaitTimer;
    hide PlayTurn;
    hide Settling;
    hide Firing;
    hide QuietFrom;
    hide Take;
    hide DueFirst;
    hide Weights;
    var ready := RunJobs(w, s, MAX_JOBS).0;
    JobsAreCalm(w, s, MAX_JOBS, k);
    if ready.bindings != [] {
      CallPass(w, ready);
      TurnIsCalm(w, Settling(w, ready), k);
    } else {
      TimerPass(w, ready);
      TakeWeighsLess(ready.timers, DueFirst(ready.timers), ready.deadline);
      if OneShots(ready.timers) {
        TakeOneShots(ready.timers, DueFirst(ready.timers));
      }
      TurnIsCalm(w, Firing(w, ready), k);
    }
  }

  /** A quiet guest's drain ends within as many passes as its calls and timers weigh. */
  lemma {:induction false} QuietDrainEnds(w: World, s: State, fuel: nat)
    requires QuietFrom(w, s.turns) && IsBounded(s) && Measure(s) < fuel
    ensures Loop(w, s, fuel).Stop?
    decreases fuel
  {
    hide Iterate;
    hide Measure;
    hide OneShots;
    if Iterate(w, s).More? {
      PassCounts(w, s, s.turns);
      QuietDrainEnds(w, Iterate(w, s).state, fuel - 1);
    }
  }

  /**
    Termination for a guest that sets no more timers and makes no more calls
    from turn `k` on. With a deadline that is all it takes, whatever intervals
    are running. Without one, the intervals have to be gone by some pass `n` at
    which the guest is quiet.
   */
  lemma DrainEnds(w: World, s: State, k: nat, n: nat) returns (fuel: nat)
    requires QuietFrom(w, k)
    requires s.deadline.Some? || (Loop(w, s, n).More? ==> k <= Loop(w, s, n).state.turns && OneShots(Loop(w, s, n).state.timers))
    ensures Loop(w, s, fuel).Stop?
  {
    hide Loop;
    hide OneShots;
    hide Measure;
    var m := if s.deadline.Some? then k else n;
    LoopGoesOn(w, false, s, m);
    var next := Loop(w, s, m);
    if next.Stop? {
      return m;
    }
    var more := Measure(next.state) + 1;
    LoopTwice(w, s, m, more);
    QuietDrainEnds(w, next.state, more);
    fuel := m + more;
  }

  // How a drain ends.

  lemma PassNeverTimesOut(w: World, s: State)
    requires Answers(w) && s.deadline.None?
    ensures Iterate(w, s).Stop? ==> Iterate(w, s).result.Done? || Iterate(w, s).result.MaxIterations?
  {
    hide RunJobs;
    hide DueFirst;
    hide Take;
    JobsGoOn(w, false, s, MAX_JOBS);
  }

  /** Without a deadline, and with every call answered, only the cap on jobs can make a drain fail. */
  lemma {:induction false} NoDeadlineNoTimeout(w: World, s: State, fuel: nat)
    requires Answers(w) && s.deadline.None?
    ensures Loop(w, s, fuel).Stop? ==> Loop(w, s, fuel).result.Done? || Loop(w, s, fuel).result.MaxIterations?
    decreases fuel
  {
    hide Iterate;
    hide Answers;
    hide OneShots;
    if fuel > 0 && Iterate(w, s).More? {
      PassGoesOn(w, false, s);
      NoDeadlineNoTimeout(w, Iterate(w, s).state, fuel - 1);
    } else {
      PassNeverTimesOut(w, s);
    }
  }

  /** At pass number `n`, if there is one, the jobs stay within the cap. */
  predicate JobsFit(w: World, s: State, n: nat) {
    Loop(w, s, n).More? ==> RunJobs(w, Loop(w, s, n).state, MAX_JOBS).1
  }

  /** A drain whose jobs fit at every pass does not end at the cap. */
  lemma {:induction false} CapNeedsJobs(w: World, s: State, fuel: nat)
    requires forall n :: JobsFit(w, s, n)
    ensures Loop(w, s, fuel).Stop? ==> !Loop(w, s, fuel).result.MaxIterations?
    decreases fuel
  {
    hide RunJobs;
    hide AwaitCall;
    hide AwaitTimer;
    assert JobsFit(w, s, 0);
    AwaitsEndOtherwise(w, RunJobs(w, s, MAX_JOBS).0);
    if fuel > 0 && Iterate(w, s).More? {
      forall n: nat
        ensures JobsFit(w, Iterate(w, s).state, n)
      {
        assert JobsFit(w, s, n + 1);
      }
      CapNeedsJobs(w, Iterate(w, s).state, fuel - 1);
    }
  }

  lemma AwaitsEndOtherwise(w: World, s: State)
    ensures s.bindings != [] ==> !(AwaitCall(w, s).Stop? && AwaitCall(w, s).result.MaxIterations?)
    ensures s.timers != [] ==> !(AwaitTimer(w, s).Stop? && AwaitTimer(w, s).result.MaxIterations?)
  {
    hide DueFirst;
    hide PlayTurn;
  }

  /**
    The stack of calls, whole: without a deadline, with every call answered, no
    interval, jobs within the cap, and a finite tree of calls and timers behind
    the ones there are, the drain ends well, so with nothing left.
   */
  lemma CallTreeSettles(w: World, s: State, k: nat) returns (fuel: nat)
    requires s.deadline.None? && Answers(w) && NoIntervals(w) && OneShots(s.timers) && QuietFrom(w, k)
    requires forall n :: JobsFit(w, s, n)
    ensures Loop(w, s, fuel).Stop? && Loop(w, s, fuel).result.Done?
    ensures Loop(w, s, fuel).state.bindings == [] && Loop(w, s, fuel).state.timers == [] && Loop(w, s, fuel).state.jobs == []
  {
    hide Loop;
    hide JobsFit;
    LoopGoesOn(w, true, s, k);
    fuel := DrainEnds(w, s, k, k);
    NoDeadlineNoTimeout(w, s, fuel);
    CapNeedsJobs(w, s, fuel);
    StopLeaves(w, s, fuel);
  }
}
