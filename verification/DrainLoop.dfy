/**
  The event loop as a function of what the outside does: which calls each guest
  turn makes, how long answers take, how late the clock is. Every such world is
  allowed, so the theorems are about every guest and every schedule.
 */
module DrainLoop {
  import opened EventLoop
  import opened Options

  const MAX_JOBS: nat := 10_000

  /** The number a delay converts to. */
  datatype Number = Ticks(ns: int) | NotFinite

  /** Delays below zero, and those that are no finite number, count as zero. */
  function DelayOf(n: Number): nat {
    if n.Ticks? && n.ns > 0 then n.ns else 0
  }

  /** The wait a number stands for, said the other way round. */
  predicate IsDelay(n: Number, ns: nat) {
    if n.Ticks? && n.ns > 0 then ns == n.ns else ns == 0
  }

  /** What a guest turn can do to the host; Pass is time going by. */
  datatype Action =
    | Pass(ticks: nat)
    | Queue(job: Job)
    | SetTimer(delay: Number, repeating: bool)
    | ClearTimer(handle: nat)
    | CallHost(serializable: bool)
    | Answer(dispatch: int, payload: Payload)

  datatype Turn = Turn(actions: seq<Action>, throws: bool)

  /**
    `turns` says what the n-th guest turn does, `unfinished` whether the n-th
    poll of a job finds it unfinished, `waits` how long a call takes once it is
    awaited (None: for ever), `lag` how late the n-th sleep ends.
   */
  datatype World = World(turns: nat -> Turn, unfinished: nat -> bool, waits: nat -> Option<nat>, lag: nat -> nat)

  function OpOf(s: State, a: Action): Op {
    match a
    case Pass(ticks) => Elapse(ticks)
    case Queue(job) => Enqueue(job)
    case SetTimer(delay, repeating) => Schedule(s.nextTimer, DelayOf(delay), repeating)
    case ClearTimer(handle) => Cancel(handle)
    case CallHost(serializable) => if serializable then Call(s.nextCall) else Botch(s.nextCall)
    case Answer(dispatch, payload) => Respond(dispatch, payload)
  }

  function Play(s: State, actions: seq<Action>): State
    decreases |actions|
  {
    if actions == [] then s else Play(Apply(s, OpOf(s, actions[0])), actions[1..])
  }

  /** Some actions, and then some more. */
  lemma {:induction false} PlayTwice(s: State, a: seq<Action>, b: seq<Action>)
    ensures Play(s, a + b) == Play(Play(s, a), b)
    decreases |a|
  {
    hide Apply;
    hide OpOf;
    if a == [] {
      assert a + b == b;
    } else {
      assert (a + b)[1..] == a[1..] + b;
      PlayTwice(Apply(s, OpOf(s, a[0])), a[1..], b);
    }
  }

  lemma PlayOne(s: State, a: Action)
    ensures Play(s, [a]) == Apply(s, OpOf(s, a))
  {
    hide Apply;
    hide OpOf;
    assert [a][1..] == [];
  }

  /** The turn the guest is in, from its first call to its last. */
  function PlayTurn(w: World, s: State): State {
    Play(s, w.turns(s.turns).actions)
  }

  /** One step of the plain first-in first-out queue; an empty queue stays as it is. */
  function JobStep(w: World, s: State): State {
    if s.jobs == [] then s
    else if w.unfinished(s.polls) then Apply(s, Rotate(s.jobs[0]))
    else PlayTurn(w, Apply(s, RunJob(s.jobs[0])))
  }

  /** The queue with no cap: `n` steps of it. */
  function Fifo(w: World, s: State, n: nat): State
    decreases n
  {
    if n == 0 then s else Fifo(w, JobStep(w, s), n - 1)
  }

  /** The capped queue: what is left after `cap` steps is dropped, and reported. */
  function RunJobs(w: World, s: State, cap: nat): (State, bool)
    decreases cap
  {
    if s.jobs == [] then (s, true)
    else if cap == 0 then (Apply(s, DropJobs(s.jobs)), false)
    else RunJobs(w, JobStep(w, s), cap - 1)
  }

  predicate RunsDry(w: World, s: State, n: nat) {
    Fifo(w, s, n).jobs == []
  }

  lemma {:induction false} EmptyStaysEmpty(w: World, s: State, n: nat)
    requires s.jobs == []
    ensures Fifo(w, s, n) == s
    decreases n
  {
    if n != 0 {
      EmptyStaysEmpty(w, s, n - 1);
    }
  }

  /**
    The capped queue is the uncapped one, cut: it succeeds exactly when the plain
    queue runs dry within the cap, the cap itself included, and then leaves what
    the plain queue leaves; otherwise it leaves that with the queue emptied.
   */
  lemma {:induction false} CapOnlyCuts(w: World, s: State, cap: nat)
    ensures RunJobs(w, s, cap).1 <==> exists n :: 0 <= n <= cap && RunsDry(w, s, n)
    ensures RunJobs(w, s, cap).1 ==> RunJobs(w, s, cap).0 == Fifo(w, s, cap)
    ensures !RunJobs(w, s, cap).1 ==> RunJobs(w, s, cap).0 == Fifo(w, s, cap).(jobs := [])
    ensures RunJobs(w, s, cap).0.jobs == []
    decreases cap
  {
    hide JobStep;
    if s.jobs == [] {
      EmptyStaysEmpty(w, s, cap);
      assert RunsDry(w, s, 0);
    } else if cap != 0 {
      CapOnlyCuts(w, JobStep(w, s), cap - 1);
      if RunJobs(w, s, cap).1 {
        var n :| 0 <= n <= cap - 1 && RunsDry(w, JobStep(w, s), n);
        assert RunsDry(w, s, n + 1);
      }
      if n :| 0 <= n <= cap && RunsDry(w, s, n) {
        assert RunsDry(w, JobStep(w, s), n - 1);
      }
    }
  }

  datatype Result = Done | MaxIterations | WallClock | Hung

  /** Where one pass of the drain loop leads: to another pass, or out. */
  datatype Next = More(state: State) | Stop(state: State, result: Result)

  /** The first of the timers due first. */
  function DueFirst(timers: seq<Timer>): (t: Timer)
    requires timers != []
    ensures IsLeast(timers, t)
  {
    if |timers| == 1 then timers[0]
    else
      var u := DueFirst(timers[1..]);
      assert timers == [timers[0]] + timers[1..];
      if Before(u, timers[0]) then u else timers[0]
  }

  /** How long the loop may still wait. */
  function Budget(s: State): nat {
    if s.deadline.Some? && s.now < s.deadline.value then s.deadline.value - s.now else 0
  }

  /** A queued call is taken, awaited and settled, or given up at the deadline. */
  function AwaitCall(w: World, s: State): Next
    requires s.bindings != []
  {
    var id := s.bindings[|s.bindings| - 1];
    var s' := Apply(s, Await(id));
    match w.waits(id)
    case Some(d) =>
      if s.deadline.None? || d <= Budget(s) then
        var ready := Apply(s', Elapse(d));
        More(PlayTurn(w, Apply(ready, Settle(id, id in ready.pending))))
      else
        Stop(Apply(Apply(s', Elapse(Budget(s))), Abandon(id)), WallClock)
    case None =>
      if s.deadline.None? then Stop(s', Hung)
      else Stop(Apply(Apply(s', Elapse(Budget(s))), Abandon(id)), WallClock)
  }

  /** The timer due first is taken, slept for and fired, unless it is due past the deadline. */
  function AwaitTimer(w: World, s: State): Next
    requires s.timers != []
  {
    var t := DueFirst(s.timers);
    var s' := Apply(s, TakeTimer(t));
    if s.deadline.Some? && s.deadline.value < t.at then Stop(Apply(s', ClearTimers(t)), WallClock)
    else
      var wait := if s.now <= t.at then t.at - s.now + w.lag(s.turns) else 0;
      var awake := Apply(s', Elapse(wait));
      More(PlayTurn(w, Apply(awake, Fire(t, t.handle in awake.callbacks))))
  }

  /** One pass: all jobs, then one call if any is queued, else one timer if any is set. */
  function Iterate(w: World, s: State): Next {
    var (s', ok) := RunJobs(w, s, MAX_JOBS);
    if !ok then Stop(s', MaxIterations)
    else if s'.bindings != [] then AwaitCall(w, s')
    else if s'.timers == [] then Stop(s', Done)
    else AwaitTimer(w, s')
  }

  /** The loop, for at most `fuel` passes. */
  function Loop(w: World, s: State, fuel: nat): Next
    decreases fuel
  {
    if fuel == 0 then More(s)
    else
      match Iterate(w, s)
      case Stop(s', result) => Stop(s', result)
      case More(s') => Loop(w, s', fuel - 1)
  }

  /** The answer does not depend on the fuel, once there is one. */
  lemma {:induction false} FuelOnlyDelays(w: World, s: State, fuel: nat, more: nat)
    requires fuel <= more
    ensures Loop(w, s, fuel).Stop? ==> Loop(w, s, more) == Loop(w, s, fuel)
    decreases fuel
  {
    hide Iterate;
    if fuel > 0 && Iterate(w, s).More? {
      FuelOnlyDelays(w, Iterate(w, s).state, fuel - 1, more - 1);
    }
  }

  /** What is left when the loop ends: never a job; nothing at all when it ends well. */
  lemma {:induction false} StopLeaves(w: World, s: State, fuel: nat)
    ensures Loop(w, s, fuel).Stop? ==> Loop(w, s, fuel).state.jobs == []
    ensures Loop(w, s, fuel).Stop? && Loop(w, s, fuel).result.Done?
        ==> Loop(w, s, fuel).state.bindings == [] && Loop(w, s, fuel).state.timers == []
    decreases fuel
  {
    hide Iterate;
    if fuel > 0 && Iterate(w, s).More? {
      StopLeaves(w, Iterate(w, s).state, fuel - 1);
    } else {
      PassLeaves(w, s);
    }
  }

  lemma PassLeaves(w: World, s: State)
    ensures Iterate(w, s).Stop? ==> Iterate(w, s).state.jobs == []
    ensures Iterate(w, s).Stop? && Iterate(w, s).result.Done?
        ==> Iterate(w, s).state.bindings == [] && Iterate(w, s).state.timers == []
  {
    hide RunJobs;
    hide DueFirst;
    hide Take;
    hide Fifo;
    hide RunsDry;
    hide PlayTurn;
    CapOnlyCuts(w, s, MAX_JOBS);
  }

  /**
    A timeout while awaiting a call leaves the timers and the other calls in
    place; a timeout on a timer clears the timers, and by then no call is queued.
   */
  lemma TimeoutLeaves(w: World, s: State)
    requires Iterate(w, s).Stop? && Iterate(w, s).result.WallClock?
    ensures var ready := RunJobs(w, s, MAX_JOBS).0;
            if ready.bindings != [] then
              && Iterate(w, s).state.timers == ready.timers
              && Iterate(w, s).state.bindings == ready.bindings[..|ready.bindings| - 1]
            else
              Iterate(w, s).state.timers == [] && Iterate(w, s).state.bindings == []
  {
    hide RunJobs;
    hide DueFirst;
    hide Take;
    hide PlayTurn;
  }

  function DeadlineOf(wallClock: Option<nat>, now: nat): Option<nat> {
    if wallClock.Some? then Some(now + wallClock.value) else None
  }

  /** Scripts as a function of the world, and whether one of them threw. */
  function Evaluated(w: World, s: State, scripts: nat): (State, bool)
    decreases scripts
  {
    if scripts == 0 then (s, false)
    else
      var begun := Apply(s, Script);
      if w.turns(begun.turns).throws then (PlayTurn(w, begun), true)
      else Evaluated(w, PlayTurn(w, begun), scripts - 1)
  }

  /** A whole drain, for at most `fuel` passes. */
  function Drained(w: World, wallClock: Option<nat>, s: State, fuel: nat): Next {
    Loop(w, Apply(s, BeginDrain(DeadlineOf(wallClock, s.now))), fuel)
  }
}
