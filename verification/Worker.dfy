/**
  The worker itself: the fields of the host slots and of the guest glue, and the
  methods of src/worker.rs, src/bootstrap.js and src/bindings.js that change
  them. Every method keeps Valid: the fields are what the log of everything
  done so far leads to, and that log is legal. So every theorem about legal
  logs is a theorem about this class.
 */
module Workers {
  import opened Sequences
  import opened EventLoop
  import opened Options
  import opened DrainLoop
  import opened TimerTheorems
  import opened CallTheorems
  import opened DispatchTheorems

  datatype Reason = Aborted | InitializationError(message: string) | Exception(message: string) | Other | MaxIterationsReached | WallClockTimeout

  /** What exec answers; Pending is a drain still going on. */
  datatype Reply = Ok(text: string) | Err(reason: Reason) | Pending

  /** A fetch or a task; `taken` when its init is gone already, `streaming` when its body is a stream. */
  datatype Event = Fetch(taken: bool, streaming: bool) | Task(taken: bool)

  /** What build answers; Loading is a drain still going on. */
  datatype LoadResult = Loaded | Failed(reason: Reason) | Loading

  const UNSETTLED := Err(Exception("unsettled"))

  function ReasonOf(result: Result): Reply {
    match result
    case MaxIterations => Err(MaxIterationsReached)
    case WallClock => Err(WallClockTimeout)
    case _ => Pending
  }

  /** A drain as the caller of build sees it. */
  function LoadResultOf(drained: Option<Result>): LoadResult {
    match drained
    case Some(Done) => Loaded
    case Some(MaxIterations) => Failed(MaxIterationsReached)
    case Some(WallClock) => Failed(WallClockTimeout)
    case _ => Loading
  }

  /** An outcome as the caller sees it. */
  function ReplyOf(outcome: Option<Payload>): Reply {
    match outcome
    case None => UNSETTLED
    case Some(Value(text)) => Ok(text)
    case Some(Error(message)) => Err(Exception(message))
    case Some(Garbage) => Err(Other)
  }

  /** Where a pass, or a whole loop, has led: `r` is None while it goes on. */
  predicate Reached(next: Next, s: State, r: Option<Result>) {
    match next
    case More(s') => s == s' && r.None?
    case Stop(s', result) => s == s' && r == Some(result)
  }

  class Worker {
    const world: World
    const wallClock: Option<nat>
    // host slots
    var jobs: seq<Job>
    var timers: seq<Timer>
    var timerSeq: nat
    var bindings: seq<nat>
    var dispatch: int
    var outcome: Option<Payload>
    var dispatches: nat
    var aborted: bool
    // guest glue
    var callbacks: map<nat, bool>
    var nextTimer: nat
    var pending: set<nat>
    var nextCall: nat
    // the world: the clock, the drain under way, and how often the guest was asked
    var now: nat
    var deadline: Option<nat>
    var flight: Flight
    var turns: nat
    var polls: nat
    ghost const start: nat
    ghost var log: seq<Op>

    ghost function View(): State
      reads this
    {
      State(jobs, timers, timerSeq, bindings, dispatch, outcome, dispatches,
            callbacks, nextTimer, pending, nextCall, now, deadline, flight, turns, polls)
    }

    ghost predicate Valid()
      reads this
    {
      && Legal(Init(start), log)
      && View() == Run(Init(start), log)
      && (wallClock.None? ==> Unbounded(log))
    }

    constructor (world: World, wallClock: Option<nat>, now: nat)
      ensures Valid() && View() == Init(now) && log == [] && !aborted
      ensures this.world == world && this.wallClock == wallClock
    {
      this.world := world;
      this.wallClock := wallClock;
      jobs, timers, timerSeq, bindings, dispatch, outcome, dispatches := [], [], 0, [], 0, None, 0;
      aborted := false;
      callbacks, nextTimer, pending, nextCall := map[], 1, {}, 1;
      this.now, deadline, flight, turns, polls := now, None, Grounded, 0, 0;
      start := now;
      log := [];
    }

    /** One step was taken, it was possible, and nothing else happened. */
    twostate predicate Did(op: Op)
      reads this
    {
      Valid() && View() == Apply(old(View()), op) && log == old(log) + [op]
    }

    /** The fields are already those after `op`: write it down. */
    ghost method Note(before: State, op: Op)
      requires Legal(Init(start), log) && before == Run(Init(start), log)
      requires wallClock.None? ==> Unbounded(log) && (op.BeginDrain? ==> op.deadline.None?)
      requires Enabled(before, op) && View() == Apply(before, op)
      modifies this`log
      ensures Valid() && log == old(log) + [op]
    {
      hide Enabled;
      hide Apply;
      LogStep(Init(start), log, op);
      log := log + [op];
    }

    /** HostHooks: every kind of job goes to the back of one queue. */
    method Enqueue(job: Job)
      requires Valid() && flight.Grounded?
      modifies this
      ensures unchanged(this`dispatches, this`aborted)
      ensures Did(Op.Enqueue(job))
    {
      hide Legal;
      hide Run;
      ghost var before := View();
      jobs := jobs + [job];
      Note(before, Op.Enqueue(job));
    }

    method Elapse(ticks: nat)
      requires Valid()
      modifies this
      ensures unchanged(this`dispatches, this`aborted, this`deadline, this`flight, this`pending, this`callbacks, this`turns)
      ensures Did(Op.Elapse(ticks)) && now == old(now) + ticks
    {
      hide Legal;
      hide Run;
      ghost var before := View();
      now := now + ticks;
      Note(before, Op.Elapse(ticks));
    }

    method NativeTimerStart(handle: nat, delay: Number, repeating: bool)
      modifies this`timers, this`timerSeq
      ensures timerSeq == old(timerSeq) + 1
      ensures forall ns :: IsDelay(delay, ns)
                ==> timers == old(timers) + [Timer(handle, now + ns, if repeating then Some(ns) else None, old(timerSeq))]
    {
      var ticks := if delay.Ticks? && delay.ns > 0 then delay.ns else 0;
      var order := timerSeq;

      timerSeq := order + 1;
      timers := timers + [Timer(handle, now + ticks, if repeating then Some(ticks) else None, order)];
    }

    /** setTimeout and setInterval. */
    method Schedule(delay: Number, repeating: bool) returns (handle: nat)
      requires Valid() && flight.Grounded?
      modifies this
      ensures unchanged(this`dispatches, this`aborted)
      ensures handle == old(nextTimer) && Did(Op.Schedule(handle, DelayOf(delay), repeating))
    {
      hide Legal;
      hide Run;
      hide Enabled;
      hide Apply;
      ghost var before := View();
      ScheduleSays(before, DelayOf(delay), repeating);
      handle := nextTimer;
      nextTimer := nextTimer + 1;
      callbacks := callbacks[handle := repeating];
      NativeTimerStart(handle, delay, repeating);
      assert IsDelay(delay, DelayOf(delay));
      Note(before, Op.Schedule(handle, DelayOf(delay), repeating));
    }

    /** clearTimeout and clearInterval. */
    method Cancel(handle: nat)
      requires Valid() && flight.Grounded?
      modifies this
      ensures unchanged(this`dispatches, this`aborted)
      ensures Did(Op.Cancel(handle))
    {
      hide Legal;
      hide Run;
      ghost var before := View();
      callbacks := callbacks - {handle};
      timers := Without(timers, handle);
      Note(before, Op.Cancel(handle));
    }

    /** A binding call; parameters that cannot be serialized throw after the promise is registered. */
    method CallHost(serializable: bool)
      requires Valid() && flight.Grounded?
      modifies this
      ensures unchanged(this`dispatches, this`aborted)
      ensures Did(if serializable then Op.Call(old(nextCall)) else Op.Botch(old(nextCall)))
    {
      hide Legal;
      hide Run;
      ghost var before := View();
      var id := nextCall;
      nextCall := nextCall + 1;
      pending := pending + {id};

      if serializable {
        bindings := bindings + [id];
        Note(before, Op.Call(id));
      } else {
        Note(before, Op.Botch(id));
      }
    }

    /** __ow_native_respond: kept only when the id is that of the dispatch under way. */
    method Respond(id: int, payload: Payload)
      requires Valid() && flight.Grounded?
      modifies this
      ensures unchanged(this`dispatches, this`aborted)
      ensures Did(Op.Respond(id, payload))
    {
      hide Legal;
      hide Run;
      ghost var before := View();

      if id == dispatch {
        outcome := Some(payload);
      }

      Note(before, Op.Respond(id, payload));
    }

    method Act(a: Action)
      requires Valid() && flight.Grounded?
      modifies this
      ensures unchanged(this`dispatches, this`aborted)
      ensures Did(OpOf(old(View()), a)) && IsCalm(log)
    {
      hide Apply;
      hide Legal;
      hide Run;
      hide Unbounded;
      match a {
        case Pass(ticks) => Elapse(ticks);
        case Queue(job) => Enqueue(job);
        case SetTimer(delay, repeating) => var _ := Schedule(delay, repeating);
        case ClearTimer(handle) => Cancel(handle);
        case CallHost(serializable) => CallHost(serializable);
        case Answer(id, payload) => Respond(id, payload);
      }
    }

    /** The guest runs until it returns or throws. */
    method RunTurn() returns (threw: bool)
      requires Valid() && flight.Grounded?
      modifies this
      ensures unchanged(this`dispatches, this`aborted)
      ensures Valid() && View() == PlayTurn(world, old(View())) && old(log) <= log
      ensures flight.Grounded? && threw == world.turns(old(turns)).throws
      ensures IsCalm(old(log)) ==> IsCalm(log)
    {
      hide Apply;
      hide Valid;
      var turn := world.turns(turns);
      var i := 0;
      assert turn.actions[0..] == turn.actions;

      while i < |turn.actions|
        invariant 0 <= i <= |turn.actions| && Valid() && flight.Grounded? && old(log) <= log
        invariant unchanged(this`dispatches, this`aborted)
        invariant Play(View(), turn.actions[i..]) == Play(old(View()), turn.actions)
        invariant IsCalm(old(log)) ==> IsCalm(log)
      {
        ghost var before := View();
        ActionsAreGrounded(before, turn.actions[i]);
        assert turn.actions[i..][1..] == turn.actions[i + 1..];
        Act(turn.actions[i]);
        i := i + 1;
      }

      threw := turn.throws;
    }

    /** Runs jobs until none is left, or until the cap. */
    method DrainJobs() returns (ok: bool)
      requires Valid() && flight.Grounded?
      modifies this
      ensures unchanged(this`dispatches, this`aborted)
      ensures Valid() && flight.Grounded? && old(log) <= log
      ensures (View(), ok) == RunJobs(world, old(View()), MAX_JOBS)
      ensures if ok then IsCalm(old(log)) ==> IsCalm(log) else log != [] && Last(log).DropJobs?
    {
      hide Apply;
      hide PlayTurn;
      hide Valid;
      var i := 0;

      while i < MAX_JOBS
        invariant 0 <= i <= MAX_JOBS && Valid() && flight.Grounded? && old(log) <= log
        invariant unchanged(this`dispatches, this`aborted)
        invariant RunJobs(world, View(), MAX_JOBS - i) == RunJobs(world, old(View()), MAX_JOBS)
        invariant IsCalm(old(log)) ==> IsCalm(log)
      {
        if jobs == [] {
          return true;
        }

        StepJob();
        i := i + 1;
      }

      // The cap was reached, but by the last job there was.
      if jobs == [] {
        return true;
      }

      Clear();
      ok := false;
    }

    /** One job from the front of the queue; an unfinished one goes to the back instead of running. */
    method StepJob()
      requires Valid() && flight.Grounded? && jobs != []
      modifies this
      ensures unchanged(this`dispatches, this`aborted)
      ensures Valid() && flight.Grounded? && old(log) <= log
      ensures View() == JobStep(world, old(View())) && IsCalm(log)
    {
      hide PlayTurn;
      hide Valid;
      hide Apply;
      var finished := TakeJob();

      if finished {
        // Whether the job threw makes no difference here.
        var _ := RunTurn();
      }
    }

    method TakeJob() returns (finished: bool)
      requires Valid() && flight.Grounded? && jobs != []
      modifies this
      ensures unchanged(this`dispatches, this`aborted) && flight.Grounded?
      ensures finished == !world.unfinished(old(polls))
      ensures Did(if finished then RunJob(old(jobs)[0]) else Rotate(old(jobs)[0]))
    {
      hide Legal;
      hide Run;
      hide Enabled;
      hide Apply;
      ghost var before := View();
      TakeJobSays(before);
      var job := jobs[0];
      jobs := jobs[1..];
      finished := !world.unfinished(polls);
      polls := polls + 1;

      if finished {
        turns := turns + 1;
        Note(before, RunJob(job));
      } else {
        jobs := jobs + [job];
        Note(before, Rotate(job));
      }
    }

    /** What the cap left over is thrown away. */
    method Clear()
      requires Valid() && flight.Grounded?
      modifies this
      ensures unchanged(this`dispatches, this`aborted)
      ensures Did(DropJobs(old(jobs))) && flight.Grounded?
    {
      hide Legal;
      hide Run;
      ghost var before := View();
      jobs := [];
      Note(before, DropJobs(before.jobs));
    }

    /** The index of the timer due first; of two due at once, of the one set first. */
    method FirstDue() returns (index: nat)
      requires timers != []
      ensures index < |timers|
      ensures forall k :: 0 <= k < |timers| ==> !Before(timers[k], timers[index])
      ensures forall k :: 0 <= k < index ==> Before(timers[index], timers[k])
    {
      index := 0;

      for i := 1 to |timers|
        invariant 0 <= index < i
        invariant forall k :: 0 <= k < i ==> !Before(timers[k], timers[index])
        invariant forall k :: 0 <= k < index ==> Before(timers[index], timers[k])
      {
        if Before(timers[i], timers[index]) {
          index := i;
        }
      }
    }

    /** Takes the timer due first. An interval is back on the list before its callback runs, which can clear it. */
    method NextTimer() returns (t: Timer)
      requires Valid() && flight.Grounded? && jobs == [] && bindings == [] && timers != []
      modifies this
      ensures unchanged(this`dispatches, this`aborted, this`deadline, this`now, this`callbacks, this`turns)
      ensures t == DueFirst(old(timers)) && Did(TakeTimer(t)) && flight == Sleeping(t)
    {
      hide Legal;
      hide Run;
      hide Take;
      hide DueFirst;
      hide Before;
      ghost var before := View();
      var index := FirstDue();
      t := timers[index];
      DueFirstIsFirst(timers, index);
      TakeAt(timers, index);

      match t.period {
        case Some(_) => timers := timers[index := Rearmed(t)];
        case None => timers := timers[..index] + timers[index + 1..];
      }

      flight := Sleeping(t);
      NoteTaken(before, t);
    }

    ghost method NoteTaken(before: State, t: Timer)
      requires Legal(Init(start), log) && before == Run(Init(start), log)
      requires wallClock.None? ==> Unbounded(log)
      requires before.flight.Grounded? && before.jobs == [] && before.bindings == [] && IsLeast(before.timers, t)
      requires View() == before.(timers := Take(before.timers, t), flight := Sleeping(t))
      modifies this`log
      ensures Valid() && log == old(log) + [TakeTimer(t)] && View() == Apply(before, TakeTimer(t))
    {
      Note(before, TakeTimer(t));
    }

    /** __ow_run_timer. */
    method FireTimer(t: Timer)
      requires Valid() && flight == Sleeping(t) && t.at <= now
      requires deadline.Some? ==> t.at <= deadline.value
      modifies this
      ensures unchanged(this`dispatches, this`aborted)
      ensures Valid() && flight.Grounded? && old(log) <= log
      ensures View() == PlayTurn(world, Apply(old(View()), Fire(t, t.handle in old(callbacks)))) && IsCalm(log)
    {
      hide PlayTurn;
      hide Valid;
      hide Apply;
      var _ := TakeCallback(t);
      var _ := RunTurn();
    }

    /** A one-shot's callback is dropped before it runs. */
    method TakeCallback(t: Timer) returns (found: bool)
      requires Valid() && flight == Sleeping(t) && t.at <= now
      requires deadline.Some? ==> t.at <= deadline.value
      modifies this
      ensures unchanged(this`dispatches, this`aborted) && flight.Grounded?
      ensures found == (t.handle in old(callbacks)) && Did(Fire(t, found))
    {
      hide Legal;
      hide Run;
      hide Enabled;
      hide Apply;
      ghost var before := View();
      FireSays(before, t);
      found := t.handle in callbacks;

      if found && !callbacks[t.handle] {
        callbacks := callbacks - {t.handle};
      }

      flight := Grounded;
      turns := turns + 1;
      Note(before, Fire(t, found));
    }

    /** __ow_settle_binding. */
    method SettleBinding(id: nat)
      requires Valid() && flight == Awaiting(id)
      modifies this
      ensures unchanged(this`dispatches, this`aborted)
      ensures Valid() && flight.Grounded? && old(log) <= log
      ensures View() == PlayTurn(world, Apply(old(View()), Settle(id, id in old(pending)))) && IsCalm(log)
    {
      hide PlayTurn;
      hide Valid;
      hide Apply;
      var _ := TakeEntry(id);
      var _ := RunTurn();
    }

    /** The entry goes, and its promise is settled. */
    method TakeEntry(id: nat) returns (found: bool)
      requires Valid() && flight == Awaiting(id)
      modifies this
      ensures unchanged(this`dispatches, this`aborted) && flight.Grounded?
      ensures found == (id in old(pending)) && Did(Settle(id, found))
    {
      hide Legal;
      hide Run;
      ghost var before := View();
      found := id in pending;
      pending := pending - {id};
      flight := Grounded;
      turns := turns + 1;
      Note(before, Settle(id, found));
    }

    method GiveUpCall(id: nat)
      requires Valid() && flight == Awaiting(id) && deadline.Some? && deadline.value <= now
      modifies this
      ensures unchanged(this`dispatches, this`aborted)
      ensures Did(Abandon(id)) && flight.Grounded?
    {
      hide Legal;
      hide Run;
      ghost var before := View();
      flight := Grounded;
      Note(before, Abandon(id));
    }

    method TakeCall() returns (id: nat)
      requires Valid() && flight.Grounded? && jobs == [] && bindings != []
      modifies this
      ensures unchanged(this`dispatches, this`aborted, this`deadline, this`now, this`pending)
      ensures id == old(bindings)[|old(bindings)| - 1] && Did(Await(id)) && flight == Awaiting(id)
    {
      hide Legal;
      hide Run;
      ghost var before := View();
      id := bindings[|bindings| - 1];
      bindings := bindings[..|bindings| - 1];
      flight := Awaiting(id);
      Note(before, Await(id));
    }

    /** The call queued last is awaited, within what is left of the budget. */
    method PassCall() returns (r: Option<Result>)
      requires Valid() && flight.Grounded? && jobs == [] && bindings != []
      modifies this
      ensures unchanged(this`dispatches, this`aborted)
      ensures Valid() && old(log) <= log && (r != Some(Hung) ==> flight.Grounded?)
      ensures Reached(AwaitCall(world, old(View())), View(), r) && EndsAs(log, r)
    {
      hide PlayTurn;
      hide Valid;
      hide Apply;
      var budget := if deadline.Some? && now < deadline.value then deadline.value - now else 0;
      var id := TakeCall();

      match world.waits(id) {
        case Some(d) =>
          if deadline.None? || d <= budget {
            Elapse(d);
            SettleBinding(id);
            return None;
          }

        case None =>
          if deadline.None? {
            return Some(Hung);
          }
      }

      Elapse(budget);
      GiveUpCall(id);
      return Some(WallClock);
    }

    method DropTimers(t: Timer)
      requires Valid() && flight == Sleeping(t) && deadline.Some? && deadline.value < t.at
      modifies this
      ensures unchanged(this`dispatches, this`aborted)
      ensures Did(ClearTimers(t)) && flight.Grounded?
    {
      hide Legal;
      hide Run;
      ghost var before := View();
      timers := [];
      flight := Grounded;
      Note(before, ClearTimers(t));
    }

    /** The timer due first is slept for, and fired. */
    method PassTimer() returns (r: Option<Result>)
      requires Valid() && flight.Grounded? && jobs == [] && bindings == [] && timers != []
      modifies this
      ensures unchanged(this`dispatches, this`aborted)
      ensures Valid() && old(log) <= log && flight.Grounded?
      ensures Reached(AwaitTimer(world, old(View())), View(), r) && EndsAs(log, r)
    {
      hide PlayTurn;
      hide Valid;
      hide Apply;
      hide DueFirst;
      var t := NextTimer();

      if deadline.Some? && deadline.value < t.at {
        DropTimers(t);
        return Some(WallClock);
      }

      Elapse(if now <= t.at then t.at - now + world.lag(turns) else 0);
      FireTimer(t);
      return None;
    }

    method SetDeadline()
      requires Valid() && flight.Grounded?
      modifies this
      ensures unchanged(this`dispatches, this`aborted)
      ensures Did(BeginDrain(DeadlineOf(wallClock, old(now)))) && flight.Grounded?
    {
      hide Legal;
      hide Run;
      ghost var before := View();
      deadline := if wallClock.Some? then Some(now + wallClock.value) else None;
      Note(before, BeginDrain(deadline));
    }

    /** One pass of the drain loop. */
    method Pass() returns (r: Option<Result>)
      requires Valid() && flight.Grounded?
      modifies this
      ensures unchanged(this`dispatches, this`aborted)
      ensures Valid() && old(log) <= log && (r != Some(Hung) ==> flight.Grounded?)
      ensures Reached(Iterate(world, old(View())), View(), r)
      ensures old(log) != [] && IsCalm(old(log)) ==> EndsAs(log, r)
    {
      hide Valid;
      hide RunJobs;
      hide AwaitCall;
      hide AwaitTimer;
      var ok := DrainJobs();
      CapOnlyCuts(world, old(View()), MAX_JOBS);

      if !ok {
        return Some(MaxIterations);
      }

      // Calls go first; a timer has to wait until none is queued.
      if bindings != [] {
        r := PassCall();
      } else if timers == [] {
        r := Some(Done);
      } else {
        r := PassTimer();
      }
    }

    /** Passes, up to `fuel` of them, until one ends the drain. */
    method Drain(fuel: nat) returns (r: Option<Result>)
      requires Valid() && flight.Grounded?
      modifies this
      ensures unchanged(this`dispatches, this`aborted)
      ensures Valid() && old(log) <= log && (r != Some(Hung) ==> flight.Grounded?)
      ensures Reached(Drained(world, wallClock, old(View()), fuel), View(), r) && EndsAs(log, r)
      ensures r.Some? ==> jobs == []
      ensures r == Some(Done) ==> bindings == [] && timers == []
      ensures r == Some(Done) && wallClock.None? ==> Settled(log) == Handed(log)
      ensures r == Some(Done) ==> forall i :: 0 <= i < |log| && log[i].Schedule? ==> HasEnded(log, i)
    {
      hide Valid;
      hide Apply;
      hide Iterate;
      SetDeadline();
      ghost var begun := View();
      var i := 0;

      while i < fuel
        invariant 0 <= i <= fuel && Valid() && flight.Grounded? && old(log) <= log
        invariant unchanged(this`dispatches, this`aborted)
        invariant Loop(world, View(), fuel - i) == Loop(world, begun, fuel)
        invariant log != [] && IsCalm(log)
      {
        r := Pass();

        if r.Some? {
          StopLeaves(world, begun, fuel);
          AllCallsSettled();
          AllTimersEnded();
          return r;
        }

        i := i + 1;
      }

      r := None;
    }

    /** Without a wall clock, a worker with no call left has settled every call it was handed. */
    lemma AllCallsSettled()
      requires Valid()
      ensures wallClock.None? && bindings == [] && flight.Grounded? ==> Settled(log) == Handed(log)
    {
      if wallClock.None? && bindings == [] && flight.Grounded? {
        EveryCallIsSettled(start, log);
      }
    }

    lemma AllTimersEnded()
      requires Valid()
      ensures timers == [] && flight.Grounded? ==> forall i :: 0 <= i < |log| && log[i].Schedule? ==> HasEnded(log, i)
    {
      if timers == [] && flight.Grounded? {
        NoTimerIsForgotten(start, log);
      }
    }

    method NextScript()
      requires Valid() && flight.Grounded?
      modifies this
      ensures unchanged(this`dispatches, this`aborted) && flight.Grounded? && Did(Script)
    {
      hide Legal;
      hide Run;
      ghost var before := View();
      turns := turns + 1;
      Note(before, Script);
    }

    /** What `build` does with its scripts: each in a turn of its own, up to the first that throws. */
    method Evaluate(scripts: nat) returns (threw: bool)
      requires Valid() && flight.Grounded?
      modifies this
      ensures unchanged(this`dispatches, this`aborted)
      ensures Valid() && flight.Grounded? && old(log) <= log
      ensures (View(), threw) == Evaluated(world, old(View()), scripts)
      ensures IsCalm(old(log)) ==> IsCalm(log)
    {
      hide Valid;
      hide Apply;
      hide PlayTurn;
      var i := 0;

      while i < scripts
        invariant 0 <= i <= scripts && Valid() && flight.Grounded? && old(log) <= log
        invariant unchanged(this`dispatches, this`aborted)
        invariant Evaluated(world, View(), scripts - i) == Evaluated(world, old(View()), scripts)
        invariant IsCalm(old(log)) ==> IsCalm(log)
      {
        ghost var before := View();
        ScriptPlaysATurn(before);
        NextScript();
        threw := RunTurn();

        if threw {
          return true;
        }

        i := i + 1;
      }

      threw := false;
    }

    /** What `build` does: the runtime's own scripts, the guest's, and a drain of what they started. */
    method Load(platform: nat, fuel: nat) returns (r: LoadResult)
      requires Valid() && flight.Grounded?
      modifies this
      ensures Valid() && old(log) <= log
      ensures (View(), r) == Built(world, wallClock, old(View()), platform, fuel)
      ensures IsCalm(old(log)) ==> LoadFits(log, r)
      ensures r.Loaded? ==> flight.Grounded? && jobs == [] && bindings == [] && timers == []
    {
      hide Valid;
      hide Apply;
      hide Drained;
      hide Evaluated;
      var threw := Evaluate(platform);

      if threw {
        return Failed(InitializationError("a script of the runtime threw"));
      }

      threw := Evaluate(1);

      if threw {
        return Failed(Exception("the script threw"));
      }

      var drained := Drain(fuel);
      r := LoadResultOf(drained);
    }

    /** A fresh id, an empty slot, and the dispatcher's turn. */
    method Begin() returns (threw: bool)
      requires Valid() && flight.Grounded?
      modifies this
      ensures Valid() && flight.Grounded? && old(log) <= log && dispatches == old(dispatches) + 1
      ensures View() == PlayTurn(world, Apply(old(View()), Op.Dispatch(old(dispatches) + 1)))
      ensures threw == world.turns(old(turns) + 1).throws && aborted == old(aborted)
      ensures log != [] && IsCalm(log)
    {
      hide PlayTurn;
      hide Valid;
      hide Apply;
      DispatchPlaysATurn(View());
      NextDispatch();
      threw := RunTurn();
    }

    method NextDispatch()
      requires Valid() && flight.Grounded?
      modifies this
      ensures unchanged(this`aborted) && flight.Grounded? && dispatches == old(dispatches) + 1
      ensures Did(Op.Dispatch(dispatches))
    {
      hide Legal;
      hide Run;
      hide Enabled;
      hide Apply;
      ghost var before := View();
      DispatchPlaysATurn(before);
      dispatches := dispatches + 1;
      dispatch := dispatches;
      outcome := None;
      turns := turns + 1;
      Note(before, Op.Dispatch(dispatches));
    }

    method TakeOutcome() returns (taken: Option<Payload>)
      requires Valid() && flight.Grounded?
      modifies this
      ensures unchanged(this`dispatches, this`aborted, this`jobs, this`bindings, this`timers, this`flight)
      ensures taken == old(outcome) && Did(Op.TakeOutcome(taken))
    {
      hide Legal;
      hide Run;
      ghost var before := View();
      taken := outcome;
      outcome := None;
      Note(before, Op.TakeOutcome(taken));
    }

    /** One event, from its dispatch to its answer. */
    method Serve(fuel: nat) returns (reply: Reply)
      requires Valid() && flight.Grounded?
      modifies this
      ensures Valid() && old(log) <= log && aborted == old(aborted) && dispatches == old(dispatches) + 1
      ensures (View(), reply) == Served(world, wallClock, old(View()), fuel)
      ensures !reply.Pending? ==> flight.Grounded?
      ensures reply.Ok? ==> jobs == [] && bindings == [] && timers == []
      ensures reply.Ok? ==> IsAnswered(log, dispatches, Value(reply.text))
      ensures ReplyFits(log, reply)
    {
      hide Valid;
      hide Apply;
      hide Loop;
      hide PlayTurn;
      hide IsReply;
      hide Drained;
      DispatchTakesATurn(View());
      var threw := Begin();

      if threw {
        return Err(Exception("the dispatcher threw"));
      }

      var r := Drain(fuel);

      if r == Some(Done) {
        ghost var past := log;
        var taken := TakeOutcome();
        OutcomeOfCurrent(past, taken);
        ReplyOfIsReply(taken);
        return ReplyOf(taken);
      }

      return if r.None? then Pending else ReasonOf(r.value);
    }

    lemma OutcomeOfCurrent(past: seq<Op>, taken: Option<Payload>)
      requires Valid() && log == past + [Op.TakeOutcome(taken)]
      ensures dispatches == Current(past) && taken == LastAnswer(past, dispatches)
    {
      hide Apply;
      LogStep(Init(start), past, Op.TakeOutcome(taken));
      OutcomeIsLastAnswer(start, past);
      OutcomeIsLastAnswer(start, log);
      assert Past(log) == past && Last(log) == Op.TakeOutcome(taken);
    }

    /**
      exec: refused once aborted, when the event is gone, or when its body is a
      stream. A fetch is answered only when it went well; a task always is.
     */
    method Exec(event: Event, fuel: nat) returns (reply: Reply, sent: Option<Reply>)
      requires Valid() && flight.Grounded?
      modifies this
      ensures Valid() && old(log) <= log && aborted == old(aborted)
      ensures aborted ==> reply == Err(Aborted)
      ensures !aborted && IsRefused(event) ==> reply == Err(Other)
      ensures IsRefused(event) <==> match event case Fetch(taken, streaming) => taken || streaming case Task(taken) => taken
      ensures aborted || IsRefused(event)
          ==> View() == old(View()) && log == old(log) && sent.None?
      ensures !aborted && !IsRefused(event)
          ==> && (View(), reply) == Served(world, wallClock, old(View()), fuel)
              && dispatches == old(dispatches) + 1
              && sent == (if reply.Pending? || (event.Fetch? && !reply.Ok?) then None else Some(reply))
              && ReplyFits(log, reply)
      ensures reply.Ok? ==> IsAnswered(log, dispatches, Value(reply.text))
    {
      hide Valid;
      hide Served;

      if aborted {
        return Err(Aborted), None;
      }

      match event {
        case Fetch(taken, streaming) =>
          if taken || streaming {
            return Err(Other), None;
          }

          reply := Serve(fuel);
          sent := if reply.Ok? then Some(reply) else None;

        case Task(taken) =>
          if taken {
            return Err(Other), None;
          }

          reply := Serve(fuel);
          sent := if reply.Pending? then None else Some(reply);
      }
    }

    /** What runs already is left running; the flag is read by the next exec. */
    method Abort()
      requires Valid()
      modifies this`aborted
      ensures aborted && Valid() && View() == old(View()) && log == old(log)
    {
      aborted := true;
    }
  }

  predicate IsRefused(event: Event) {
    event.taken || (event.Fetch? && event.streaming)
  }

  /** A last step of a drain that fails or hangs, or of an event that is answered; no turn ends in one. */
  predicate IsStop(op: Op) {
    op.DropJobs? || op.Abandon? || op.ClearTimers? || op.Await? || op.TakeOutcome?
  }

  predicate IsCalm(log: seq<Op>) {
    log == [] || !IsStop(Last(log))
  }

  /** Why a drain has ended, off the last step taken: each reason has steps of its own. */
  predicate EndsAs(log: seq<Op>, r: Option<Result>) {
    && log != []
    && match r
       case None => !IsStop(Last(log))
       case Some(Done) => !IsStop(Last(log))
       case Some(MaxIterations) => Last(log).DropJobs?
       case Some(WallClock) => Last(log).Abandon? || Last(log).ClearTimers?
       case Some(Hung) => Last(log).Await?
  }

  /** The reply to an event, off the last step taken for it. */
  ghost predicate ReplyFits(log: seq<Op>, reply: Reply) {
    && log != []
    && match Last(log)
       case TakeOutcome(outcome) => IsReply(reply, outcome)
       case Abandon(_) => reply == Err(WallClockTimeout)
       case ClearTimers(_) => reply == Err(WallClockTimeout)
       case DropJobs(_) => reply == Err(MaxIterationsReached)
       case Await(_) => reply.Pending?
       case _ => reply.Pending? || (reply.Err? && reply.reason.Exception?)
  }

  /** The same for a load. */
  predicate LoadFits(log: seq<Op>, r: LoadResult) {
    && (r == Failed(WallClockTimeout) <==> log != [] && (Last(log).Abandon? || Last(log).ClearTimers?))
    && (r == Failed(MaxIterationsReached) <==> log != [] && Last(log).DropJobs?)
    && (log != [] && Last(log).Await? ==> r.Loading?)
  }

  /** What the guest said, if anything, as the caller has to see it. */
  ghost predicate IsReply(reply: Reply, said: Option<Payload>) {
    && (forall text :: reply == Ok(text) <==> said == Some(Value(text)))
    && (forall message :: said == Some(Error(message)) ==> reply == Err(Exception(message)))
    && (reply == Err(Other) <==> said == Some(Garbage))
    && (said.None? ==> reply.Err? && reply.reason.Exception?)
    && !reply.Pending?
  }

  /** The log ends with the outcome of dispatch `n` being taken: the last answer given with that id while it ran. */
  predicate IsAnswered(log: seq<Op>, n: int, payload: Payload) {
    && log != []
    && Last(log) == Op.TakeOutcome(Some(payload))
    && Current(Past(log)) == n
    && LastAnswer(Past(log), n) == Some(payload)
  }

  /** A load as a function of the world. */
  function Built(w: World, wallClock: Option<nat>, s: State, platform: nat, fuel: nat): (State, LoadResult) {
    var (ready, bad) := Evaluated(w, s, platform);
    if bad then (ready, Failed(InitializationError("a script of the runtime threw")))
    else
      var (loaded, threw) := Evaluated(w, ready, 1);
      if threw then (loaded, Failed(Exception("the script threw")))
      else
        match Drained(w, wallClock, loaded, fuel)
        case More(s') => (s', Loading)
        case Stop(s', result) => (s', LoadResultOf(Some(result)))
  }

  /** One event as a function of the world: dispatch, drain, and the outcome. */
  function Served(w: World, wallClock: Option<nat>, s: State, fuel: nat): (State, Reply) {
    var begun := Apply(s, Op.Dispatch(s.dispatches + 1));
    var played := PlayTurn(w, begun);
    if w.turns(begun.turns).throws then (played, Err(Exception("the dispatcher threw")))
    else
      match Drained(w, wallClock, played, fuel)
      case More(s') => (s', Pending)
      case Stop(s', Done) => (Apply(s', Op.TakeOutcome(s'.outcome)), ReplyOf(s'.outcome))
      case Stop(s', result) => (s', ReasonOf(result))
  }

  lemma ScriptPlaysATurn(s: State)
    ensures Apply(s, Script).turns == s.turns + 1
  {
  }

  lemma DispatchPlaysATurn(s: State)
    ensures s.flight.Grounded? ==> Enabled(s, Op.Dispatch(s.dispatches + 1))
    ensures Apply(s, Op.Dispatch(s.dispatches + 1))
         == s.(dispatches := s.dispatches + 1, dispatch := s.dispatches + 1, outcome := None, turns := s.turns + 1)
  {
    hide Take;
    hide Without;
  }

  lemma DispatchTakesATurn(s: State)
    ensures Apply(s, Op.Dispatch(s.dispatches + 1)).turns == s.turns + 1
  {
  }

  lemma ReplyOfIsReply(outcome: Option<Payload>)
    ensures IsReply(ReplyOf(outcome), outcome)
  {
  }

  lemma ScheduleSays(s: State, ns: nat, repeating: bool)
    ensures s.flight.Grounded? ==> Enabled(s, Op.Schedule(s.nextTimer, ns, repeating))
    ensures Apply(s, Op.Schedule(s.nextTimer, ns, repeating))
         == s.(callbacks := s.callbacks[s.nextTimer := repeating], nextTimer := s.nextTimer + 1,
               timers := s.timers + [Timer(s.nextTimer, s.now + ns, if repeating then Some(ns) else None, s.timerSeq)],
               timerSeq := s.timerSeq + 1)
  {
    hide Take;
    hide Without;
  }

  lemma TakeJobSays(s: State)
    requires s.jobs != [] && s.flight.Grounded?
    ensures Enabled(s, RunJob(s.jobs[0])) && Enabled(s, Rotate(s.jobs[0]))
    ensures Apply(s, RunJob(s.jobs[0])) == s.(jobs := s.jobs[1..], turns := s.turns + 1, polls := s.polls + 1)
    ensures Apply(s, Rotate(s.jobs[0])) == s.(jobs := s.jobs[1..] + [s.jobs[0]], polls := s.polls + 1)
  {
    hide Take;
    hide Without;
  }

  lemma FireSays(s: State, t: Timer)
    requires s.flight == Sleeping(t) && t.at <= s.now && (s.deadline.Some? ==> t.at <= s.deadline.value)
    ensures Enabled(s, Fire(t, t.handle in s.callbacks))
    ensures Apply(s, Fire(t, t.handle in s.callbacks))
         == s.(callbacks := if t.handle in s.callbacks && !s.callbacks[t.handle] then s.callbacks - {t.handle} else s.callbacks,
               flight := Grounded, turns := s.turns + 1)
  {
    hide Take;
    hide Without;
  }

  lemma ActionsAreGrounded(s: State, a: Action)
    requires s.flight.Grounded?
    ensures Apply(s, OpOf(s, a)).flight.Grounded?
  {
    hide Without;
  }

  lemma {:induction false} DueFirstIsFirst(timers: seq<Timer>, index: nat)
    requires index < |timers|
    requires forall k :: 0 <= k < |timers| ==> !Before(timers[k], timers[index])
    requires forall k :: 0 <= k < index ==> Before(timers[index], timers[k])
    ensures DueFirst(timers) == timers[index] && IsLeast(timers, timers[index])
  {
    if |timers| > 1 {
      if index > 0 {
        DueFirstIsFirst(timers[1..], index - 1);
      } else {
        assert DueFirst(timers[1..]) in timers[1..];
      }
    }
  }

  lemma {:induction false} TakeAt(timers: seq<Timer>, index: nat)
    requires index < |timers|
    requires forall k :: 0 <= k < index ==> Before(timers[index], timers[k])
    ensures Take(timers, timers[index])
         == if timers[index].period.Some? then timers[index := Rearmed(timers[index])]
            else timers[..index] + timers[index + 1..]
  {
    if index > 0 {
      TakeAt(timers[1..], index - 1);
    }
  }
}
