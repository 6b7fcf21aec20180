/**
  What the guest's calls and the passes of a drain come to, field by field: who
  is answered, when, and why a drain stops.
 */
module PassTheorems {
  import opened Sequences
  import opened EventLoop
  import opened Options
  import opened DrainLoop
  import opened DrainTheorems

  /** An answer reaches the slot when it carries the id under way, and no other answer does anything. */
  lemma AnswerSays(s: State, id: int, payload: Payload)
    ensures Play(s, [Answer(id, payload)]) == if id == s.dispatch then s.(outcome := Some(payload)) else s
  {
    hide Play;
    hide Without;
    PlayOne(s, Answer(id, payload));
  }

  /** A timer is due its own delay after now, and repeats when it was asked to. */
  lemma SetTimerSays(s: State, delay: Number, ns: nat, repeating: bool)
    requires IsDelay(delay, ns)
    ensures Play(s, [SetTimer(delay, repeating)])
         == s.(nextTimer := s.nextTimer + 1, timerSeq := s.timerSeq + 1,
               callbacks := s.callbacks[s.nextTimer := repeating],
               timers := s.timers + [Timer(s.nextTimer, s.now + ns, if repeating then Some(ns) else None, s.timerSeq)])
  {
    hide Play;
    hide Without;
    PlayOne(s, SetTimer(delay, repeating));
  }

  /** Clearing a handle takes its callback and its timers, and leaves the rest in place. */
  lemma ClearTimerSays(s: State, handle: nat)
    ensures Play(s, [ClearTimer(handle)])
         == s.(callbacks := s.callbacks - {handle}, timers := Play(s, [ClearTimer(handle)]).timers)
    ensures multiset(Play(s, [ClearTimer(handle)]).timers)
         == multiset(s.timers) - multiset(Carried(s.timers, handle))
    ensures forall t :: t in Play(s, [ClearTimer(handle)]).timers ==> t.handle != handle
  {
    hide Play;
    PlayOne(s, ClearTimer(handle));
    WithoutKeepsRest(s.timers, handle);
    forall t | t in Without(s.timers, handle)
      ensures t.handle != handle
    {
      WithoutMembers(s.timers, handle, t);
    }
  }

  /** The timers of one handle. */
  function Carried(timers: seq<Timer>, handle: nat): seq<Timer> {
    if timers == [] then []
    else (if timers[0].handle == handle then [timers[0]] else []) + Carried(timers[1..], handle)
  }

  lemma {:induction false} WithoutKeepsRest(timers: seq<Timer>, handle: nat)
    ensures multiset(timers) == multiset(Without(timers, handle)) + multiset(Carried(timers, handle))
  {
    if timers != [] {
      WithoutKeepsRest(timers[1..], handle);
      assert timers == [timers[0]] + timers[1..];
    }
  }

  /** A call gets the next id; it is queued when its parameters can be written, and registered either way. */
  lemma CallHostSays(s: State, serializable: bool)
    ensures Play(s, [CallHost(serializable)])
         == s.(nextCall := s.nextCall + 1, pending := s.pending + {s.nextCall},
               bindings := s.bindings + (if serializable then [s.nextCall] else []))
  {
    hide Play;
    hide Without;
    PlayOne(s, CallHost(serializable));
    assert s.bindings + [] == s.bindings;
  }

  lemma QueueSays(s: State, job: Job, ticks: nat)
    ensures Play(s, [Queue(job)]) == s.(jobs := s.jobs + [job])
    ensures Play(s, [Pass(ticks)]) == s.(now := s.now + ticks)
  {
    hide Play;
    hide Without;
    PlayOne(s, Queue(job));
    PlayOne(s, Pass(ticks));
  }

  /** The front job is taken: one that is not finished goes to the back, any other has its turn. */
  lemma JobStepSays(w: World, s: State)
    requires s.jobs != []
    ensures w.unfinished(s.polls) ==> JobStep(w, s) == s.(jobs := s.jobs[1..] + [s.jobs[0]], polls := s.polls + 1)
    ensures !w.unfinished(s.polls)
        ==> JobStep(w, s) == Play(s.(jobs := s.jobs[1..], polls := s.polls + 1, turns := s.turns + 1),
                                  w.turns(s.turns + 1).actions)
  {
    hide Without;
    hide Take;
    hide Play;
  }

  /** Ten thousand steps, and the last of them still counts. */
  lemma JobsSay(w: World, s: State)
    ensures RunJobs(w, s, MAX_JOBS).1 <==> exists n :: 0 <= n <= 10_000 && RunsDry(w, s, n)
  {
    hide RunJobs;
    hide RunsDry;
    CapOnlyCuts(w, s, MAX_JOBS);
  }

  /** An interval is due again after its period, or a millisecond if that is longer. */
  lemma RearmedSays(t: Timer)
    requires t.period.Some?
    ensures Rearmed(t) == t.(at := t.at + (if t.period.value < 1_000_000 then 1_000_000 else t.period.value))
  {
  }

  /** The call can be answered by the deadline: it is there already, or comes no later than that. */
  predicate ComesInTime(w: World, s: State)
    requires s.bindings != []
  {
    match w.waits(Last(s.bindings))
    case None => false
    case Some(d) => s.deadline.None? || d == 0 || s.now + d <= s.deadline.value
  }

  /**
    A call is settled exactly when it can be, at the moment its answer comes;
    otherwise the drain stops at the deadline, if there is one, with the call
    taken off the list and nothing else changed.
   */
  lemma CallSays(w: World, s: State)
    requires s.bindings != [] && s.flight.Grounded?
    ensures AwaitCall(w, s).More? <==> ComesInTime(w, s)
    ensures ComesInTime(w, s)
        ==> AwaitCall(w, s).state
            == Play(s.(bindings := Past(s.bindings), pending := s.pending - {Last(s.bindings)},
                       now := s.now + w.waits(Last(s.bindings)).value, turns := s.turns + 1),
                    w.turns(s.turns + 1).actions)
    ensures !ComesInTime(w, s) && s.deadline.Some?
        ==> AwaitCall(w, s) == Stop(s.(bindings := Past(s.bindings), now := Max(s.now, s.deadline.value)), WallClock)
    ensures !ComesInTime(w, s) && s.deadline.None? ==> AwaitCall(w, s).Stop? && AwaitCall(w, s).result == Hung
  {
    hide Play;
    hide Take;
    hide Without;
  }

  /** A timer that none comes before, and that is due by the deadline. */
  predicate IsInTime(s: State, t: Timer) {
    IsLeast(s.timers, t) && (s.deadline.None? || t.at <= s.deadline.value)
  }

  /**
    The timer due first is fired exactly when it is due by the deadline, at the
    moment it is due, the lateness of the sleep, or at once when that moment has
    passed; otherwise the drain stops, without waiting, with no timer left.
   */
  lemma TimerSays(w: World, s: State)
    requires s.timers != [] && s.flight.Grounded?
    ensures IsLeast(s.timers, DueFirst(s.timers))
    ensures AwaitTimer(w, s).More? <==> IsInTime(s, DueFirst(s.timers))
    ensures IsInTime(s, DueFirst(s.timers))
        ==> var t := DueFirst(s.timers);
            AwaitTimer(w, s).state
            == Play(s.(timers := Take(s.timers, t), turns := s.turns + 1,
                       now := if s.now <= t.at then t.at + w.lag(s.turns) else s.now,
                       callbacks := if t.handle in s.callbacks && !s.callbacks[t.handle]
                                    then s.callbacks - {t.handle} else s.callbacks),
                    w.turns(s.turns + 1).actions)
    ensures !IsInTime(s, DueFirst(s.timers)) ==> AwaitTimer(w, s) == Stop(s.(timers := []), WallClock)
  {
    hide Play;
    hide Take;
    hide Without;
    hide IsLeast;
  }

  lemma {:induction false} JobsStayGrounded(w: World, s: State, cap: nat)
    requires s.flight.Grounded?
    ensures RunJobs(w, s, cap).0.flight.Grounded?
    decreases cap
  {
    hide Play;
    hide Take;
    hide Without;
    if s.jobs != [] && cap != 0 {
      if !w.unfinished(s.polls) {
        var begun := Apply(s, RunJob(s.jobs[0]));
        PlayStaysGrounded(begun, w.turns(begun.turns).actions);
      }
      JobsStayGrounded(w, JobStep(w, s), cap - 1);
    }
  }

  lemma {:induction false} PlayStaysGrounded(s: State, actions: seq<Action>)
    requires s.flight.Grounded?
    ensures Play(s, actions).flight.Grounded?
    decreases |actions|
  {
    hide Without;
    if actions != [] {
      PlayStaysGrounded(Apply(s, OpOf(s, actions[0])), actions[1..]);
    }
  }

  /** Why a pass ends a drain, read off the state its jobs leave; None when the drain goes on. */
  function Verdict(w: World, ready: State, fit: bool): Option<Result> {
    if !fit then Some(MaxIterations)
    else if ready.bindings != [] then
      if ComesInTime(w, ready) then None
      else if ready.deadline.Some? then Some(WallClock) else Some(Hung)
    else if ready.timers == [] then Some(Done)
    else if ready.deadline.Some? && forall t :: t in ready.timers ==> ready.deadline.value < t.at then Some(WallClock)
    else None
  }

  /** Every pass ends or goes on for the reason it should. */
  lemma PassSays(w: World, s: State)
    requires s.flight.Grounded?
    ensures Verdict(w, RunJobs(w, s, MAX_JOBS).0, RunJobs(w, s, MAX_JOBS).1)
         == if Iterate(w, s).Stop? then Some(Iterate(w, s).result) else None
  {
    hide RunJobs;
    hide AwaitCall;
    hide AwaitTimer;
    hide ComesInTime;
    hide DueFirst;
    JobsStayGrounded(w, s, MAX_JOBS);
    var ready, fit := RunJobs(w, s, MAX_JOBS).0, RunJobs(w, s, MAX_JOBS).1;
    if fit && ready.bindings != [] {
      CallSays(w, ready);
    } else if fit && ready.timers != [] {
      TimerSays(w, ready);
    }
  }

  /** A drain that has ended has a last pass, and ended for the reason that pass gives. */
  lemma {:induction false} DrainSays(w: World, s: State, fuel: nat) returns (last: nat)
    requires s.flight.Grounded?
    ensures Loop(w, s, fuel).Stop? ==> last < fuel && Loop(w, s, last).More?
    ensures Loop(w, s, fuel).Stop?
        ==> Verdict(w, RunJobs(w, Loop(w, s, last).state, MAX_JOBS).0, RunJobs(w, Loop(w, s, last).state, MAX_JOBS).1)
            == Some(Loop(w, s, fuel).result)
    decreases fuel
  {
    hide Iterate;
    hide RunJobs;
    hide Verdict;
    last := 0;
    if fuel > 0 {
      PassSays(w, s);
      if Iterate(w, s).More? {
        PassStaysGrounded(w, s);
        last := DrainSays(w, Iterate(w, s).state, fuel - 1);
        last := last + 1;
      }
    }
  }

  lemma PassStaysGrounded(w: World, s: State)
    requires s.flight.Grounded? && Iterate(w, s).More?
    ensures Iterate(w, s).state.flight.Grounded?
  {
    hide RunJobs;
    hide AwaitCall;
    hide AwaitTimer;
    hide Play;
    hide Take;
    hide DueFirst;
    JobsStayGrounded(w, s, MAX_JOBS);
    var ready := RunJobs(w, s, MAX_JOBS).0;
    if ready.bindings != [] {
      CallSays(w, ready);
      var begun := ready.(bindings := Past(ready.bindings), pending := ready.pending - {Last(ready.bindings)},
                          now := ready.now + w.waits(Last(ready.bindings)).value, turns := ready.turns + 1);
      PlayStaysGrounded(begun, w.turns(begun.turns).actions);
    } else {
      TimerPass(w, ready);
      FiringIsGrounded(w, ready);
      PlayStaysGrounded(Firing(w, ready), w.turns(Firing(w, ready).turns).actions);
    }
  }

  lemma FiringIsGrounded(w: World, s: State)
    requires s.timers != []
    ensures Firing(w, s).flight.Grounded?
  {
    hide Take;
    hide DueFirst;
  }

  /**
    A wall clock of `b` gives a drain begun at `now` until now + b: at whatever
    pass, a call whose answer comes by then is settled, and a timer due by then
    is fired; any other ends the drain, unless its answer is there already.
   */
  lemma BudgetIsKept(w: World, b: nat, s: State, n: nat, ready: State)
    requires s.flight.Grounded? && Drained(w, Some(b), s, n).More?
    requires RunJobs(w, Drained(w, Some(b), s, n).state, MAX_JOBS) == (ready, true)
    ensures ready.deadline == Some(s.now + b)
    ensures ready.bindings != [] ==> (Drained(w, Some(b), s, n + 1).More? <==> IsThereBy(w, ready, s.now + b))
    ensures ready.bindings == [] && ready.timers != []
        ==> (Drained(w, Some(b), s, n + 1).More? <==> exists t :: t in ready.timers && t.at <= s.now + b)
  {
    hide RunJobs;
    hide AwaitCall;
    hide AwaitTimer;
    hide Loop;
    hide DueFirst;
    hide IsLeast;
    var begun := Apply(s, BeginDrain(DeadlineOf(Some(b), s.now)));
    LoopGoesOn(w, false, begun, n);
    var at := Loop(w, begun, n).state;
    LoopTwice(w, begun, n, 1);
    LoopOnce(w, at);
    LoopStaysGrounded(w, begun, n);
    PassSays(w, at);
    JobsGoOn(w, false, at, MAX_JOBS);
  }

  /** The answer of the call taken next is there when it is awaited, or comes by a given time. */
  predicate IsThereBy(w: World, s: State, time: nat)
    requires s.bindings != []
  {
    var wait := w.waits(Last(s.bindings));
    wait == Some(0) || (wait.Some? && s.now + wait.value <= time)
  }

  lemma LoopOnce(w: World, s: State)
    ensures Loop(w, s, 1) == Iterate(w, s)
  {
    hide Iterate;
    if Iterate(w, s).More? {
      assert Loop(w, Iterate(w, s).state, 0) == Iterate(w, s);
    }
  }

  lemma {:induction false} LoopStaysGrounded(w: World, s: State, n: nat)
    requires s.flight.Grounded?
    ensures Loop(w, s, n).More? ==> Loop(w, s, n).state.flight.Grounded?
    decreases n
  {
    hide Iterate;
    if n > 0 && Iterate(w, s).More? {
      PassStaysGrounded(w, s);
      LoopStaysGrounded(w, Iterate(w, s).state, n - 1);
    }
  }
}
