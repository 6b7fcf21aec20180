/**
  The worker as a state machine: what the host slots and the guest glue hold,
  and every step either side can take. A log of steps is a run; the theorems of
  the neighbouring modules are about every legal log, so about every guest,
  every interleaving and every clock.
 */
module EventLoop {
  import opened Options

  /** Time is counted in nanoseconds. */
  const MILLISECOND: nat := 1_000_000

  /** A queued guest turn; what it does is the guest's affair. */
  datatype Job = Job(id: nat)

  /** What __ow_native_respond delivers, as the host parses it. */
  datatype Payload = Value(text: string) | Error(message: string) | Garbage

  datatype Timer = Timer(handle: nat, at: nat, period: Option<nat>, order: nat)

  /** What the host has taken off a list and not finished with. */
  datatype Flight = Grounded | Awaiting(id: nat) | Sleeping(timer: Timer)

  datatype State = State(
    // host slots
    jobs: seq<Job>,
    timers: seq<Timer>,
    timerSeq: nat,
    bindings: seq<nat>,
    dispatch: int,
    outcome: Option<Payload>,
    dispatches: nat,
    // guest glue
    callbacks: map<nat, bool>,
    nextTimer: nat,
    pending: set<nat>,
    nextCall: nat,
    // the world around them
    now: nat,
    deadline: Option<nat>,
    flight: Flight,
    turns: nat,
    polls: nat)

  function Init(start: nat): State {
    State([], [], 0, [], 0, None, 0, map[], 1, {}, 1, start, None, Grounded, 0, 0)
  }

  datatype Op =
    // the guest, inside a turn; only time also passes elsewhere
    | Elapse(ticks: nat)
    | Enqueue(job: Job)
    | Schedule(handle: nat, delay: nat, repeating: bool)
    | Cancel(handle: nat)
    | Call(id: nat)
    | Botch(id: nat)
    | Respond(dispatch: int, payload: Payload)
    // the host
    | RunJob(job: Job)
    | Rotate(job: Job)
    | DropJobs(lost: seq<Job>)
    | Await(id: nat)
    | Settle(id: nat, found: bool)
    | Abandon(id: nat)
    | TakeTimer(timer: Timer)
    | Fire(timer: Timer, found: bool)
    | ClearTimers(timer: Timer)
    | BeginDrain(deadline: Option<nat>)
    | Script
    | Dispatch(id: nat)
    | TakeOutcome(outcome: Option<Payload>)

  /** Due first, or due together and set first. */
  predicate Before(t: Timer, u: Timer) {
    t.at < u.at || (t.at == u.at && t.order < u.order)
  }

  predicate IsLeast(timers: seq<Timer>, t: Timer) {
    t in timers && forall u :: u in timers ==> !Before(u, t)
  }

  function Max(a: nat, b: nat): nat {
    if a < b then b else a
  }

  /** An interval once it has been taken: due again at least a millisecond later. */
  function Rearmed(t: Timer): Timer
    requires t.period.Some?
  {
    t.(at := t.at + Max(t.period.value, MILLISECOND))
  }

  /** The list after `t` is taken: a one-shot leaves it, an interval is due again. */
  function Take(timers: seq<Timer>, t: Timer): seq<Timer> {
    if timers == [] then []
    else if timers[0] == t then (if t.period.Some? then [Rearmed(t)] else []) + timers[1..]
    else [timers[0]] + Take(timers[1..], t)
  }

  /** The list without the timers of one handle. */
  function Without(timers: seq<Timer>, handle: nat): seq<Timer> {
    if timers == [] then []
    else (if timers[0].handle == handle then [] else [timers[0]]) + Without(timers[1..], handle)
  }

  predicate Enabled(s: State, op: Op) {
    match op
    case Elapse(_) => true
    case Enqueue(_) => s.flight.Grounded?
    case Schedule(handle, _, _) => s.flight.Grounded? && handle == s.nextTimer
    case Cancel(_) => s.flight.Grounded?
    case Call(id) => s.flight.Grounded? && id == s.nextCall
    case Botch(id) => s.flight.Grounded? && id == s.nextCall
    case Respond(_, _) => s.flight.Grounded?
    case RunJob(job) => s.flight.Grounded? && s.jobs != [] && s.jobs[0] == job
    case Rotate(job) => s.flight.Grounded? && s.jobs != [] && s.jobs[0] == job
    case DropJobs(lost) => s.flight.Grounded? && lost == s.jobs
    case Await(id) => s.flight.Grounded? && s.jobs == [] && s.bindings != [] && s.bindings[|s.bindings| - 1] == id
    case Settle(id, found) => s.flight == Awaiting(id) && found == (id in s.pending)
    case Abandon(id) => s.flight == Awaiting(id) && s.deadline.Some? && s.deadline.value <= s.now
    case TakeTimer(t) => s.flight.Grounded? && s.jobs == [] && s.bindings == [] && IsLeast(s.timers, t)
    case Fire(t, found) =>
      && s.flight == Sleeping(t)
      && t.at <= s.now
      && (s.deadline.Some? ==> t.at <= s.deadline.value)
      && found == (t.handle in s.callbacks)
    case ClearTimers(t) => s.flight == Sleeping(t) && s.deadline.Some? && s.deadline.value < t.at
    case BeginDrain(_) => s.flight.Grounded?
    case Script => s.flight.Grounded?
    case Dispatch(id) => s.flight.Grounded? && id == s.dispatches + 1
    case TakeOutcome(outcome) => s.flight.Grounded? && outcome == s.outcome
  }

  function Apply(s: State, op: Op): State {
    match op
    case Elapse(ticks) => s.(now := s.now + ticks)
    case Enqueue(job) => s.(jobs := s.jobs + [job])
    case Schedule(handle, delay, repeating) =>
      s.(callbacks := s.callbacks[handle := repeating],
         nextTimer := s.nextTimer + 1,
         timers := s.timers + [Timer(handle, s.now + delay, if repeating then Some(delay) else None, s.timerSeq)],
         timerSeq := s.timerSeq + 1)
    case Cancel(handle) => s.(callbacks := s.callbacks - {handle}, timers := Without(s.timers, handle))
    case Call(id) => s.(pending := s.pending + {id}, nextCall := s.nextCall + 1, bindings := s.bindings + [id])
    case Botch(id) => s.(pending := s.pending + {id}, nextCall := s.nextCall + 1)
    case Respond(dispatch, payload) => if dispatch == s.dispatch then s.(outcome := Some(payload)) else s
    case RunJob(_) => s.(jobs := s.jobs[if s.jobs == [] then 0 else 1..], turns := s.turns + 1, polls := s.polls + 1)
    case Rotate(job) => s.(jobs := s.jobs[if s.jobs == [] then 0 else 1..] + [job], polls := s.polls + 1)
    case DropJobs(_) => s.(jobs := [])
    case Await(id) =>
      s.(bindings := if s.bindings == [] then [] else s.bindings[..|s.bindings| - 1], flight := Awaiting(id))
    case Settle(id, _) => s.(pending := s.pending - {id}, flight := Grounded, turns := s.turns + 1)
    case Abandon(_) => s.(flight := Grounded)
    case TakeTimer(t) => s.(timers := Take(s.timers, t), flight := Sleeping(t))
    case Fire(t, _) =>
      s.(callbacks := if t.handle in s.callbacks && !s.callbacks[t.handle] then s.callbacks - {t.handle} else s.callbacks,
         flight := Grounded, turns := s.turns + 1)
    case ClearTimers(_) => s.(timers := [], flight := Grounded)
    case BeginDrain(deadline) => s.(deadline := deadline)
    case Script => s.(turns := s.turns + 1)
    case Dispatch(id) => s.(dispatches := id, dispatch := id, outcome := None, turns := s.turns + 1)
    case TakeOutcome(_) => s.(outcome := None)
  }

  /** The state a log leads to. */
  function Run(s: State, log: seq<Op>): State {
    if log == [] then s else Apply(Run(s, log[..|log| - 1]), log[|log| - 1])
  }

  /** Every step of the log was possible when it was taken. */
  predicate Legal(s: State, log: seq<Op>) {
    log == [] || (Legal(s, log[..|log| - 1]) && Enabled(Run(s, log[..|log| - 1]), log[|log| - 1]))
  }

  lemma LogStep(s: State, log: seq<Op>, op: Op)
    ensures Run(s, log + [op]) == Apply(Run(s, log), op)
    ensures Legal(s, log + [op]) <==> Legal(s, log) && Enabled(Run(s, log), op)
  {
    assert (log + [op])[..|log|] == log;
  }

  /** Some steps, and then some more. */
  lemma {:induction false} LogTwice(s: State, a: seq<Op>, b: seq<Op>)
    ensures Run(s, a + b) == Run(Run(s, a), b)
    ensures Legal(s, a + b) <==> Legal(s, a) && Legal(Run(s, a), b)
  {
    hide Enabled;
    hide Apply;
    if b == [] {
      assert a + b == a;
    } else {
      var past := b[..|b| - 1];
      LogTwice(s, a, past);
      assert (a + b)[..|a + b| - 1] == a + past;
    }
  }

  lemma {:induction false} LegalPrefix(s: State, log: seq<Op>, k: nat)
    requires Legal(s, log) && k <= |log|
    ensures Legal(s, log[..k])
    ensures k < |log| ==> Enabled(Run(s, log[..k]), log[k])
  {
    hide Enabled;
    hide Apply;
    if k < |log| - 1 {
      LegalPrefix(s, log[..|log| - 1], k);
      assert log[..|log| - 1][..k] == log[..k];
    } else if k == |log| {
      assert log[..k] == log;
    }
  }

  lemma {:induction false} WithoutMembers(timers: seq<Timer>, handle: nat, t: Timer)
    ensures t in Without(timers, handle) <==> t in timers && t.handle != handle
  {
    if timers != [] {
      WithoutMembers(timers[1..], handle, t);
      assert timers == [timers[0]] + timers[1..];
    }
  }

  /** Orders are distinct: two timers on the list were set by different calls. */
  predicate Distinct(timers: seq<Timer>) {
    timers == [] || ((forall u :: u in timers[1..] ==> u.order != timers[0].order) && Distinct(timers[1..]))
  }

  lemma {:induction false} TakeMembers(timers: seq<Timer>, t: Timer, u: Timer)
    requires t in timers && Distinct(timers)
    ensures u in Take(timers, t) <==> (u in timers && u != t) || (t.period.Some? && u == Rearmed(t))
  {
    assert timers == [timers[0]] + timers[1..];
    if timers[0] != t {
      TakeMembers(timers[1..], t, u);
    }
  }

  lemma {:induction false} WithoutDistinct(timers: seq<Timer>, handle: nat)
    requires Distinct(timers)
    ensures Distinct(Without(timers, handle))
  {
    if timers != [] {
      WithoutDistinct(timers[1..], handle);
      forall u | u in Without(timers[1..], handle)
        ensures u.order != timers[0].order
      {
        WithoutMembers(timers[1..], handle, u);
      }
      var rest := Without(timers[1..], handle);
      assert ([timers[0]] + rest)[1..] == rest && [] + rest == rest;
    }
  }

  lemma {:induction false} TakeDistinct(timers: seq<Timer>, t: Timer)
    requires t in timers && Distinct(timers)
    ensures Distinct(Take(timers, t))
  {
    assert timers == [timers[0]] + timers[1..];
    if timers[0] != t {
      var rest := Take(timers[1..], t);
      TakeDistinct(timers[1..], t);
      forall u | u in rest
        ensures u.order != timers[0].order
      {
        TakeMembers(timers[1..], t, u);
      }
      assert ([timers[0]] + rest)[1..] == rest;
    } else if t.period.Some? {
      assert Take(timers, t)[1..] == timers[1..];
    } else {
      assert Take(timers, t) == timers[1..];
    }
  }

  lemma {:induction false} AppendDistinct(timers: seq<Timer>, t: Timer)
    requires Distinct(timers) && forall u :: u in timers ==> u.order != t.order
    ensures Distinct(timers + [t])
  {
    if timers != [] {
      AppendDistinct(timers[1..], t);
      assert (timers + [t])[1..] == timers[1..] + [t];
    }
  }
}
