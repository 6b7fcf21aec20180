/**
  Timers over any run of a worker: across dispatches, failed drains and
  whatever the callbacks do.
 */
module TimerTheorems {
  import opened EventLoop
  import opened Options

  function LastFired(log: seq<Op>): Option<Timer> {
    if log == [] then None
    else if log[|log| - 1].Fire? then Some(log[|log| - 1].timer)
    else LastFired(log[..|log| - 1])
  }

  /** How often the timer of a handle has fired. */
  function Firings(log: seq<Op>, handle: nat): nat {
    if log == [] then 0
    else
      Firings(log[..|log| - 1], handle)
      + (if log[|log| - 1].Fire? && log[|log| - 1].timer.handle == handle then 1 else 0)
  }

  predicate Follows(fired: Option<Timer>, t: Timer) {
    fired.Some? ==> Before(fired.value, t)
  }

  /** A host timer has its callback in the guest, of the same kind, under a handle of its own. */
  predicate Coupled(s: State, t: Timer) {
    && t.order < s.timerSeq
    && t.handle == t.order + 1
    && t.handle in s.callbacks
    && s.callbacks[t.handle] == t.period.Some?
  }

  predicate SleepOk(s: State, fired: Option<Timer>) {
    s.flight.Sleeping? ==>
      && Coupled(s, s.flight.timer)
      && Follows(fired, s.flight.timer)
      && (forall u :: u in s.timers ==> Before(s.flight.timer, u))
      && (forall u :: u in s.timers && u.order == s.flight.timer.order
            ==> s.flight.timer.period.Some? && u == Rearmed(s.flight.timer))
  }

  /** What every step keeps; `fired` is the timer that fired last. */
  predicate TimersOk(s: State, fired: Option<Timer>) {
    && s.nextTimer == s.timerSeq + 1
    && Distinct(s.timers)
    && (forall h :: h in s.callbacks ==> h < s.nextTimer)
    && (forall t :: t in s.timers ==> Coupled(s, t) && Follows(fired, t))
    && SleepOk(s, fired)
    && (fired.Some? ==> fired.value.at <= s.now && fired.value.order < s.timerSeq)
  }

  function FiredBy(op: Op, fired: Option<Timer>): Option<Timer> {
    if op.Fire? then Some(op.timer) else fired
  }

  lemma ScheduleKeepsTimers(s: State, fired: Option<Timer>, op: Op)
    requires TimersOk(s, fired) && Enabled(s, op) && op.Schedule?
    ensures TimersOk(Apply(s, op), fired)
  {
    var s' := Apply(s, op);
    AppendDistinct(s.timers, s'.timers[|s.timers|]);
  }

  lemma CancelKeepsTimers(s: State, fired: Option<Timer>, op: Op)
    requires TimersOk(s, fired) && Enabled(s, op) && op.Cancel?
    ensures TimersOk(Apply(s, op), fired)
  {
    hide Without;
    WithoutDistinct(s.timers, op.handle);
    forall t | t in Apply(s, op).timers
      ensures Coupled(Apply(s, op), t) && Follows(fired, t)
    {
      WithoutMembers(s.timers, op.handle, t);
    }
  }

  lemma TakeKeepsTimers(s: State, fired: Option<Timer>, op: Op)
    requires TimersOk(s, fired) && Enabled(s, op) && op.TakeTimer?
    ensures TimersOk(Apply(s, op), fired)
  {
    hide Take;
    hide Distinct;
    var t, s' := op.timer, Apply(s, op);
    TakeDistinct(s.timers, t);
    forall u | u in s'.timers
      ensures Coupled(s', u) && Before(t, u) && Follows(fired, u)
      ensures u.order == t.order ==> t.period.Some? && u == Rearmed(t)
    {
      TakeMembers(s.timers, t, u);
      if u in s.timers && u != t {
        OrdersDiffer(s.timers, t, u);
      }
    }
  }

  lemma {:induction false} OrdersDiffer(timers: seq<Timer>, t: Timer, u: Timer)
    requires Distinct(timers) && t in timers && u in timers && t != u
    ensures t.order != u.order
  {
    if timers[0] != t && timers[0] != u {
      OrdersDiffer(timers[1..], t, u);
    }
  }

  lemma TimersStep(s: State, fired: Option<Timer>, op: Op)
    requires TimersOk(s, fired) && Enabled(s, op)
    ensures TimersOk(Apply(s, op), FiredBy(op, fired))
  {
    hide Distinct;
    hide Take;
    hide Without;
    match op {
      case Schedule(_, _, _) => ScheduleKeepsTimers(s, fired, op);
      case Cancel(_) => CancelKeepsTimers(s, fired, op);
      case TakeTimer(_) => TakeKeepsTimers(s, fired, op);
      case Fire(_, _) => FireKeepsTimers(s, fired, op);
      case ClearTimers(_) => NoTimers();
      case _ =>
    }
  }

  lemma FireKeepsTimers(s: State, fired: Option<Timer>, op: Op)
    requires TimersOk(s, fired) && Enabled(s, op) && op.Fire?
    ensures TimersOk(Apply(s, op), Some(op.timer))
  {
    hide Distinct;
    assert op.timer.period.None? ==> forall u :: u in s.timers ==> u.handle != op.timer.handle;
  }

  lemma NoTimers()
    ensures Distinct([])
  {
  }

  lemma {:induction false} TimersAlways(start: nat, log: seq<Op>)
    requires Legal(Init(start), log)
    ensures TimersOk(Run(Init(start), log), LastFired(log))
  {
    hide TimersOk;
    hide Enabled;
    hide Apply;
    if log == [] {
      InitIsOk(start);
    } else {
      TimersAlways(start, log[..|log| - 1]);
      TimersStep(Run(Init(start), log[..|log| - 1]), LastFired(log[..|log| - 1]), log[|log| - 1]);
    }
  }

  lemma InitIsOk(start: nat)
    ensures TimersOk(Init(start), None)
  {
  }

  /** Guest and host agree on every timer, at every moment of every run. */
  lemma TimersAreCoupled(start: nat, log: seq<Op>, t: Timer)
    requires Legal(Init(start), log) && t in Run(Init(start), log).timers
    ensures Coupled(Run(Init(start), log), t)
    ensures forall u :: u in Run(Init(start), log).timers && u.handle == t.handle ==> u == t
  {
    var s := Run(Init(start), log);
    TimersAlways(start, log);
    forall u | u in s.timers && u.handle == t.handle
      ensures u == t
    {
      if u != t {
        OrdersDiffer(s.timers, t, u);
      }
    }
  }

  lemma {:induction false} FiredSoFar(start: nat, log: seq<Op>, i: nat)
    requires Legal(Init(start), log) && i < |log| && log[i].Fire?
    ensures LastFired(log).Some?
    ensures log[i].timer == LastFired(log).value || Before(log[i].timer, LastFired(log).value)
  {
    hide TimersOk;
    hide Enabled;
    hide Apply;
    var past, last := log[..|log| - 1], log[|log| - 1];
    if i < |log| - 1 {
      FiredSoFar(start, past, i);
      if last.Fire? {
        TimersAlways(start, past);
        FiringFollows(Run(Init(start), past), LastFired(past), last);
      }
    }
  }

  lemma FiringFollows(s: State, fired: Option<Timer>, op: Op)
    requires TimersOk(s, fired) && Enabled(s, op) && op.Fire?
    ensures Follows(fired, op.timer) && op.found && op.timer.handle < s.nextTimer
  {
  }

  /**
    Timers fire in strictly increasing order of due time, then of the order
    they were set in, over the whole life of a worker.
   */
  lemma TimersFireInOrder(start: nat, log: seq<Op>, i: nat, j: nat)
    requires Legal(Init(start), log) && i < j < |log|
    requires log[i].Fire? && log[j].Fire?
    ensures Before(log[i].timer, log[j].timer)
  {
    hide TimersOk;
    LegalPrefix(Init(start), log, j);
    TimersAlways(start, log[..j]);
    FiredSoFar(start, log[..j], i);
    FiringFollows(Run(Init(start), log[..j]), LastFired(log[..j]), log[j]);
  }

  predicate IsIdle(s: State) {
    && (!s.flight.Grounded? ==> s.jobs == [])
    && (s.flight.Sleeping? ==> s.bindings == [])
  }

  lemma {:induction false} AlwaysIdle(start: nat, log: seq<Op>)
    requires Legal(Init(start), log)
    ensures IsIdle(Run(Init(start), log))
  {
    if log != [] {
      AlwaysIdle(start, log[..|log| - 1]);
      IdleStep(Run(Init(start), log[..|log| - 1]), log[|log| - 1]);
    }
  }

  lemma IdleStep(s: State, op: Op)
    requires IsIdle(s) && Enabled(s, op)
    ensures IsIdle(Apply(s, op))
  {
  }

  /**
    Run to completion: a timer fires with no job queued and no call pending, not
    before it is due and never when it was due past the deadline; its callback
    is always there to run.
   */
  lemma FiringIsQuiet(start: nat, log: seq<Op>, k: nat)
    requires Legal(Init(start), log) && k < |log| && log[k].Fire?
    ensures Run(Init(start), log[..k]).jobs == [] && Run(Init(start), log[..k]).bindings == []
    ensures log[k].timer.at <= Run(Init(start), log[..k]).now
    ensures Run(Init(start), log[..k]).deadline.Some?
        ==> log[k].timer.at <= Run(Init(start), log[..k]).deadline.value
    ensures log[k].found
  {
    hide TimersOk;
    hide Apply;
    LegalPrefix(Init(start), log, k);
    AlwaysIdle(start, log[..k]);
    TimersAlways(start, log[..k]);
    FiringFollows(Run(Init(start), log[..k]), LastFired(log[..k]), log[k]);
  }

  /** A call is settled only once no job is left to run. */
  lemma SettlingIsQuiet(start: nat, log: seq<Op>, k: nat)
    requires Legal(Init(start), log) && k < |log| && log[k].Settle?
    ensures Run(Init(start), log[..k]).jobs == []
  {
    hide Apply;
    LegalPrefix(Init(start), log, k);
    AlwaysIdle(start, log[..k]);
  }

  /** A handle that was given out and that no timer carries any more. */
  predicate IsDead(s: State, handle: nat) {
    && handle < s.nextTimer
    && (forall t :: t in s.timers ==> t.handle != handle)
    && (s.flight.Sleeping? ==> s.flight.timer.handle != handle)
  }

  lemma DeadStep(s: State, fired: Option<Timer>, op: Op, handle: nat)
    requires TimersOk(s, fired) && Enabled(s, op) && IsDead(s, handle)
    ensures IsDead(Apply(s, op), handle)
  {
    hide Take;
    hide Without;
    hide Distinct;
    forall t | t in Apply(s, op).timers
      ensures t.handle != handle
    {
      match op {
        case Cancel(h) => WithoutMembers(s.timers, h, t);
        case TakeTimer(u) => TakeMembers(s.timers, u, t);
        case _ =>
      }
    }
  }

  lemma {:induction false} DeadStays(start: nat, log: seq<Op>, k: nat, handle: nat)
    requires Legal(Init(start), log) && k <= |log|
    requires IsDead(Run(Init(start), log[..k]), handle)
    ensures IsDead(Run(Init(start), log), handle)
  {
    hide Apply;
    hide Enabled;
    hide IsDead;
    hide TimersOk;
    if k == |log| {
      assert log[..k] == log;
    } else {
      var past := log[..|log| - 1];
      assert past[..k] == log[..k];
      DeadStays(start, past, k, handle);
      TimersAlways(start, past);
      DeadStep(Run(Init(start), past), LastFired(past), log[|log| - 1], handle);
    }
  }

  lemma DeadNeverFires(start: nat, log: seq<Op>, k: nat, j: nat, handle: nat)
    requires Legal(Init(start), log) && k <= j < |log|
    requires IsDead(Run(Init(start), log[..k]), handle)
    ensures !(log[j].Fire? && log[j].timer.handle == handle)
  {
    hide Apply;
    LegalPrefix(Init(start), log, j);
    assert log[..j][..k] == log[..k];
    DeadStays(start, log[..j], k, handle);
  }

  lemma {:induction false} HandlesGrow(start: nat, log: seq<Op>, i: nat)
    requires Legal(Init(start), log) && i < |log| && log[i].Schedule?
    ensures log[i].handle < Run(Init(start), log).nextTimer
  {
    hide Enabled;
    var past := log[..|log| - 1];
    if i < |log| - 1 {
      HandlesGrow(start, past, i);
    } else {
      assert Enabled(Run(Init(start), past), log[i]) && log[i].handle == Run(Init(start), past).nextTimer by {
        ScheduleMints(Run(Init(start), past), log[i]);
      }
    }
  }

  lemma ScheduleMints(s: State, op: Op)
    requires Enabled(s, op) && op.Schedule?
    ensures op.handle == s.nextTimer
  {
  }

  /** A handle that was given out and then cleared never fires again, not even from its own callback. */
  lemma ClearedNeverFires(start: nat, log: seq<Op>, i: nat, j: nat, k: nat)
    requires Legal(Init(start), log) && i < j < k < |log|
    requires log[i].Schedule? && log[j] == Cancel(log[i].handle)
    ensures !(log[k].Fire? && log[k].timer.handle == log[i].handle)
  {
    hide Enabled;
    hide Apply;
    hide IsDead;
    var h, past := log[i].handle, log[..j];
    LegalPrefix(Init(start), log, j);
    HandlesGrow(start, past, i);
    CancelKills(Run(Init(start), past), log[j]);
    LogStep(Init(start), past, log[j]);
    assert log[..j + 1] == past + [log[j]];
    DeadNeverFires(start, log, j + 1, k, h);
  }

  lemma CancelKills(s: State, op: Op)
    requires Enabled(s, op) && op.Cancel? && op.handle < s.nextTimer
    ensures IsDead(Apply(s, op), op.handle)
  {
    hide Without;
    forall t | t in Apply(s, op).timers
      ensures t.handle != op.handle
    {
      WithoutMembers(s.timers, op.handle, t);
    }
  }

  lemma OneShotDies(s: State, fired: Option<Timer>, op: Op)
    requires TimersOk(s, fired) && Enabled(s, op) && op.Fire? && op.timer.period.None?
    ensures IsDead(Apply(s, op), op.timer.handle)
  {
    hide Distinct;
  }

  /** A one-shot fires at most once. */
  lemma OneShotFiresOnce(start: nat, log: seq<Op>, i: nat, j: nat)
    requires Legal(Init(start), log) && i < j < |log|
    requires log[i].Fire? && log[j].Fire? && log[i].timer.period.None?
    ensures log[j].timer.handle != log[i].timer.handle
  {
    hide TimersOk;
    hide Enabled;
    hide Apply;
    hide IsDead;
    var past := log[..i];
    LegalPrefix(Init(start), log, i);
    TimersAlways(start, past);
    OneShotDies(Run(Init(start), past), LastFired(past), log[i]);
    LogStep(Init(start), past, log[i]);
    assert log[..i + 1] == past + [log[i]];
    DeadNeverFires(start, log, i + 1, j, log[i].timer.handle);
  }

  lemma ClearingKills(s: State, op: Op, handle: nat)
    requires Enabled(s, op) && op.ClearTimers? && handle < s.nextTimer
    ensures IsDead(Apply(s, op), handle)
  {
  }

  /** When a drain times out on a timer, every timer set before it is gone for good. */
  lemma TimeoutKillsTimers(start: nat, log: seq<Op>, i: nat, j: nat, k: nat)
    requires Legal(Init(start), log) && i < j < k < |log|
    requires log[i].Schedule? && log[j].ClearTimers?
    ensures !(log[k].Fire? && log[k].timer.handle == log[i].handle)
  {
    hide Enabled;
    hide Apply;
    hide IsDead;
    var past := log[..j];
    LegalPrefix(Init(start), log, j);
    HandlesGrow(start, past, i);
    ClearingKills(Run(Init(start), past), log[j], log[i].handle);
    LogStep(Init(start), past, log[j]);
    assert log[..j + 1] == past + [log[j]];
    DeadNeverFires(start, log, j + 1, k, log[i].handle);
  }

  /** Clearing a handle that was not given out yet changes nothing, and is not remembered. */
  lemma EarlyClearChangesNothing(start: nat, log: seq<Op>, handle: nat)
    requires Legal(Init(start), log) && Run(Init(start), log).nextTimer <= handle
    ensures Run(Init(start), log + [Cancel(handle)]) == Run(Init(start), log)
  {
    hide Enabled;
    hide Apply;
    var s := Run(Init(start), log);
    LogStep(Init(start), log, Cancel(handle));
    TimersAlways(start, log);
    ClearNothing(s, LastFired(log), handle);
  }

  lemma ClearNothing(s: State, fired: Option<Timer>, handle: nat)
    requires TimersOk(s, fired) && s.nextTimer <= handle
    ensures Apply(s, Cancel(handle)) == s
  {
    WithoutNothing(s.timers, handle);
  }

  lemma {:induction false} WithoutNothing(timers: seq<Timer>, handle: nat)
    requires forall t :: t in timers ==> t.handle != handle
    ensures Without(timers, handle) == timers
  {
    if timers != [] {
      assert timers[0] in timers;
      WithoutNothing(timers[1..], handle);
    }
  }

  /** What a call to setTimeout or setInterval promises: when, how often, and whether again. */
  datatype Plan = Plan(first: nat, delay: nat, repeating: bool)

  /** The due time of firing number `n`, counted from 0. */
  function Due(p: Plan, n: nat): nat {
    p.first + n * Max(p.delay, MILLISECOND)
  }

  lemma DueNext(p: Plan, n: nat)
    ensures Due(p, n + 1) == Due(p, n) + Max(p.delay, MILLISECOND)
  {
  }

  predicate OnPlan(p: Plan, n: nat, t: Timer) {
    && t.at == Due(p, n)
    && t.period == (if p.repeating then Some(p.delay) else None)
    && (p.repeating || n == 0)
  }

  function Begun(s: State, handle: nat): nat {
    if s.flight.Sleeping? && s.flight.timer.handle == handle then 1 else 0
  }

  /** Where the timer of a handle stands after `n` firings. */
  predicate KeepsPlan(s: State, handle: nat, p: Plan, n: nat) {
    && (forall t :: t in s.timers && t.handle == handle ==> OnPlan(p, n + Begun(s, handle), t))
    && (s.flight.Sleeping? && s.flight.timer.handle == handle ==> OnPlan(p, n, s.flight.timer))
    && handle < s.nextTimer
  }

  function Counted(op: Op, handle: nat, n: nat): nat {
    if op.Fire? && op.timer.handle == handle then n + 1 else n
  }

  lemma PlanStep(s: State, fired: Option<Timer>, op: Op, handle: nat, p: Plan, n: nat)
    requires TimersOk(s, fired) && Enabled(s, op) && KeepsPlan(s, handle, p, n)
    ensures KeepsPlan(Apply(s, op), handle, p, Counted(op, handle, n))
  {
    hide Take;
    hide Without;
    hide Distinct;
    hide Due;
    hide Coupled;
    match op {
      case TakeTimer(_) => PlanStepTake(s, fired, op, handle, p, n);
      case Cancel(h) =>
        forall t | t in Apply(s, op).timers && t.handle == handle
          ensures t in s.timers
        {
          WithoutMembers(s.timers, h, t);
        }
      case _ =>
    }
  }

  lemma PlanStepTake(s: State, fired: Option<Timer>, op: Op, handle: nat, p: Plan, n: nat)
    requires TimersOk(s, fired) && Enabled(s, op) && op.TakeTimer? && KeepsPlan(s, handle, p, n)
    ensures KeepsPlan(Apply(s, op), handle, p, n)
  {
    hide Take;
    hide Distinct;
    hide Due;
    DueNext(p, n);
    forall t | t in Apply(s, op).timers && t.handle == handle
      ensures OnPlan(p, n + Begun(Apply(s, op), handle), t)
    {
      TakeMembers(s.timers, op.timer, t);
      if t in s.timers && t != op.timer {
        OrdersDiffer(s.timers, op.timer, t);
      }
    }
  }

  lemma {:induction false} UnmintedNeverFired(start: nat, log: seq<Op>, handle: nat)
    requires Legal(Init(start), log) && Run(Init(start), log).nextTimer <= handle
    ensures Firings(log, handle) == 0
  {
    hide TimersOk;
    hide Enabled;
    if log != [] {
      var past, op := log[..|log| - 1], log[|log| - 1];
      UnmintedNeverFired(start, past, handle);
      if op.Fire? {
        TimersAlways(start, past);
        FiringFollows(Run(Init(start), past), LastFired(past), op);
      }
    }
  }

  function PlanOf(start: nat, log: seq<Op>, i: nat): Plan
    requires i < |log| && log[i].Schedule?
  {
    Plan(Run(Init(start), log[..i]).now + log[i].delay, log[i].delay, log[i].repeating)
  }

  lemma PlanBegins(s: State, fired: Option<Timer>, op: Op)
    requires TimersOk(s, fired) && Enabled(s, op) && op.Schedule?
    ensures KeepsPlan(Apply(s, op), op.handle, Plan(s.now + op.delay, op.delay, op.repeating), 0)
  {
  }

  lemma {:induction false} PlanIsKept(start: nat, log: seq<Op>, i: nat)
    requires Legal(Init(start), log) && i < |log| && log[i].Schedule?
    ensures KeepsPlan(Run(Init(start), log), log[i].handle, PlanOf(start, log, i), Firings(log, log[i].handle))
  {
    hide TimersOk;
    hide KeepsPlan;
    hide Enabled;
    hide Apply;
    var past, op := log[..|log| - 1], log[|log| - 1];
    var s := Run(Init(start), past);
    TimersAlways(start, past);
    if i == |log| - 1 {
      PlanBegins(s, LastFired(past), op);
      ScheduleMints(s, op);
      UnmintedNeverFired(start, past, op.handle);
    } else {
      assert past[..i] == log[..i];
      PlanIsKept(start, past, i);
      PlanStep(s, LastFired(past), op, log[i].handle, PlanOf(start, log, i), Firings(past, log[i].handle));
    }
  }

  /**
    The schedule: firing number n (from 0) of a timer set with delay d at time
    now is due at exactly now + d + n * max(d, 1 ms), whatever else ran in
    between; and a timer that does not repeat has no firing number 1.
   */
  lemma FiresOnSchedule(start: nat, log: seq<Op>, i: nat, k: nat)
    requires Legal(Init(start), log) && i < k < |log|
    requires log[i].Schedule? && log[k].Fire? && log[k].timer.handle == log[i].handle
    ensures log[k].timer.at == Due(PlanOf(start, log, i), Firings(log[..k], log[i].handle))
    ensures log[i].repeating || Firings(log[..k], log[i].handle) == 0
  {
    hide KeepsPlan;
    hide Enabled;
    hide Apply;
    hide Due;
    hide Firings;
    LegalPrefix(Init(start), log, k);
    assert log[..k][..i] == log[..i];
    PlanIsKept(start, log[..k], i);
    FiringIsOnPlan(Run(Init(start), log[..k]), log[k], PlanOf(start, log, i), Firings(log[..k], log[i].handle));
  }

  lemma FiringIsOnPlan(s: State, op: Op, p: Plan, n: nat)
    requires Enabled(s, op) && op.Fire? && KeepsPlan(s, op.timer.handle, p, n)
    ensures op.timer.at == Due(p, n) && (p.repeating || n == 0)
  {
  }

  /** What makes the guest forget a callback: clearing it, and for one that does not repeat, firing. */
  predicate Drops(op: Op, handle: nat, repeating: bool) {
    op == Cancel(handle) || (op.Fire? && op.timer.handle == handle && !repeating)
  }

  predicate WasDropped(log: seq<Op>, i: nat)
    requires i < |log| && log[i].Schedule?
  {
    exists j :: i < j < |log| && Drops(log[j], log[i].handle, log[i].repeating)
  }

  lemma CallbackStep(s: State, fired: Option<Timer>, op: Op, handle: nat, p: Plan, n: nat)
    requires TimersOk(s, fired) && Enabled(s, op) && KeepsPlan(s, handle, p, n)
    ensures handle in Apply(s, op).callbacks <==> handle in s.callbacks && !Drops(op, handle, p.repeating)
  {
    hide Take;
    hide Without;
    hide Distinct;
    hide Due;
  }

  /**
    The guest's half, exactly: a callback is kept until it is cleared, or has
    run and does not repeat.
   */
  lemma {:induction false} CallbackLivesUntilDropped(start: nat, log: seq<Op>, i: nat)
    requires Legal(Init(start), log) && i < |log| && log[i].Schedule?
    ensures log[i].handle in Run(Init(start), log).callbacks <==> !WasDropped(log, i)
  {
    hide TimersOk;
    hide KeepsPlan;
    hide Enabled;
    hide Drops;
    hide Take;
    hide Without;
    var past, op, h := log[..|log| - 1], log[|log| - 1], log[i].handle;
    if i < |log| - 1 {
      hide Apply;
      CallbackLivesUntilDropped(start, past, i);
      TimersAlways(start, past);
      PlanIsKept(start, past, i);
      CallbackStep(Run(Init(start), past), LastFired(past), op, h, PlanOf(start, past, i), Firings(past, h));
      assert WasDropped(log, i) <==> WasDropped(past, i) || Drops(op, h, log[i].repeating) by {
        assert forall j :: 0 <= j < |past| ==> past[j] == log[j];
      }
    }
  }

  /** What ends a timer: the same, and a timeout on a timer. */
  predicate Ends(op: Op, handle: nat, repeating: bool) {
    op.ClearTimers? || Drops(op, handle, repeating)
  }

  predicate HasEnded(log: seq<Op>, i: nat)
    requires i < |log| && log[i].Schedule?
  {
    exists j :: i < j < |log| && Ends(log[j], log[i].handle, log[i].repeating)
  }

  /** An interval that is being waited for is also on the list already, due again. */
  predicate IsBackOnList(s: State) {
    s.flight.Sleeping? && s.flight.timer.period.Some? ==> Rearmed(s.flight.timer) in s.timers
  }

  lemma {:induction false} AlwaysBackOnList(start: nat, log: seq<Op>)
    requires Legal(Init(start), log)
    ensures IsBackOnList(Run(Init(start), log))
  {
    hide Enabled;
    hide Apply;
    hide TimersOk;
    if log != [] {
      var past := log[..|log| - 1];
      AlwaysBackOnList(start, past);
      TimersAlways(start, past);
      BackOnListStep(Run(Init(start), past), LastFired(past), log[|log| - 1]);
    }
  }

  lemma BackOnListStep(s: State, fired: Option<Timer>, op: Op)
    requires TimersOk(s, fired) && Enabled(s, op) && IsBackOnList(s)
    ensures IsBackOnList(Apply(s, op))
  {
    hide Take;
    hide Without;
    hide Distinct;
    if op.TakeTimer? && op.timer.period.Some? {
      TakeMembers(s.timers, op.timer, Rearmed(op.timer));
    }
  }

  lemma ArmedStep(s: State, fired: Option<Timer>, op: Op, handle: nat, p: Plan, n: nat)
    requires TimersOk(s, fired) && Enabled(s, op) && IsBackOnList(s)
    requires KeepsPlan(s, handle, p, n) && !IsDead(s, handle) && !Ends(op, handle, p.repeating)
    ensures !IsDead(Apply(s, op), handle)
  {
    hide Take;
    hide Without;
    hide Distinct;
    var s' := Apply(s, op);
    if t :| t in s.timers && t.handle == handle {
      match op {
        case Cancel(h) => WithoutMembers(s.timers, h, t);
        case TakeTimer(u) => TakeMembers(s.timers, u, t);
        case Schedule(_, _, _) => assert t in s'.timers;
        case _ =>
      }
    }
  }

  lemma EndStep(s: State, fired: Option<Timer>, op: Op, handle: nat, p: Plan, n: nat)
    requires TimersOk(s, fired) && Enabled(s, op) && KeepsPlan(s, handle, p, n) && Ends(op, handle, p.repeating)
    ensures IsDead(Apply(s, op), handle)
  {
    hide Take;
    hide Without;
    hide Distinct;
    hide IsDead;
    match op {
      case Cancel(_) => CancelKills(s, op);
      case ClearTimers(_) => ClearingKills(s, op, handle);
      case Fire(_, _) => OneShotDies(s, fired, op);
    }
  }

  /**
    The life of a timer, exactly: it is on the list, or being waited for, from
    the moment it is set until it is cleared, a drain times out on a timer, or
    it has fired and does not repeat. So none is lost, and none lingers.
   */
  lemma {:induction false} LivesUntilItEnds(start: nat, log: seq<Op>, i: nat)
    requires Legal(Init(start), log) && i < |log| && log[i].Schedule?
    ensures IsDead(Run(Init(start), log), log[i].handle) <==> HasEnded(log, i)
  {
    hide TimersOk;
    hide KeepsPlan;
    hide Enabled;
    hide Apply;
    hide IsDead;
    hide IsBackOnList;
    hide Ends;
    var past, op, h := log[..|log| - 1], log[|log| - 1], log[i].handle;
    var s := Run(Init(start), past);
    TimersAlways(start, past);
    if i == |log| - 1 {
      SetIsAlive(s, op);
    } else {
      LivesUntilItEnds(start, past, i);
      AlwaysBackOnList(start, past);
      PlanIsKept(start, past, i);
      var p, n := PlanOf(start, past, i), Firings(past, h);
      assert HasEnded(log, i) <==> HasEnded(past, i) || Ends(op, h, p.repeating) by {
        assert forall j :: 0 <= j < |past| ==> past[j] == log[j];
      }
      if Ends(op, h, p.repeating) {
        EndStep(s, LastFired(past), op, h, p, n);
      } else if IsDead(s, h) {
        DeadStep(s, LastFired(past), op, h);
      } else {
        ArmedStep(s, LastFired(past), op, h, p, n);
      }
    }
  }

  /** A worker with nothing left to wait for has kept every promise: each timer fired, or was cleared. */
  lemma NoTimerIsForgotten(start: nat, log: seq<Op>)
    requires Legal(Init(start), log)
    requires Run(Init(start), log).timers == [] && !Run(Init(start), log).flight.Sleeping?
    ensures forall i :: 0 <= i < |log| && log[i].Schedule? ==> HasEnded(log, i)
  {
    hide HasEnded;
    forall i | 0 <= i < |log| && log[i].Schedule?
      ensures HasEnded(log, i)
    {
      HandlesGrow(start, log, i);
      LivesUntilItEnds(start, log, i);
    }
  }

  /** A callback without a timer is one a timeout left behind, and nothing since has dropped. */
  lemma OrphansAreLeftByTimeouts(start: nat, log: seq<Op>, i: nat)
    requires Legal(Init(start), log) && i < |log| && log[i].Schedule?
    ensures log[i].handle in Run(Init(start), log).callbacks && IsDead(Run(Init(start), log), log[i].handle)
       <==> !WasDropped(log, i) && exists j :: i < j < |log| && log[j].ClearTimers?
  {
    hide Legal;
    hide Run;
    hide IsDead;
    LivesUntilItEnds(start, log, i);
    CallbackLivesUntilDropped(start, log, i);
    if j :| i < j < |log| && log[j].ClearTimers? {
      assert Ends(log[j], log[i].handle, log[i].repeating);
    }
  }

  lemma SetIsAlive(s: State, op: Op)
    requires Enabled(s, op) && op.Schedule?
    ensures !IsDead(Apply(s, op), op.handle)
  {
    var timers := Apply(s, op).timers;
    assert timers[|timers| - 1].handle == op.handle;
  }

  lemma {:induction false} HandleWasSet(start: nat, log: seq<Op>, handle: nat) returns (i: nat)
    requires Legal(Init(start), log) && 1 <= handle < Run(Init(start), log).nextTimer
    ensures i < |log| && log[i].Schedule? && log[i].handle == handle
  {
    var past := log[..|log| - 1];
    if handle < Run(Init(start), past).nextTimer {
      i := HandleWasSet(start, past, handle);
    } else {
      i := |log| - 1;
    }
  }

  /** Nothing fires that was not set: every firing has its call to setTimeout or setInterval before it. */
  lemma FiringWasSet(start: nat, log: seq<Op>, k: nat) returns (i: nat)
    requires Legal(Init(start), log) && k < |log| && log[k].Fire?
    ensures i < k && log[i].Schedule? && log[i].handle == log[k].timer.handle
    ensures log[i].repeating == log[k].timer.period.Some?
  {
    hide Apply;
    hide Due;
    var past := log[..k];
    LegalPrefix(Init(start), log, k);
    TimersAlways(start, past);
    FiringIsMinted(Run(Init(start), past), LastFired(past), log[k]);
    i := HandleWasSet(start, past, log[k].timer.handle);
    PlanIsKept(start, past, i);
  }

  lemma FiringIsMinted(s: State, fired: Option<Timer>, op: Op)
    requires TimersOk(s, fired) && Enabled(s, op) && op.Fire?
    ensures 1 <= op.timer.handle < s.nextTimer
  {
  }
}
