/**
  Every world keeps to the state machine: what a guest's turn, a job queue, a
  pass or a whole drain comes to is what some legal log comes to. So the
  theorems about logs are theorems about worlds.
 */
module WorldRuns {
  import opened EventLoop
  import opened DrainLoop

  /** The steps from `s` to `s'`, all of them possible, and none the beginning of a drain. */
  predicate Leads(s: State, log: seq<Op>, s': State) {
    && Legal(s, log)
    && Run(s, log) == s'
    && forall i :: 0 <= i < |log| ==> !log[i].BeginDrain?
  }

  lemma LeadsNowhere(s: State)
    ensures Leads(s, [], s)
  {
  }

  lemma LeadsOne(s: State, op: Op)
    requires Enabled(s, op) && !op.BeginDrain?
    ensures Leads(s, [op], Apply(s, op))
  {
    hide Enabled;
    hide Apply;
    LogStep(s, [], op);
    assert [] + [op] == [op];
  }

  lemma LeadsTwice(s: State, a: seq<Op>, s1: State, b: seq<Op>, s2: State)
    requires Leads(s, a, s1) && Leads(s1, b, s2)
    ensures Leads(s, a + b, s2)
  {
    hide Enabled;
    hide Apply;
    LogTwice(s, a, b);
  }

  lemma ActionIsEnabled(s: State, a: Action)
    requires s.flight.Grounded?
    ensures Enabled(s, OpOf(s, a)) && !OpOf(s, a).BeginDrain? && Apply(s, OpOf(s, a)).flight.Grounded?
  {
    hide Without;
  }

  lemma {:induction false} PlayLeads(s: State, actions: seq<Action>) returns (log: seq<Op>)
    requires s.flight.Grounded?
    ensures Leads(s, log, Play(s, actions)) && Play(s, actions).flight.Grounded?
    decreases |actions|
  {
    hide Enabled;
    hide Apply;
    hide OpOf;
    hide Leads;
    if actions == [] {
      LeadsNowhere(s);
      return [];
    }
    var op := OpOf(s, actions[0]);
    ActionIsEnabled(s, actions[0]);
    LeadsOne(s, op);
    log := PlayLeads(Apply(s, op), actions[1..]);
    LeadsTwice(s, [op], Apply(s, op), log, Play(s, actions));
    log := [op] + log;
  }

  lemma TurnLeads(w: World, s: State) returns (log: seq<Op>)
    requires s.flight.Grounded?
    ensures Leads(s, log, PlayTurn(w, s)) && PlayTurn(w, s).flight.Grounded?
  {
    log := PlayLeads(s, w.turns(s.turns).actions);
  }

  /** One step, and then the turn it begins. */
  lemma StepThenTurn(w: World, s: State, op: Op) returns (log: seq<Op>)
    requires Enabled(s, op) && !op.BeginDrain? && Apply(s, op).flight.Grounded?
    ensures Leads(s, log, PlayTurn(w, Apply(s, op))) && PlayTurn(w, Apply(s, op)).flight.Grounded?
  {
    hide Enabled;
    hide Apply;
    hide PlayTurn;
    hide Leads;
    log := TurnLeads(w, Apply(s, op));
    LeadsOne(s, op);
    LeadsTwice(s, [op], Apply(s, op), log, PlayTurn(w, Apply(s, op)));
    log := [op] + log;
  }

  lemma JobLeads(w: World, s: State) returns (log: seq<Op>)
    requires s.flight.Grounded? && s.jobs != []
    ensures Leads(s, log, JobStep(w, s)) && JobStep(w, s).flight.Grounded?
  {
    hide PlayTurn;
    hide Leads;
    hide Take;
    hide Without;
    if w.unfinished(s.polls) {
      LeadsOne(s, Rotate(s.jobs[0]));
      return [Rotate(s.jobs[0])];
    }
    log := StepThenTurn(w, s, RunJob(s.jobs[0]));
  }

  lemma {:induction false} JobsLead(w: World, s: State, cap: nat) returns (log: seq<Op>)
    requires s.flight.Grounded?
    ensures Leads(s, log, RunJobs(w, s, cap).0) && RunJobs(w, s, cap).0.flight.Grounded?
    decreases cap
  {
    hide JobStep;
    hide Leads;
    hide Take;
    hide Without;
    if s.jobs == [] {
      LeadsNowhere(s);
      return [];
    }
    if cap == 0 {
      LeadsOne(s, DropJobs(s.jobs));
      return [DropJobs(s.jobs)];
    }
    var first := JobLeads(w, s);
    log := JobsLead(w, JobStep(w, s), cap - 1);
    LeadsTwice(s, first, JobStep(w, s), log, RunJobs(w, s, cap).0);
    log := first + log;
  }

  lemma ThreeSteps(w: World, s: State, a: Op, b: Op, c: Op, turn: bool) returns (log: seq<Op>)
    requires Enabled(s, a) && Enabled(Apply(s, a), b) && Enabled(Apply(Apply(s, a), b), c)
    requires !a.BeginDrain? && !b.BeginDrain? && !c.BeginDrain?
    requires Apply(Apply(Apply(s, a), b), c).flight.Grounded?
    ensures turn ==> Leads(s, log, PlayTurn(w, Apply(Apply(Apply(s, a), b), c)))
    ensures turn ==> PlayTurn(w, Apply(Apply(Apply(s, a), b), c)).flight.Grounded?
    ensures !turn ==> Leads(s, log, Apply(Apply(Apply(s, a), b), c))
  {
    hide Enabled;
    hide Apply;
    hide PlayTurn;
    hide Leads;
    var s1, s2 := Apply(s, a), Apply(Apply(s, a), b);
    LeadsOne(s, a);
    LeadsOne(s1, b);
    LeadsTwice(s, [a], s1, [b], s2);
    if turn {
      log := StepThenTurn(w, s2, c);
      LeadsTwice(s, [a] + [b], s2, log, PlayTurn(w, Apply(s2, c)));
      log := [a] + [b] + log;
    } else {
      LeadsOne(s2, c);
      LeadsTwice(s, [a] + [b], s2, [c], Apply(s2, c));
      log := [a] + [b] + [c];
    }
  }

  lemma CallLeads(w: World, s: State) returns (log: seq<Op>)
    requires s.flight.Grounded? && s.jobs == [] && s.bindings != []
    ensures Leads(s, log, AwaitCall(w, s).state)
    ensures AwaitCall(w, s).More? ==> AwaitCall(w, s).state.flight.Grounded?
  {
    hide PlayTurn;
    hide Leads;
    hide Take;
    hide Without;
    var id := s.bindings[|s.bindings| - 1];
    var taken := Apply(s, Await(id));
    if AwaitCall(w, s).More? {
      var d := w.waits(id).value;
      log := ThreeSteps(w, s, Await(id), Elapse(d), Settle(id, id in taken.pending), true);
    } else if s.deadline.Some? {
      log := ThreeSteps(w, s, Await(id), Elapse(Budget(s)), Abandon(id), false);
    } else {
      LeadsOne(s, Await(id));
      log := [Await(id)];
    }
  }

  lemma TimerLeads(w: World, s: State) returns (log: seq<Op>)
    requires s.flight.Grounded? && s.jobs == [] && s.bindings == [] && s.timers != []
    ensures Leads(s, log, AwaitTimer(w, s).state) && AwaitTimer(w, s).state.flight.Grounded?
  {
    hide PlayTurn;
    hide Leads;
    hide Take;
    hide Without;
    hide DueFirst;
    hide IsLeast;
    var t := DueFirst(s.timers);
    var taken := Apply(s, TakeTimer(t));
    if AwaitTimer(w, s).More? {
      var wait := if s.now <= t.at then t.at - s.now + w.lag(s.turns) else 0;
      log := ThreeSteps(w, s, TakeTimer(t), Elapse(wait), Fire(t, t.handle in taken.callbacks), true);
    } else {
      LeadsOne(s, TakeTimer(t));
      LeadsOne(taken, ClearTimers(t));
      LeadsTwice(s, [TakeTimer(t)], taken, [ClearTimers(t)], AwaitTimer(w, s).state);
      log := [TakeTimer(t)] + [ClearTimers(t)];
    }
  }

  lemma PassLeads(w: World, s: State) returns (log: seq<Op>)
    requires s.flight.Grounded?
    ensures Leads(s, log, Iterate(w, s).state)
    ensures Iterate(w, s).More? ==> Iterate(w, s).state.flight.Grounded?
  {
    hide RunJobs;
    hide AwaitCall;
    hide AwaitTimer;
    hide Leads;
    hide Fifo;
    var ready := RunJobs(w, s, MAX_JOBS).0;
    var first := JobsLead(w, s, MAX_JOBS);
    CapOnlyCuts(w, s, MAX_JOBS);
    if !RunJobs(w, s, MAX_JOBS).1 || (ready.bindings == [] && ready.timers == []) {
      return first;
    }
    if ready.bindings != [] {
      log := CallLeads(w, ready);
    } else {
      log := TimerLeads(w, ready);
    }
    LeadsTwice(s, first, ready, log, Iterate(w, s).state);
    log := first + log;
  }

  /** However many passes of a drain, in whatever world, they are a run of the state machine. */
  lemma {:induction false} DrainIsARun(w: World, s: State, n: nat) returns (log: seq<Op>)
    requires s.flight.Grounded?
    ensures Leads(s, log, Loop(w, s, n).state)
    ensures Loop(w, s, n).More? ==> Loop(w, s, n).state.flight.Grounded?
    decreases n
  {
    hide Iterate;
    hide Leads;
    if n == 0 {
      LeadsNowhere(s);
      return [];
    }
    log := PassLeads(w, s);
    if Iterate(w, s).More? {
      var rest := DrainIsARun(w, Iterate(w, s).state, n - 1);
      LeadsTwice(s, log, Iterate(w, s).state, rest, Loop(w, s, n).state);
      log := log + rest;
    }
  }
}
