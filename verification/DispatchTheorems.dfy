/** Who gets which answer, over any run of a worker. */
module DispatchTheorems {
  import opened Sequences
  import opened EventLoop
  import opened Options

  /** The dispatch under way, 0 while the script loads. */
  function Current(log: seq<Op>): int {
    if log == [] then 0 else if Last(log).Dispatch? then Last(log).id else Current(Past(log))
  }

  /** Reading the log backwards to the last dispatch: the latest answer given for dispatch `n`. */
  function LastAnswer(log: seq<Op>, n: int): Option<Payload> {
    if log == [] then None
    else
      match Last(log)
      case Dispatch(_) => None
      case TakeOutcome(_) => None
      case Respond(m, payload) => if m == n then Some(payload) else LastAnswer(Past(log), n)
      case _ => LastAnswer(Past(log), n)
  }

  lemma OutcomeStep(s: State, op: Op)
    requires Enabled(s, op) && s.dispatch == s.dispatches
    ensures Apply(s, op).dispatch == Apply(s, op).dispatches == if op.Dispatch? then op.id else s.dispatch
    ensures Apply(s, op).outcome
         == match op
            case Dispatch(_) => None
            case TakeOutcome(_) => None
            case Respond(m, payload) => if m == s.dispatch then Some(payload) else s.outcome
            case _ => s.outcome
  {
    hide Take;
    hide Without;
  }

  lemma {:induction false} OutcomeIsLastAnswer(start: nat, log: seq<Op>)
    requires Legal(Init(start), log)
    ensures Run(Init(start), log).dispatch == Run(Init(start), log).dispatches == Current(log)
    ensures Run(Init(start), log).outcome == LastAnswer(log, Current(log))
  {
    hide Enabled;
    hide Apply;
    if log != [] {
      OutcomeIsLastAnswer(start, Past(log));
      OutcomeStep(Run(Init(start), Past(log)), Last(log));
    }
  }

  lemma {:induction false} LastAnswerIsSomewhere(log: seq<Op>, n: int) returns (i: nat)
    requires LastAnswer(log, n).Some?
    ensures i < |log| && log[i] == Respond(n, LastAnswer(log, n).value)
    ensures forall j :: i < j < |log|
                ==> !log[j].Dispatch? && !log[j].TakeOutcome? && !(log[j].Respond? && log[j].dispatch == n)
  {
    var op := Last(log);
    if op.Respond? && op.dispatch == n {
      assert op == Respond(n, LastAnswer(log, n).value);
      return |log| - 1;
    }
    assert LastAnswer(log, n) == LastAnswer(Past(log), n);
    i := LastAnswerIsSomewhere(Past(log), n);
  }

  lemma {:induction false} CurrentWasBegun(log: seq<Op>) returns (d: nat)
    requires Current(log) != 0
    ensures d < |log| && log[d].Dispatch? && log[d].id == Current(log)
    ensures forall j :: d < j < |log| ==> !log[j].Dispatch?
  {
    d := |log| - 1;
    if !log[d].Dispatch? {
      d := CurrentWasBegun(Past(log));
    }
  }

  /**
    Isolation: the outcome taken for dispatch n was delivered with id n, after
    dispatch n began, and it is the last such delivery. Late answers of earlier
    dispatches, outcomes a failed drain left behind and answers given while the
    script loaded never get there.
   */
  lemma OutcomeIsOwn(start: nat, log: seq<Op>, k: nat) returns (d: nat, i: nat)
    requires Legal(Init(start), log) && k < |log| && log[k].TakeOutcome? && log[k].outcome.Some?
    requires Current(log[..k]) != 0
    ensures d < i < k
    ensures log[d].Dispatch? && log[i] == Respond(log[d].id, log[k].outcome.value)
    ensures forall j :: d < j < k ==> !log[j].Dispatch?
    ensures forall j :: i < j < k ==> !log[j].TakeOutcome? && !(log[j].Respond? && log[j].dispatch == log[d].id)
  {
    hide Apply;
    var past := log[..k];
    LegalPrefix(Init(start), log, k);
    OutcomeIsLastAnswer(start, past);
    d := CurrentWasBegun(past);
    i := LastAnswerIsSomewhere(past, Current(past));
  }

  /** And it is missed only if there was none: no answer for n since n began or since the last take. */
  lemma MissingMeansUnanswered(start: nat, log: seq<Op>, k: nat, i: nat)
    requires Legal(Init(start), log) && k < |log| && log[k] == TakeOutcome(None)
    requires i < k && forall j :: i < j < k ==> !log[j].Dispatch? && !log[j].TakeOutcome?
    ensures !(log[i].Respond? && log[i].dispatch == Current(log[..k]))
  {
    hide Apply;
    var past := log[..k];
    LegalPrefix(Init(start), log, k);
    OutcomeIsLastAnswer(start, past);
    if log[i].Respond? && log[i].dispatch == Current(past) {
      AnswerIsNoticed(past, i, Current(past));
    }
  }

  lemma {:induction false} AnswerIsNoticed(log: seq<Op>, i: nat, n: int)
    requires i < |log| && log[i].Respond? && log[i].dispatch == n
    requires forall j :: i < j < |log| ==> !log[j].Dispatch? && !log[j].TakeOutcome?
    ensures LastAnswer(log, n).Some?
  {
    if i < |log| - 1 {
      AnswerIsNoticed(Past(log), i, n);
    }
  }

  /** An answer given for a dispatch that is not under way. */
  predicate IsStale(s: State, op: Op) {
    op.Respond? && op.dispatch != s.dispatch
  }

  /** The log without the answers that were stale when they were given. */
  function WithoutStale(start: nat, log: seq<Op>): seq<Op> {
    if log == [] then []
    else
      WithoutStale(start, Past(log))
      + (if IsStale(Run(Init(start), Past(log)), Last(log)) then [] else [Last(log)])
  }

  /**
    Late answers, however many and wherever they fall: had none of them been
    given, the same run would have been possible, and would have ended the same.
   */
  lemma {:induction false} StaleAnswersDoNotMatter(start: nat, log: seq<Op>)
    requires Legal(Init(start), log)
    ensures Legal(Init(start), WithoutStale(start, log))
    ensures Run(Init(start), WithoutStale(start, log)) == Run(Init(start), log)
  {
    hide Enabled;
    hide Apply;
    if log != [] {
      StaleAnswersDoNotMatter(start, Past(log));
      var rest, s := WithoutStale(start, Past(log)), Run(Init(start), Past(log));
      if IsStale(s, Last(log)) {
        StaleStep(s, Last(log));
        assert rest + [] == rest;
      } else {
        LogStep(Init(start), rest, Last(log));
      }
    }
  }

  lemma StaleStep(s: State, op: Op)
    requires IsStale(s, op)
    ensures Apply(s, op) == s
  {
  }

  lemma DispatchStep(s: State, op: Op)
    requires Enabled(s, op)
    ensures op.Dispatch? ==> op.id == s.dispatches + 1
    ensures Apply(s, op).dispatches == if op.Dispatch? then op.id else s.dispatches
  {
    hide Take;
    hide Without;
  }

  /** Dispatch ids are fresh, so an echoed id names one dispatch. */
  lemma {:induction false} DispatchIdsGrow(start: nat, log: seq<Op>, i: nat)
    requires Legal(Init(start), log) && i < |log| && log[i].Dispatch?
    ensures log[i].id <= Run(Init(start), log).dispatches
    ensures i < |log| - 1 && Last(log).Dispatch? ==> log[i].id < Last(log).id
  {
    hide Enabled;
    hide Apply;
    DispatchStep(Run(Init(start), Past(log)), Last(log));
    if i < |log| - 1 {
      DispatchIdsGrow(start, Past(log), i);
    }
  }
}
