/**
  Binding calls over any run of a worker.
 */
module CallTheorems {
  import opened Sequences
  import opened EventLoop

  /** The ids the host was handed, settled, and gave up on; and those whose parameters never left the guest. */
  function Handed(log: seq<Op>): set<nat> {
    if log == [] then {} else With(Handed(Past(log)), Last(log).Call?, Last(log))
  }

  function Settled(log: seq<Op>): set<nat> {
    if log == [] then {} else With(Settled(Past(log)), Last(log).Settle?, Last(log))
  }

  function Abandoned(log: seq<Op>): set<nat> {
    if log == [] then {} else With(Abandoned(Past(log)), Last(log).Abandon?, Last(log))
  }

  function Botched(log: seq<Op>): set<nat> {
    if log == [] then {} else With(Botched(Past(log)), Last(log).Botch?, Last(log))
  }

  function Queued(s: State): set<nat> {
    set id | id in s.bindings
  }

  function InFlight(s: State): set<nat> {
    if s.flight.Awaiting? then {s.flight.id} else {}
  }

  /** The stack of calls holds them in the order they were made. */
  predicate IsStack(s: State) {
    && (forall i, j :: 0 <= i < j < |s.bindings| ==> s.bindings[i] < s.bindings[j])
    && (forall id :: id in s.bindings ==> id < s.nextCall)
    && (s.flight.Awaiting? ==> forall id :: id in s.bindings ==> id < s.flight.id)
  }

  predicate Partition(whole: set<nat>, a: set<nat>, b: set<nat>, c: set<nat>, d: set<nat>) {
    && whole == a + b + c + d
    && a !! b && a !! c && a !! d && b !! c && b !! d && c !! d
  }

  /** What every step keeps about calls. */
  predicate CallsOk(s: State, handed: set<nat>, settled: set<nat>, abandoned: set<nat>, botched: set<nat>) {
    && IsStack(s)
    && (forall id :: id in s.pending ==> id < s.nextCall)
    && Partition(handed, settled, abandoned, Queued(s), InFlight(s))
    && Partition(s.pending, abandoned, botched, Queued(s), InFlight(s))
    && handed !! botched
    && (forall id :: id in handed ==> id < s.nextCall)
    && (forall id :: id in botched ==> id < s.nextCall)
  }

  lemma CallKeepsCalls(s: State, op: Op, handed: set<nat>, settled: set<nat>, abandoned: set<nat>, botched: set<nat>)
    requires CallsOk(s, handed, settled, abandoned, botched) && Enabled(s, op) && op.Call?
    ensures CallsOk(Apply(s, op), handed + {op.id}, settled, abandoned, botched)
  {
    hide Take;
    hide Without;
    hide Partition;
    var s' := Apply(s, op);
    var q, f := Queued(s), InFlight(s);
    assert Queued(s') == q + {op.id} && InFlight(s') == f;
    AddToThird(handed, settled, abandoned, q, f, op.id);
    AddToThird(s.pending, abandoned, botched, q, f, op.id);
    assert forall i :: 0 <= i < |s.bindings| ==> s.bindings[i] in s.bindings && s'.bindings[i] == s.bindings[i];
  }

  lemma BotchKeepsCalls(s: State, op: Op, handed: set<nat>, settled: set<nat>, abandoned: set<nat>, botched: set<nat>)
    requires CallsOk(s, handed, settled, abandoned, botched) && Enabled(s, op) && op.Botch?
    ensures CallsOk(Apply(s, op), handed, settled, abandoned, botched + {op.id})
  {
    hide Take;
    hide Without;
    hide Partition;
    var s' := Apply(s, op);
    var q, f := Queued(s), InFlight(s);
    assert Queued(s') == q && InFlight(s') == f;
    AddToSecond(s.pending, abandoned, botched, q, f, op.id);
  }

  lemma AwaitKeepsCalls(s: State, op: Op, handed: set<nat>, settled: set<nat>, abandoned: set<nat>, botched: set<nat>)
    requires CallsOk(s, handed, settled, abandoned, botched) && Enabled(s, op) && op.Await?
    ensures CallsOk(Apply(s, op), handed, settled, abandoned, botched)
  {
    hide Take;
    hide Without;
    hide Partition;
    var s' := Apply(s, op);
    var q, f := Queued(s), InFlight(s);
    assert s.bindings == s'.bindings + [op.id];
    assert q == Queued(s') + {op.id} && f == {} && InFlight(s') == {op.id} && op.id !in Queued(s');
    MoveToFourth(handed, settled, abandoned, Queued(s'), op.id);
    MoveToFourth(s.pending, abandoned, botched, Queued(s'), op.id);
  }

  lemma SettleKeepsCalls(s: State, op: Op, handed: set<nat>, settled: set<nat>, abandoned: set<nat>, botched: set<nat>)
    requires CallsOk(s, handed, settled, abandoned, botched) && Enabled(s, op) && op.Settle?
    ensures CallsOk(Apply(s, op), handed, settled + {op.id}, abandoned, botched)
  {
    hide Take;
    hide Without;
    hide Partition;
    var s' := Apply(s, op);
    var q, f := Queued(s), InFlight(s);
    assert Queued(s') == q && f == {op.id} && InFlight(s') == {};
    MoveToFirst(handed, settled, abandoned, q, op.id);
    DropFourth(s.pending, abandoned, botched, q, op.id);
  }

  lemma AbandonKeepsCalls(s: State, op: Op, handed: set<nat>, settled: set<nat>, abandoned: set<nat>, botched: set<nat>)
    requires CallsOk(s, handed, settled, abandoned, botched) && Enabled(s, op) && op.Abandon?
    ensures CallsOk(Apply(s, op), handed, settled, abandoned + {op.id}, botched)
  {
    hide Take;
    hide Without;
    hide Partition;
    var s' := Apply(s, op);
    var q, f := Queued(s), InFlight(s);
    assert Queued(s') == q && f == {op.id} && InFlight(s') == {};
    MoveToSecond(handed, settled, abandoned, q, op.id);
    MoveToFirst(s.pending, abandoned, botched, q, op.id);
  }

  function With(ids: set<nat>, isIt: bool, op: Op): set<nat>
    requires isIt ==> op.Call? || op.Settle? || op.Abandon? || op.Botch?
  {
    if isIt then ids + {op.id} else ids
  }

  lemma CallsStep(s: State, op: Op, handed: set<nat>, settled: set<nat>, abandoned: set<nat>, botched: set<nat>)
    requires CallsOk(s, handed, settled, abandoned, botched) && Enabled(s, op)
    ensures CallsOk(Apply(s, op), With(handed, op.Call?, op), With(settled, op.Settle?, op),
                    With(abandoned, op.Abandon?, op), With(botched, op.Botch?, op))
  {
    hide Take;
    hide Without;
    hide Partition;
    match op {
      case Call(_) => CallKeepsCalls(s, op, handed, settled, abandoned, botched);
      case Botch(_) => BotchKeepsCalls(s, op, handed, settled, abandoned, botched);
      case Await(_) => AwaitKeepsCalls(s, op, handed, settled, abandoned, botched);
      case Settle(_, _) => SettleKeepsCalls(s, op, handed, settled, abandoned, botched);
      case Abandon(_) => AbandonKeepsCalls(s, op, handed, settled, abandoned, botched);
      case _ => assert Queued(Apply(s, op)) == Queued(s) && InFlight(Apply(s, op)) == InFlight(s);
    }
  }

  lemma AddToThird(w: set<nat>, a: set<nat>, b: set<nat>, c: set<nat>, d: set<nat>, x: nat)
    requires Partition(w, a, b, c, d) && x !in w
    ensures Partition(w + {x}, a, b, c + {x}, d)
  {
  }

  lemma AddToSecond(w: set<nat>, a: set<nat>, b: set<nat>, c: set<nat>, d: set<nat>, x: nat)
    requires Partition(w, a, b, c, d) && x !in w
    ensures Partition(w + {x}, a, b + {x}, c, d)
  {
  }

  lemma MoveToFourth(w: set<nat>, a: set<nat>, b: set<nat>, c: set<nat>, x: nat)
    requires Partition(w, a, b, c + {x}, {}) && x !in c
    ensures Partition(w, a, b, c, {x})
  {
  }

  lemma MoveToFirst(w: set<nat>, a: set<nat>, b: set<nat>, c: set<nat>, x: nat)
    requires Partition(w, a, b, c, {x})
    ensures Partition(w, a + {x}, b, c, {})
  {
  }

  lemma MoveToSecond(w: set<nat>, a: set<nat>, b: set<nat>, c: set<nat>, x: nat)
    requires Partition(w, a, b, c, {x})
    ensures Partition(w, a, b + {x}, c, {})
  {
  }

  lemma DropFourth(w: set<nat>, a: set<nat>, b: set<nat>, c: set<nat>, x: nat)
    requires Partition(w, a, b, c, {x})
    ensures Partition(w - {x}, a, b, c, {})
  {
  }

  lemma {:induction false} CallsAlways(start: nat, log: seq<Op>)
    requires Legal(Init(start), log)
    ensures CallsOk(Run(Init(start), log), Handed(log), Settled(log), Abandoned(log), Botched(log))
  {
    hide Enabled;
    hide Apply;
    hide CallsOk;
    if log == [] {
      NoCalls(start);
    } else {
      var past := Past(log);
      CallsAlways(start, past);
      CallsStep(Run(Init(start), past), Last(log), Handed(past), Settled(past), Abandoned(past), Botched(past));
    }
  }

  lemma NoCalls(start: nat)
    ensures CallsOk(Init(start), {}, {}, {}, {})
  {
  }

  /**
    Conservation: at every moment the calls handed to the host are split, with
    no overlap, into settled, abandoned by a timeout, queued and in flight; and
    the promises the guest still holds are exactly those not settled, plus the
    calls that were never handed over.
   */
  lemma CallsAreConserved(start: nat, log: seq<Op>)
    requires Legal(Init(start), log)
    ensures Partition(Handed(log), Settled(log), Abandoned(log),
                      Queued(Run(Init(start), log)), InFlight(Run(Init(start), log)))
    ensures Partition(Run(Init(start), log).pending, Abandoned(log), Botched(log),
                      Queued(Run(Init(start), log)), InFlight(Run(Init(start), log)))
  {
    CallsAlways(start, log);
  }

  lemma SettlingIsNew(s: State, op: Op, handed: set<nat>, settled: set<nat>, abandoned: set<nat>, botched: set<nat>)
    requires CallsOk(s, handed, settled, abandoned, botched) && Enabled(s, op) && op.Settle?
    ensures op.found && op.id in handed && op.id !in settled && op.id !in abandoned
  {
  }

  lemma {:induction false} SettledRemembers(log: seq<Op>, i: nat)
    requires i < |log| && log[i].Settle?
    ensures log[i].id in Settled(log)
  {
    if i < |log| - 1 {
      SettledRemembers(Past(log), i);
    }
  }

  /** A promise is settled at most once, its entry is there when it is, and it was not given up before. */
  lemma CallsSettleOnce(start: nat, log: seq<Op>, k: nat)
    requires Legal(Init(start), log) && k < |log| && log[k].Settle?
    ensures log[k].found && log[k].id in Handed(log[..k]) && log[k].id !in Abandoned(log[..k])
    ensures forall i :: 0 <= i < k && log[i].Settle? ==> log[i].id != log[k].id
  {
    hide Enabled;
    hide Apply;
    hide CallsOk;
    var past := log[..k];
    LegalPrefix(Init(start), log, k);
    CallsAlways(start, past);
    SettlingIsNew(Run(Init(start), past), log[k], Handed(past), Settled(past), Abandoned(past), Botched(past));
    forall i | 0 <= i < k && log[i].Settle?
      ensures log[i].id != log[k].id
    {
      SettledRemembers(past, i);
    }
  }

  lemma AwaitedIsLatest(s: State, op: Op, handed: set<nat>, settled: set<nat>, abandoned: set<nat>, botched: set<nat>, id: nat)
    requires CallsOk(s, handed, settled, abandoned, botched) && Enabled(s, op) && op.Await?
    requires id in handed && op.id < id
    ensures id in settled || id in abandoned
  {
    assert id !in Queued(s) by {
      if id in s.bindings {
        var i :| 0 <= i < |s.bindings| && s.bindings[i] == id;
      }
    }
  }

  /** Stack discipline: the call taken next is the latest one still queued, not the oldest. */
  lemma LatestCallFirst(start: nat, log: seq<Op>, k: nat, id: nat)
    requires Legal(Init(start), log) && k < |log| && log[k].Await?
    requires id in Handed(log[..k]) && log[k].id < id
    ensures id in Settled(log[..k]) || id in Abandoned(log[..k])
  {
    hide Enabled;
    hide Apply;
    hide CallsOk;
    var past := log[..k];
    LegalPrefix(Init(start), log, k);
    CallsAlways(start, past);
    AwaitedIsLatest(Run(Init(start), past), log[k], Handed(past), Settled(past), Abandoned(past), Botched(past), id);
  }

  lemma {:induction false} CallIdsGrow(start: nat, log: seq<Op>, i: nat)
    requires Legal(Init(start), log) && i < |log| && (log[i].Call? || log[i].Botch?)
    ensures log[i].id < Run(Init(start), log).nextCall
  {
    hide Take;
    hide Without;
    if i < |log| - 1 {
      CallIdsGrow(start, Past(log), i);
    }
  }

  /** Ids are never reused. */
  lemma CallIdsAreFresh(start: nat, log: seq<Op>, i: nat, j: nat)
    requires Legal(Init(start), log) && i < j < |log|
    requires (log[i].Call? || log[i].Botch?) && (log[j].Call? || log[j].Botch?)
    ensures log[i].id < log[j].id
  {
    hide Apply;
    LegalPrefix(Init(start), log, j);
    CallIdsGrow(start, log[..j], i);
  }

  predicate Unbounded(log: seq<Op>) {
    forall i :: 0 <= i < |log| && log[i].BeginDrain? ==> log[i].deadline.None?
  }

  lemma {:induction false} NothingAbandoned(start: nat, log: seq<Op>)
    requires Legal(Init(start), log) && Unbounded(log)
    ensures Run(Init(start), log).deadline.None? && Abandoned(log) == {}
  {
    hide Take;
    hide Without;
    if log != [] {
      assert Last(log) == log[|log| - 1];
      assert forall i :: 0 <= i < |Past(log)| ==> Past(log)[i] == log[i];
      NothingAbandoned(start, Past(log));
    }
  }

  /** With no deadline, once no call is queued or in flight, every call handed over has been settled. */
  lemma EveryCallIsSettled(start: nat, log: seq<Op>)
    requires Legal(Init(start), log) && Unbounded(log)
    requires Run(Init(start), log).bindings == [] && Run(Init(start), log).flight.Grounded?
    ensures Settled(log) == Handed(log)
  {
    hide Enabled;
    hide Apply;
    CallsAlways(start, log);
    NothingAbandoned(start, log);
  }
}
