/** The job queue over any run of a worker. */
module JobTheorems {
  import opened Sequences
  import opened EventLoop

  function Enqueued(log: seq<Op>): seq<Job> {
    if log == [] then [] else Enqueued(Past(log)) + Arrived(Last(log))
  }

  /** Jobs that left the queue, run or dropped at the cap, in the order they left. */
  function Departed(log: seq<Op>): seq<Job> {
    if log == [] then [] else Departed(Past(log)) + Left(Last(log))
  }

  predicate NoRotation(log: seq<Op>) {
    forall i :: 0 <= i < |log| ==> !log[i].Rotate?
  }

  lemma QueueStep(s: State, op: Op)
    requires Enabled(s, op)
    ensures op.Enqueue? ==> Apply(s, op).jobs == s.jobs + [op.job]
    ensures op.RunJob? ==> s.jobs == [op.job] + Apply(s, op).jobs
    ensures op.Rotate? ==> s.jobs != [] && s.jobs == [op.job] + s.jobs[1..] && Apply(s, op).jobs == s.jobs[1..] + [op.job]
    ensures op.DropJobs? ==> s.jobs == op.lost && Apply(s, op).jobs == []
    ensures !op.Enqueue? && !op.RunJob? && !op.Rotate? && !op.DropJobs? ==> Apply(s, op).jobs == s.jobs
  {
    hide Take;
    hide Without;
  }

  /** No job is lost or run twice, even when unfinished ones go to the back of the queue. */
  lemma {:induction false} JobsAreConserved(start: nat, log: seq<Op>)
    requires Legal(Init(start), log)
    ensures multiset(Enqueued(log)) == multiset(Departed(log)) + multiset(Run(Init(start), log).jobs)
  {
    hide Enabled;
    hide Apply;
    if log != [] {
      JobsAreConserved(start, Past(log));
      var s, op := Run(Init(start), Past(log)), Last(log);
      QueueCounts(s, op, Apply(s, op));
      Conserve(Enqueued(Past(log)), Departed(Past(log)), s.jobs, op, Apply(s, op).jobs);
    }
  }

  lemma Conserve(came: seq<Job>, gone: seq<Job>, before: seq<Job>, op: Op, after: seq<Job>)
    requires multiset(came) == multiset(gone) + multiset(before)
    requires multiset(before) + multiset(Arrived(op)) == multiset(Left(op)) + multiset(after)
    ensures multiset(came + Arrived(op)) == multiset(gone + Left(op)) + multiset(after)
  {
    hide Arrived;
    hide Left;
    assert multiset(came + Arrived(op)) == multiset(came) + multiset(Arrived(op));
    assert multiset(gone + Left(op)) == multiset(gone) + multiset(Left(op));
    Balance(multiset(came), multiset(gone), multiset(before), multiset(Arrived(op)), multiset(Left(op)), multiset(after));
  }

  lemma Balance<T>(came: multiset<T>, gone: multiset<T>, before: multiset<T>,
                   arrived: multiset<T>, left: multiset<T>, after: multiset<T>)
    requires came == gone + before && before + arrived == left + after
    ensures came + arrived == gone + left + after
  {
    assert came + arrived == gone + (before + arrived);
    assert gone + left + after == gone + (left + after);
  }

  function Arrived(op: Op): seq<Job> {
    if op.Enqueue? then [op.job] else []
  }

  function Left(op: Op): seq<Job> {
    match op case RunJob(job) => [job] case DropJobs(lost) => lost case _ => []
  }

  lemma QueueCounts(s: State, op: Op, s': State)
    requires Enabled(s, op) && s' == Apply(s, op)
    ensures multiset(s.jobs) + multiset(Arrived(op)) == multiset(Left(op)) + multiset(s'.jobs)
  {
    hide Enabled;
    hide Apply;
    QueueStep(s, op);
    if op.Rotate? {
      var rest := s.jobs[1..];
      assert multiset(s.jobs) == multiset([op.job]) + multiset(rest);
      assert multiset(s'.jobs) == multiset(rest) + multiset([op.job]);
    }
  }

  lemma QueueMoves(gone: seq<Job>, before: seq<Job>, op: Op, after: seq<Job>)
    requires op.Enqueue? ==> after == before + [op.job]
    requires op.RunJob? ==> before == [op.job] + after
    requires op.DropJobs? ==> before == op.lost && after == []
    requires !op.Enqueue? && !op.RunJob? && !op.DropJobs? ==> after == before
    ensures gone + before + Arrived(op) == gone + Left(op) + after
  {
  }

  /** First in, first out: with every job finished, what left the queue and then what is in it is what came in. */
  lemma {:induction false} JobsAreFifo(start: nat, log: seq<Op>)
    requires Legal(Init(start), log) && NoRotation(log)
    ensures Enqueued(log) == Departed(log) + Run(Init(start), log).jobs
  {
    hide Enabled;
    hide Apply;
    if log != [] {
      assert Last(log) == log[|log| - 1];
      assert forall i :: 0 <= i < |Past(log)| ==> Past(log)[i] == log[i];
      JobsAreFifo(start, Past(log));
      var s, op := Run(Init(start), Past(log)), Last(log);
      QueueStep(s, op);
      QueueMoves(Departed(Past(log)), s.jobs, op, Apply(s, op).jobs);
    }
  }
}
