// What the API's two unconditional status writes do to the outcomes, input by input.

module LifecycleOverrides {
  import opened Lifecycle
  import opened LifecycleProgress

  const NOT_FOUND: Response := Response(false, 404)

  /** A run that ends in s, and one step more. */
  lemma OneMore(run: seq<Step>, s: System, step: Step) returns (longer: seq<Step>)
    requires ReachedBy(s, run) && Enabled(s, step, true)
    ensures longer == run + [step] && ReachedBy(Apply(s, step, true), longer)
  {
    RunExtend(START, run, step, true);
    longer := run + [step];
  }

  /** One published delivery, and nothing else. */
  lemma Published() returns (run: seq<Step>)
    ensures ReachedBy(Waiting([]), run)
  {
    CrashesNeverTerminate(0);
    run := CrashCycles(0);
  }

  /** Its task, past the guard. */
  lemma PastTheGuard() returns (run: seq<Step>)
    ensures ReachedBy(Working(Task(0, 0, 1, 1, Cleared), []), run)
  {
    run := Published();
    CycleStarts(Task(0, 0, 1, 1, Claimed), []);
    run := OneMore(run, Waiting([]), Claim(0, 0));
    run := OneMore(run, Working(Task(0, 0, 1, 1, Claimed), []), CheckDelivered(0));
  }

  /** A test key on a queued delivery: row and delivery end as delivered, and there
      was no delivery call at all. */
  lemma TestKeyDelivers() returns (run: seq<Step>)
    ensures CanRun(START, run, true)
    ensures var s := After(START, run, true);
      && s.db.deliveries == map[0 := Delivered] && s.db.queue == map[0 := Row(0, RowDelivered, 0, 1)]
      && s.log == [TestMarked(0)]
  {
    run := Published();
    var s1 := Apply(Waiting([]), MarkTest(0), true);
    run := OneMore(run, Waiting([]), MarkTest(0));
    var s2 := Apply(s1, Claim(0, 0), true);
    run := OneMore(run, s1, Claim(0, 0));
    var s3 := Apply(s2, CheckDelivered(0), true);
    run := OneMore(run, s2, CheckDelivered(0));
    run := OneMore(run, s3, SkipDelivered(0, true));
  }

  /** A test key that comes when the task has passed the guard: the delivery is called
      for after it was marked as delivered, and ends as failed. */
  lemma TestKeyTooLate() returns (run: seq<Step>, more: seq<Step>)
    ensures CanRun(START, run, true) && CanRun(After(START, run, true), more, true)
    ensures var s := After(START, run, true);
      var s' := After(s, more, true);
      && s.db.deliveries == map[0 := Delivered] && s.log == [TestMarked(0)]
      && s'.db.deliveries == map[0 := Failed] && s'.log == s.log + [Call(0, 0, 1, NOT_FOUND)]
      && Records(s'.db.deadLetters, 0) == [1]
  {
    run := PastTheGuard();
    var s0 := Working(Task(0, 0, 1, 1, Cleared), []);
    run := OneMore(run, s0, MarkTest(0));
    var s := Apply(s0, MarkTest(0), true);
    RunExtend(s, [], Send(0, NOT_FOUND), true);
    more := [] + [Send(0, NOT_FOUND)];
    RunExtend(s, more, Settle(0, true), true);
    more := more + [Settle(0, true)];
  }

  /** A publish that fails: the delivery is failed and has neither row nor record. */
  lemma PublishFailsUnrecorded() returns (run: seq<Step>)
    ensures CanRun(START, run, true)
    ensures var s := After(START, run, true);
      s.db.deliveries == map[0 := Failed] && s.db.queue == map[] && Records(s.db.deadLetters, 0) == []
  {
    RunExtend(START, [], Accept(0), true);
    run := [] + [Accept(0)];
    RunExtend(START, run, PublishFails(0), true);
    run := run + [PublishFails(0)];
  }

  /** A publish that took effect but was reported as failed: the report overwrites the
      success that the worker has recorded meanwhile. */
  lemma PublishFailsOverSuccess() returns (run: seq<Step>)
    ensures CanRun(START, run, true)
    ensures var s := After(START, run, true);
      && s.db.deliveries == map[0 := Failed] && Records(s.db.deadLetters, 0) == []
      && s.db.queue == map[0 := Row(0, RowDelivered, 1, 1)] && Observed(s.log, 0)
  {
    run := PastTheGuard();
    var s0 := Working(Task(0, 0, 1, 1, Cleared), []);
    CycleSends(Task(0, 0, 1, 1, Cleared), []);
    run := OneMore(run, s0, Send(0, OK));
    var s1 := Apply(s0, Send(0, OK), true);
    run := OneMore(run, s1, Settle(0, true));
    var s2 := Apply(s1, Settle(0, true), true);
    run := OneMore(run, s2, PublishFails(0));
    assert s2.log == [] + [Call(0, 0, 1, OK)] && s2.log[0].answer.success;
    assert Apply(s2, PublishFails(0), true).log[0] == Call(0, 0, 1, OK);
  }

  /** The row is pending, and the mark of a test key has been overwritten. */
  lemma MarkedThenFailed() returns (run: seq<Step>, s: System)
    ensures ReachedBy(s, run)
    ensures s == Waiting([TestMarked(0), PublishFailed(0)]).(db := s.db)
    ensures s.db == Waiting([]).db.(deliveries := map[0 := Failed])
  {
    run := Published();
    var s1 := Apply(Waiting([]), MarkTest(0), true);
    run := OneMore(run, Waiting([]), MarkTest(0));
    s := Apply(s1, PublishFails(0), true);
    run := OneMore(run, s1, PublishFails(0));
  }

  /** A failed publish undoes a test key's mark before the guard can see it. */
  lemma PublishFailsUndoesMark() returns (run: seq<Step>)
    ensures CanRun(START, run, true)
    ensures After(START, run, true).log == [TestMarked(0), PublishFailed(0), Call(0, 0, 1, OK)]
  {
    var s2;
    run, s2 := MarkedThenFailed();
    var s3 := Apply(s2, Claim(0, 0), true);
    run := OneMore(run, s2, Claim(0, 0));
    var s4 := Apply(s3, CheckDelivered(0), true);
    run := OneMore(run, s3, CheckDelivered(0));
    run := OneMore(run, s4, Send(0, OK));
  }
}
