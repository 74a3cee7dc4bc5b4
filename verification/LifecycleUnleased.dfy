// What still holds when the reaper may fire on a row that a slow task holds,
// and what does not.

module LifecycleUnleased {
  import opened Lifecycle
  import opened LifecycleEffects
  import opened LifecycleLease

  // ------------------------------------------------ invariants without a lease

  predicate TaskSane(s: System, k: Task) {
    && k.row in s.issued && s.issued[k.row] == Ticket(k.delivery, k.limit)
    && k.delivery in s.db.deliveries
  }

  predicate RowSane(s: System, q: QueueId, row: Row) {
    && q in s.issued && s.issued[q] == Ticket(row.delivery, row.limit)
    && row.delivery in s.db.deliveries && row.limit >= 1
    && (row.status == RowDeadLetter ==> Records(s.db.deadLetters, row.delivery) != [])
  }

  ghost predicate Sane(s: System) {
    && (forall t :: t in s.tasks ==> TaskSane(s, s.tasks[t]))
    && (forall q :: q in s.db.queue ==> RowSane(s, q, s.db.queue[q]))
    && (forall d :: d in s.db.deliveries && s.db.deliveries[d] == Failed ==> Explained(s, d))
  }

  /** A failed delivery has a dead letter, or its publish was reported as failed. */
  predicate Explained(s: System, d: DeliveryId) {
    Records(s.db.deadLetters, d) != [] || Unpublished(s.log, d)
  }

  /** A success was observed, or a test key marked the delivery. */
  ghost predicate Evident(log: seq<Event>, d: DeliveryId) {
    Observed(log, d) || Marked(log, d)
  }

  /** Whatever claims a success has the evidence in the log. */
  ghost predicate Honest(s: System) {
    && (forall t :: t in s.tasks && ClaimsSuccess(s.tasks[t].phase) ==> Evident(s.log, s.tasks[t].delivery))
    && (forall q :: q in s.db.queue && s.db.queue[q].status == RowDelivered ==> Evident(s.log, s.db.queue[q].delivery))
    && (forall d :: d in s.db.deliveries && s.db.deliveries[d] == Delivered ==> Evident(s.log, d))
  }

  predicate ClaimsSuccess(phase: Phase) {
    phase == SawDelivered || (phase.Sent? && phase.response.success)
  }

  lemma EvidenceGrows(log: seq<Event>, e: Event)
    ensures forall d :: Evident(log, d) ==> Evident(log + [e], d)
    ensures forall d :: Unpublished(log, d) ==> Unpublished(log + [e], d)
    ensures e.Call? && e.answer.success ==> Evident(log + [e], e.delivery)
    ensures e.TestMarked? ==> Evident(log + [e], e.delivery)
    ensures e.PublishFailed? ==> Unpublished(log + [e], e.delivery)
  {
    assert e in log + [e] && forall x :: x in log ==> x in log + [e];
    forall d | Observed(log, d) ensures Observed(log + [e], d) {
      var w :| w in log && w.Call? && w.delivery == d && w.answer.success;
      assert w in log + [e];
    }
  }

  lemma EndKeepsSane(s: System, t: TaskId, s': System)
    requires Sane(s) && t in s.tasks && s'.tasks == s.tasks - {t} && s'.issued == s.issued
    requires forall d :: Unpublished(s.log, d) ==> Unpublished(s'.log, d)
    requires var k := s.tasks[t];
      && Touches(s.db, s'.db, k.row, k.delivery) && k.delivery in s'.db.deliveries
      && (k.row in s.db.queue ==> SameRow(s.db, s'.db, k.row))
      && |Records(s'.db.deadLetters, k.delivery)| >= |Records(s.db.deadLetters, k.delivery)|
      && (k.row in s'.db.queue && s'.db.queue[k.row].status == RowDeadLetter ==>
            Records(s'.db.deadLetters, k.delivery) != [])
      && (s'.db.deliveries[k.delivery] == Failed ==> Explained(s', k.delivery))
    ensures Sane(s')
  {
    var k := s.tasks[t];
    assert TaskSane(s, k);
    forall u | u in s'.tasks ensures TaskSane(s', s'.tasks[u]) {
      assert TaskSane(s, s.tasks[u]);
    }
    forall q | q in s'.db.queue ensures RowSane(s', q, s'.db.queue[q]) {
      assert RowSane(s, q, s.db.queue[q]);
    }
  }

  lemma SettleKeepsSane(s: System, t: TaskId, commits: bool)
    requires Sane(s) && Enabled(s, Settle(t, commits), false)
    ensures Sane(Apply(s, Settle(t, commits), false))
  {
    var k := s.tasks[t];
    assert TaskSane(s, k);
    assert k.row in s.db.queue ==> RowSane(s, k.row, s.db.queue[k.row]);
    SettleEffect(s.db, k, k.phase.response);
    EndKeepsSane(s, t, Apply(s, Settle(t, commits), false));
  }

  lemma UnsignableKeepsSane(s: System, t: TaskId, commits: bool)
    requires Sane(s) && Enabled(s, MissingSecret(t, commits), false)
    ensures Sane(Apply(s, MissingSecret(t, commits), false))
  {
    var k := s.tasks[t];
    assert TaskSane(s, k);
    assert k.row in s.db.queue ==> RowSane(s, k.row, s.db.queue[k.row]);
    MissingSecretEffect(s.db, k.row, k.delivery, k.attempt);
    EndKeepsSane(s, t, Apply(s, MissingSecret(t, commits), false));
  }

  lemma StepKeepsSane(s: System, step: Step)
    requires Sane(s) && Enabled(s, step, false)
    ensures Sane(Apply(s, step, false))
  {
    if step.Settle? {
      SettleKeepsSane(s, step.t, step.commits);
    } else if step.MissingSecret? {
      UnsignableKeepsSane(s, step.t, step.commits);
    } else {
      RestKeepsTasksSane(s, step);
      RestKeepsRowsSane(s, step);
      RestKeepsExplained(s, step);
    }
  }

  lemma RestKeepsTasksSane(s: System, step: Step)
    requires Sane(s) && Enabled(s, step, false) && !step.Settle? && !step.MissingSecret?
    ensures var s' := Apply(s, step, false); forall u :: u in s'.tasks ==> TaskSane(s', s'.tasks[u])
  {
    var s' := Apply(s, step, false);
    forall u | u in s'.tasks ensures TaskSane(s', s'.tasks[u]) {
      if u in s.tasks {
        assert TaskSane(s, s.tasks[u]);
      } else {
        assert RowSane(s, step.q, s.db.queue[step.q]);
      }
    }
  }

  lemma InsertKeepsRowsSane(s: System, q: QueueId, d: DeliveryId, limit: nat)
    requires Sane(s) && q !in s.issued && d in s.db.deliveries && limit >= 1
    ensures var s' := InsertRow(s, q, d, limit); forall p :: p in s'.db.queue ==> RowSane(s', p, s'.db.queue[p])
  {
    var s' := InsertRow(s, q, d, limit);
    forall p | p in s'.db.queue ensures RowSane(s', p, s'.db.queue[p]) {
      assert p != q ==> RowSane(s, p, s.db.queue[p]);
    }
  }

  lemma RestKeepsRowsSane(s: System, step: Step)
    requires Sane(s) && Enabled(s, step, false) && !step.Settle? && !step.MissingSecret?
    ensures var s' := Apply(s, step, false); forall q :: q in s'.db.queue ==> RowSane(s', q, s'.db.queue[q])
  {
    if step.Publish? {
      InsertKeepsRowsSane(s, step.q, step.d, step.limit);
    } else if step.ReapOrphan? {
      InsertKeepsRowsSane(s, step.q, step.d, DEFAULT_MAX_ATTEMPTS);
    } else {
      var s' := Apply(s, step, false);
      forall q | q in s'.db.queue ensures RowSane(s', q, s'.db.queue[q]) {
        assert RowSane(s, q, s.db.queue[q]);
      }
    }
  }

  lemma RestKeepsExplained(s: System, step: Step)
    requires Sane(s) && Enabled(s, step, false) && !step.Settle? && !step.MissingSecret?
    ensures var s' := Apply(s, step, false);
      forall d :: d in s'.db.deliveries && s'.db.deliveries[d] == Failed ==> Explained(s', d)
  {
    var s' := Apply(s, step, false);
    assert forall d :: Unpublished(s.log, d) ==> Unpublished(s'.log, d);
    assert step.Reap? ==> RowSane(s, step.q, s.db.queue[step.q]);
    assert step.PublishFails? ==> PublishFailed(step.d) in s'.log;
  }

  lemma SettleKeepsHonest(s: System, t: TaskId, commits: bool)
    requires Sane(s) && Honest(s) && Enabled(s, Settle(t, commits), false)
    ensures Honest(Apply(s, Settle(t, commits), false))
  {
    var s' := Apply(s, Settle(t, commits), false);
    var k := s.tasks[t];
    assert TaskSane(s, k);
    assert k.row in s.db.queue ==> RowSane(s, k.row, s.db.queue[k.row]);
    SettleEffect(s.db, k, k.phase.response);
    if !commits {
      EvidenceGrows(s.log, CommitFailed(k.row, true));
    }
  }

  lemma EndKeepsHonest(s: System, step: Step, t: TaskId)
    requires Sane(s) && Honest(s) && Enabled(s, step, false)
    requires step.SkipDelivered? || step.Requeue? || step.MissingSecret? || step.Crash?
    requires t == step.t
    ensures Honest(Apply(s, step, false))
  {
    var k := s.tasks[t];
    assert TaskSane(s, k);
    assert k.row in s.db.queue ==> RowSane(s, k.row, s.db.queue[k.row]);
    EvidenceGrows(s.log, CommitFailed(k.row, false));
    EvidenceGrows(s.log, Crashed(k.row, k.phase.Sent?));
  }

  lemma StepKeepsHonest(s: System, step: Step)
    requires Sane(s) && Honest(s) && Enabled(s, step, false)
    ensures Honest(Apply(s, step, false))
  {
    if step.Settle? {
      SettleKeepsHonest(s, step.t, step.commits);
    } else if step.SkipDelivered? || step.Requeue? || step.MissingSecret? || step.Crash? {
      EndKeepsHonest(s, step, step.t);
    } else if step.Send? {
      var k := s.tasks[step.t];
      EvidenceGrows(s.log, Call(k.row, k.delivery, k.attempt, step.r));
    } else if step.MarkTest? {
      EvidenceGrows(s.log, TestMarked(step.d));
    } else if step.PublishFails? {
      EvidenceGrows(s.log, PublishFailed(step.d));
    }
  }

  lemma {:induction false} RunKeepsSane(s: System, steps: seq<Step>)
    requires Sane(s) && Honest(s) && CanRun(s, steps, false)
    ensures Sane(After(s, steps, false)) && Honest(After(s, steps, false))
    decreases |steps|
  {
    if steps != [] {
      StepKeepsSane(s, steps[0]);
      StepKeepsHonest(s, steps[0]);
      RunKeepsSane(Apply(s, steps[0], false), steps[1..]);
    }
  }

  /** No false outcome, in any run, lease or no lease: what is delivered was answered
      with success or marked by a test key, and what failed has its dead letter or a
      publish that was reported as failed. A dead-lettered row always has its record. */
  lemma NoFalseOutcome(steps: seq<Step>)
    requires CanRun(START, steps, false)
    ensures var s := After(START, steps, false);
      && (forall q :: q in s.db.queue && s.db.queue[q].status == RowDelivered ==>
            Observed(s.log, s.db.queue[q].delivery) || Marked(s.log, s.db.queue[q].delivery))
      && (forall d :: d in s.db.deliveries && s.db.deliveries[d] == Delivered ==>
            Observed(s.log, d) || Marked(s.log, d))
      && (forall q :: q in s.db.queue && s.db.queue[q].status == RowDeadLetter ==>
            Records(s.db.deadLetters, s.db.queue[q].delivery) != [])
      && (forall d :: d in s.db.deliveries && s.db.deliveries[d] == Failed ==>
            Records(s.db.deadLetters, d) != [] || Unpublished(s.log, d))
  {
    RunKeepsSane(START, steps);
    var s := After(START, steps, false);
    forall q | q in s.db.queue && s.db.queue[q].status == RowDeadLetter
      ensures Records(s.db.deadLetters, s.db.queue[q].delivery) != []
    {
      assert RowSane(s, q, s.db.queue[q]);
    }
  }

  // ---------------------------------------- active rows below the attempt limit

  ghost predicate BelowLimit(s: System) {
    forall q :: q in s.db.queue && s.db.queue[q].Active() ==> s.db.queue[q].attempts < s.db.queue[q].limit
  }

  /** The requeue arms write status = 'pending' without looking at the row: on a
      row that another task has meanwhile brought to its limit, that revives it. */
  predicate RevivesSpentRow(s: System, step: Step) {
    && step.Requeue? && step.writes && step.t in s.tasks
    && s.tasks[step.t].row in s.db.queue
    && s.db.queue[s.tasks[step.t].row].attempts >= s.db.queue[s.tasks[step.t].row].limit
  }

  lemma SettleBelowLimit(s: System, t: TaskId, commits: bool)
    requires Sane(s) && BelowLimit(s) && Enabled(s, Settle(t, commits), false)
    ensures BelowLimit(Apply(s, Settle(t, commits), false))
  {
    var k := s.tasks[t];
    assert TaskSane(s, k);
    assert k.row in s.db.queue ==> RowSane(s, k.row, s.db.queue[k.row]);
    SettleEffect(s.db, k, k.phase.response);
  }

  /** A step keeps every active row below its limit exactly when it is not such a
      requeue. In particular every step of the reaper and of the outcome arms does. */
  lemma BelowLimitExactly(s: System, step: Step)
    requires Sane(s) && BelowLimit(s) && Enabled(s, step, false)
    ensures BelowLimit(Apply(s, step, false)) <==> !RevivesSpentRow(s, step)
  {
    var s' := Apply(s, step, false);
    match step
    case Settle(t, commits) => SettleBelowLimit(s, t, commits);
    case Requeue(t, writes) =>
      if RevivesSpentRow(s, step) {
        assert s'.db.queue[s.tasks[t].row].Active();
      }
    case _ =>
  }

  /** While rows are below their limit, the reaper's dead-letter arm cannot fire. */
  lemma ReaperOnlyResets(s: System, q: QueueId)
    requires BelowLimit(s) && Enabled(s, Reap(q), false)
    ensures Apply(s, Reap(q), false) == s.(db := SetStatus(s.db, q, RowPending))
  {
  }

  ghost predicate BelowLimitThroughout(s: System, steps: seq<Step>)
    requires CanRun(s, steps, false)
    decreases |steps|
  {
    BelowLimit(s) && (steps != [] ==> BelowLimitThroughout(Apply(s, steps[0], false), steps[1..]))
  }

  predicate NeverRevives(s: System, steps: seq<Step>)
    requires CanRun(s, steps, false)
    decreases |steps|
  {
    steps != [] ==> !RevivesSpentRow(s, steps[0]) && NeverRevives(Apply(s, steps[0], false), steps[1..])
  }

  /** Over whole runs: active rows stay below the limit exactly in the runs that
      never revive a spent row. */
  lemma {:induction false} BelowLimitRuns(s: System, steps: seq<Step>)
    requires Sane(s) && BelowLimit(s) && CanRun(s, steps, false)
    ensures BelowLimitThroughout(s, steps) <==> NeverRevives(s, steps)
    decreases |steps|
  {
    if steps != [] {
      BelowLimitExactly(s, steps[0]);
      StepKeepsSane(s, steps[0]);
      if !RevivesSpentRow(s, steps[0]) {
        BelowLimitRuns(Apply(s, steps[0], false), steps[1..]);
      }
    }
  }

  /** The lease hypothesis rules such a requeue out. */
  lemma LeaseNeverRevives(s: System, step: Step)
    requires Safe(s) && Enabled(s, step, true)
    ensures !RevivesSpentRow(s, step)
  {
    if step.Requeue? {
      assert Owns(s.db, s.tasks[step.t]);
      assert RowAgrees(s.db, s.db.queue[s.tasks[step.t].row]);
    }
  }

  // ----------------------------------------------- two tasks on one row: what breaks

  /** Two tasks hold the same row because the reaper reset it under the first. */
  function TwoTasks(first: Phase, second: Phase, log: seq<Event>): System {
    OneRow(RowProcessing, map[0 := Task(0, 0, 1, 1, first), 1 := Task(0, 0, 1, 1, second)], log)
  }

  const ERROR: Response := Response(false, 500)

  const SHARE: seq<Step> :=
    [Accept(0), Publish(0, 0, 1), Claim(0, 0), Reap(0), Claim(1, 0), CheckDelivered(0), CheckDelivered(1)]

  lemma OneClaim()
    ensures CanRun(START, SHARE[..3], false)
    ensures After(START, SHARE[..3], false) == OneRow(RowProcessing, map[0 := Task(0, 0, 1, 1, Claimed)], [])
  {
    RunExtend(START, [], Accept(0), false);
    var r1 := [] + [Accept(0)];
    RunExtend(START, r1, Publish(0, 0, 1), false);
    var r2 := r1 + [Publish(0, 0, 1)];
    assert After(START, r2, false) == OneRow(RowPending, map[], []);
    RunExtend(START, r2, Claim(0, 0), false);
    assert r2 + [Claim(0, 0)] == SHARE[..3];
  }

  lemma SharedClaims()
    ensures CanRun(START, SHARE[..5], false)
    ensures After(START, SHARE[..5], false) == TwoTasks(Claimed, Claimed, [])
  {
    OneClaim();
    RunExtend(START, SHARE[..3], Reap(0), false);
    var r4 := SHARE[..3] + [Reap(0)];
    assert After(START, r4, false) == OneRow(RowPending, map[0 := Task(0, 0, 1, 1, Claimed)], []);
    RunExtend(START, r4, Claim(1, 0), false);
    assert r4 + [Claim(1, 0)] == SHARE[..5];
  }

  lemma SharedRow()
    ensures CanRun(START, SHARE, false)
    ensures After(START, SHARE, false) == TwoTasks(Cleared, Cleared, [])
  {
    SharedClaims();
    RunExtend(START, SHARE[..5], CheckDelivered(0), false);
    assert After(START, SHARE[..5] + [CheckDelivered(0)], false) == TwoTasks(Cleared, Claimed, []);
    RunExtend(START, SHARE[..5] + [CheckDelivered(0)], CheckDelivered(1), false);
    assert SHARE[..5] + [CheckDelivered(0)] + [CheckDelivered(1)] == SHARE;
  }

  lemma BothSettle(log: seq<Event>)
    ensures var s := TwoTasks(Sent(ERROR), Sent(OK), log);
      && CanRun(s, [Settle(0, true), Settle(1, true)], false)
      && var s' := After(s, [Settle(0, true), Settle(1, true)], false);
      && s'.log == log && s'.issued == s.issued
      && s'.db.deliveries == map[0 := Delivered]
      && Records(s'.db.deadLetters, 0) == [1] && Records(s'.db.attempts, 0) == [1, 1]
  {
    var s := TwoTasks(Sent(ERROR), Sent(OK), log);
    var s1 := Apply(s, Settle(0, true), false);
    RunExtend(s, [], Settle(0, true), false);
    assert [] + [Settle(0, true)] == [Settle(0, true)];
    RunExtend(s, [Settle(0, true)], Settle(1, true), false);
    assert [Settle(0, true)] + [Settle(1, true)] == [Settle(0, true), Settle(1, true)];
  }

  /** Both tasks make their calls. */
  lemma BothCall() returns (run: seq<Step>)
    ensures CanRun(START, run, false)
    ensures After(START, run, false)
            == TwoTasks(Sent(ERROR), Sent(OK), [] + [Call(0, 0, 1, ERROR)] + [Call(0, 0, 1, OK)])
  {
    SharedRow();
    RunExtend(START, SHARE, Send(0, ERROR), false);
    run := SHARE + [Send(0, ERROR)];
    assert After(START, run, false) == TwoTasks(Sent(ERROR), Cleared, [] + [Call(0, 0, 1, ERROR)]);
    RunExtend(START, run, Send(1, OK), false);
    run := run + [Send(1, OK)];
  }

  /** Without the lease: two delivery calls for a row limited to one, with no fault; a
      delivery that is both delivered and dead-lettered; and a repeated attempt
      number. */
  lemma LeaseIsNeeded() returns (steps: seq<Step>)
    ensures CanRun(START, steps, false)
    ensures var s := After(START, steps, false);
      && 0 in s.issued && Calls(s.log, 0) > s.issued[0].limit + Faults(s.log, 0)
      && s.db.deliveries == map[0 := Delivered] && Records(s.db.deadLetters, 0) != []
      && Records(s.db.attempts, 0) == [1, 1]
  {
    var e0, e1 := Call(0, 0, 1, ERROR), Call(0, 0, 1, OK);
    steps := BothCall();
    BothSettle([] + [e0] + [e1]);
    RunConcat(START, steps, [Settle(0, true), Settle(1, true)], false);
    steps := steps + [Settle(0, true), Settle(1, true)];
    LogGrows([], e0, 0);
    LogGrows([] + [e0], e1, 0);
  }

  /** Without the lease a delivered delivery can be called for again. */
  lemma GuardIsNotEnough() returns (steps: seq<Step>, again: Step)
    ensures CanRun(START, steps, false)
    ensures var s := After(START, steps, false);
      && s.db.deliveries == map[0 := Delivered]
      && again.Send? && Enabled(s, again, false) && s.tasks[again.t].delivery == 0
  {
    SharedRow();
    RunExtend(START, SHARE, Send(0, OK), false);
    var r1 := SHARE + [Send(0, OK)];
    assert After(START, r1, false) == TwoTasks(Sent(OK), Cleared, [] + [Call(0, 0, 1, OK)]);
    RunExtend(START, r1, Settle(0, true), false);
    steps := r1 + [Settle(0, true)];
    again := Send(1, OK);
  }

  /** Without the lease an active row can reach its limit. */
  lemma SpentRowRevived() returns (steps: seq<Step>)
    ensures CanRun(START, steps, false)
    ensures !BelowLimit(After(START, steps, false))
  {
    SharedRow();
    RunExtend(START, SHARE, Send(0, ERROR), false);
    var r1 := SHARE + [Send(0, ERROR)];
    assert After(START, r1, false) == TwoTasks(Sent(ERROR), Cleared, [] + [Call(0, 0, 1, ERROR)]);
    RunExtend(START, r1, Settle(0, true), false);
    var r2 := r1 + [Settle(0, true)];
    RunExtend(START, r2, Requeue(1, true), false);
    steps := r2 + [Requeue(1, true)];
    assert After(START, steps, false).db.queue[0].Active();
  }
}
