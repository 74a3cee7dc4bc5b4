// Why a delivery ended as it did: every recorded attempt has its answer in the log, and
// the answers explain the outcome. Under the lease hypothesis.

module LifecycleOutcomes {
  import opened Lifecycle
  import opened LifecycleEffects
  import opened LifecycleLease
  import opened LifecycleTheorems

  /** A failed call that another attempt may follow. */
  predicate Retryable(r: Response) {
    !r.success && (r.status == 429 || r.status < 400 || r.status > 499)
  }

  /** Attempt i of row q was answered by r. */
  predicate AnsweredBy(log: seq<Event>, q: QueueId, d: DeliveryId, i: nat, r: Response) {
    Call(q, d, i, r) in log
  }

  ghost predicate RetriedAt(log: seq<Event>, q: QueueId, d: DeliveryId, limit: nat, i: nat) {
    i < limit && exists r :: AnsweredBy(log, q, d, i, r) && Retryable(r)
  }

  /** Attempts 1 to n all failed in a retryable way, below the limit. */
  ghost predicate Retried(log: seq<Event>, q: QueueId, d: DeliveryId, limit: nat, n: nat) {
    forall i :: 1 <= i <= n ==> RetriedAt(log, q, d, limit, i)
  }

  ghost predicate SucceededAt(log: seq<Event>, q: QueueId, d: DeliveryId, i: nat) {
    exists r :: AnsweredBy(log, q, d, i, r) && r.success
  }

  ghost predicate GivenUpAt(log: seq<Event>, q: QueueId, d: DeliveryId, limit: nat, i: nat) {
    exists r :: AnsweredBy(log, q, d, i, r) && !r.success && (!Retryable(r) || i >= limit)
  }

  /** The four ways things can stand after n recorded attempts, told by the answers and
      the dead letters. */
  datatype Standing = Open | Unsignable | Succeeded | GivenUp

  ghost predicate Stands(log: seq<Event>, q: QueueId, d: DeliveryId, limit: nat, n: nat, dead: seq<nat>, st: Standing) {
    match st
    case Open => dead == [] && Retried(log, q, d, limit, n)
    case Unsignable => dead == [n + 1] && Retried(log, q, d, limit, n)
    case Succeeded => dead == [] && n >= 1 && Retried(log, q, d, limit, n - 1) && SucceededAt(log, q, d, n)
    case GivenUp => dead == [n] && n >= 1 && Retried(log, q, d, limit, n - 1) && GivenUpAt(log, q, d, limit, n)
  }

  ghost predicate StandsAs(s: System, q: QueueId, st: Standing)
    requires q in s.issued
  {
    var d := s.issued[q].delivery;
    Stands(s.log, q, d, s.issued[q].limit, |Records(s.db.attempts, d)|, Records(s.db.deadLetters, d), st)
  }

  /** Open while the row is active; and a success if only the worker said delivered. */
  ghost predicate Told(s: System, q: QueueId)
    requires q in s.issued
  {
    var d := s.issued[q].delivery;
    && (exists st :: StandsAs(s, q, st))
    && (ActiveRowOf(s, q, d) ==> StandsAs(s, q, Open))
    && (d in s.db.deliveries && s.db.deliveries[d] == Delivered && !Overridden(s.log, d) ==> StandsAs(s, q, Succeeded))
  }

  /** The answer a task holds is in the log. */
  ghost predicate Heard(s: System) {
    forall t :: t in s.tasks && s.tasks[t].phase.Sent? ==>
      var k := s.tasks[t]; AnsweredBy(s.log, k.row, k.delivery, k.attempt, k.phase.response)
  }

  ghost predicate AllTold(s: System) {
    Heard(s) && forall q :: q in s.issued ==> Told(s, q)
  }

  // ------------------------------------------------------------------ one step

  lemma StandsGrows(log: seq<Event>, log': seq<Event>, q: QueueId, d: DeliveryId, limit: nat, n: nat, dead: seq<nat>,
                    st: Standing)
    requires log <= log' && Stands(log, q, d, limit, n, dead, st)
    ensures Stands(log', q, d, limit, n, dead, st)
  {
    assert forall i, r :: AnsweredBy(log, q, d, i, r) ==> AnsweredBy(log', q, d, i, r);
    forall i | 1 <= i <= n && RetriedAt(log, q, d, limit, i) ensures RetriedAt(log', q, d, limit, i) {
      var r :| AnsweredBy(log, q, d, i, r) && Retryable(r);
      assert AnsweredBy(log', q, d, i, r);
    }
  }

  /** Nothing about the row's delivery changes but, at most, who works on it. */
  ghost predicate Kept(s: System, s': System, q: QueueId)
    requires q in s.issued
  {
    var d := s.issued[q].delivery;
    && q in s'.issued && s'.issued[q] == s.issued[q] && s.log <= s'.log
    && Records(s'.db.attempts, d) == Records(s.db.attempts, d)
    && Records(s'.db.deadLetters, d) == Records(s.db.deadLetters, d)
    && (ActiveRowOf(s', q, d) ==> ActiveRowOf(s, q, d))
    && (d in s'.db.deliveries && s'.db.deliveries[d] == Delivered && !Overridden(s'.log, d) ==>
          d in s.db.deliveries && s.db.deliveries[d] == Delivered && !Overridden(s.log, d))
  }

  lemma KeptStaysTold(s: System, s': System, q: QueueId)
    requires q in s.issued && Told(s, q) && Kept(s, s', q)
    ensures Told(s', q)
  {
    var d := s.issued[q].delivery;
    forall st | StandsAs(s, q, st) ensures StandsAs(s', q, st) {
      StandsGrows(s.log, s'.log, q, d, s.issued[q].limit, |Records(s.db.attempts, d)|,
                  Records(s.db.deadLetters, d), st);
    }
  }

  lemma OverridesGrow(log: seq<Event>, log': seq<Event>, d: DeliveryId)
    requires log <= log' && Overridden(log, d)
    ensures Overridden(log', d)
  {
  }

  /** A task's step leaves every other row's delivery alone. */
  lemma OtherRowKept(s: System, s': System, k: Task, q: QueueId)
    requires Ticketed(s) && q in s.issued && q != k.row && HasItsRow(s.db, k) && OnlyTouches(s, s', k)
    ensures Kept(s, s', q)
  {
    var d := s.issued[q].delivery;
    assert s.issued[k.row].delivery == k.delivery && d != k.delivery;
    if Overridden(s.log, d) {
      OverridesGrow(s.log, s'.log, d);
    }
  }

  /** A step of a task that settles nothing, seen from its own row. */
  lemma OwnRowKept(s: System, step: Step, t: TaskId)
    requires Exclusive(s) && Ticketed(s) && RowsAgree(s) && Enabled(s, step, true)
    requires step.SkipDelivered? || step.Requeue? || step.Crash? || step.CheckDelivered? || step.Send?
             || (step.Settle? && !step.commits) || (step.MissingSecret? && !step.commits)
    requires t == step.t
    ensures s.tasks[t].row in s.issued && Kept(s, Apply(s, step, true), s.tasks[t].row)
  {
    OwnerHasRow(s, t);
    assert Owns(s.db, s.tasks[t]);
    var s' := Apply(s, step, true);
    var d := s.tasks[t].delivery;
    assert s.log <= s'.log;
    if Overridden(s.log, d) {
      OverridesGrow(s.log, s'.log, d);
    }
  }

  /** One more attempt, answered and recorded. */
  lemma SettledStands(log: seq<Event>, k: Task, n: nat, r: Response)
    requires Stands(log, k.row, k.delivery, k.limit, n, [], Open) && k.attempt == n + 1
    requires AnsweredBy(log, k.row, k.delivery, k.attempt, r)
    ensures r.success ==> Stands(log, k.row, k.delivery, k.limit, n + 1, [], Succeeded)
    ensures Retryable(r) && k.attempt < k.limit ==> Stands(log, k.row, k.delivery, k.limit, n + 1, [], Open)
    ensures !r.success && (!Retryable(r) || k.attempt >= k.limit) ==>
              Stands(log, k.row, k.delivery, k.limit, n + 1, [n + 1], GivenUp)
  {
  }

  /** What a live task knows of its row: it stands open, one attempt behind the task. */
  ghost predicate StandsOpen(s: System, k: Task) {
    && HasItsRow(s.db, k) && k.row in s.issued && s.issued[k.row] == Ticket(k.delivery, k.limit)
    && k.attempt == |Records(s.db.attempts, k.delivery)| + 1 && Records(s.db.deadLetters, k.delivery) == []
    && StandsAs(s, k.row, Open)
    && (!Overridden(s.log, k.delivery) ==> s.db.deliveries[k.delivery] == Pending)
  }

  lemma HeldStandsOpen(s: System, t: TaskId)
    requires Safe(s) && AllTold(s) && t in s.tasks
    ensures StandsOpen(s, s.tasks[t])
  {
    var k := s.tasks[t];
    OwnerHasRow(s, t);
    assert Owns(s.db, k) && RowAgrees(s.db, s.db.queue[k.row]);
    assert ActiveRowOf(s, k.row, k.delivery) && Told(s, k.row);
    HeldIsPending(s, t);
  }

  lemma SettleTold(s: System, t: TaskId)
    requires Heard(s) && Enabled(s, Settle(t, true), true) && StandsOpen(s, s.tasks[t])
    ensures Told(Apply(s, Settle(t, true), true), s.tasks[t].row)
  {
    var k := s.tasks[t];
    var r := k.phase.response;
    SettleDecides(s.db, k, r);
    SettledStands(s.log, k, |Records(s.db.attempts, k.delivery)|, r);
    assert StandsAs(Apply(s, Settle(t, true), true), k.row,
                    if r.success then Succeeded else if Retryable(r) && k.attempt < k.limit then Open else GivenUp);
  }

  lemma UnsignableTold(s: System, t: TaskId)
    requires Enabled(s, MissingSecret(t, true), true) && StandsOpen(s, s.tasks[t])
    ensures Told(Apply(s, MissingSecret(t, true), true), s.tasks[t].row)
  {
    var k := s.tasks[t];
    MissingSecretEffect(s.db, k.row, k.delivery, k.attempt);
    assert StandsAs(Apply(s, MissingSecret(t, true), true), k.row, Unsignable);
  }

  /** Steps of the API, the claim and the reapers keep every issued row. */
  lemma RowStepKept(s: System, step: Step, q: QueueId)
    requires Enabled(s, step, true) && q in s.issued
    requires step.Accept? || step.Publish? || step.MarkTest? || step.PublishFails? || step.ReapOrphan? || step.Claim?
             || step.CleanUp?
    ensures Kept(s, Apply(s, step, true), q)
  {
    var s' := Apply(s, step, true);
    var d := s.issued[q].delivery;
    assert s.log <= s'.log;
    if Overridden(s.log, d) {
      OverridesGrow(s.log, s'.log, d);
    }
    assert step.MarkTest? ==> TestMarked(step.d) in s'.log;
  }

  lemma ReapKept(s: System, p: QueueId, q: QueueId)
    requires RowsAgree(s) && Enabled(s, Reap(p), true) && q in s.issued
    ensures Kept(s, Apply(s, Reap(p), true), q)
  {
    ReapResets(s, p);
  }

  /** A new row stands open, with no attempt. */
  lemma IssuedTold(s: System, step: Step, q: QueueId)
    requires Safe(s) && Enabled(s, step, true) && (step.Publish? || step.ReapOrphan?)
    requires q !in s.issued && q in Apply(s, step, true).issued
    ensures Told(Apply(s, step, true), q)
  {
    var s' := Apply(s, step, true);
    if step.ReapOrphan? {
      NoRowNeverIssued(s, step.d);
    }
    assert Untouched(s.db, step.d);
    assert StandsAs(s', q, Open);
    assert s.db.deliveries[step.d] == Delivered && !Overridden(s.log, step.d) ==> Plain(s, step.d);
  }

  lemma StepHeard(s: System, step: Step)
    requires Heard(s) && Enabled(s, step, true)
    ensures Heard(Apply(s, step, true))
  {
    var s' := Apply(s, step, true);
    assert s.log <= s'.log;
    forall t | t in s'.tasks && s'.tasks[t].phase.Sent?
      ensures var k := s'.tasks[t]; AnsweredBy(s'.log, k.row, k.delivery, k.attempt, k.phase.response)
    {
      if t in s.tasks && s.tasks[t].phase.Sent? {
        assert s'.tasks[t] == s.tasks[t];
      } else {
        assert step.Send? && step.t == t && s'.log[|s.log|] == Call(s'.tasks[t].row, s'.tasks[t].delivery,
                                                                    s'.tasks[t].attempt, step.r);
      }
    }
  }

  lemma OtherRowTold(s: System, step: Step, q: QueueId)
    requires Exclusive(s) && Ticketed(s) && RowsAgree(s) && Enabled(s, step, true)
    requires (Ends(step) || step.CheckDelivered?) && q in s.issued && s.tasks[step.t].row != q && Told(s, q)
    ensures q in Apply(s, step, true).issued && Told(Apply(s, step, true), q)
  {
    OwnerHasRow(s, step.t);
    if Ends(step) {
      TaskStepTouches(s, step, step.t);
    }
    OtherRowKept(s, Apply(s, step, true), s.tasks[step.t], q);
    KeptStaysTold(s, Apply(s, step, true), q);
  }

  lemma OwnRowTold(s: System, step: Step)
    requires Safe(s) && AllTold(s) && Enabled(s, step, true) && (Ends(step) || step.CheckDelivered?)
    ensures s.tasks[step.t].row in Apply(s, step, true).issued && Told(Apply(s, step, true), s.tasks[step.t].row)
  {
    HeldStandsOpen(s, step.t);
    if step.Settle? && step.commits {
      SettleTold(s, step.t);
    } else if step.MissingSecret? && step.commits {
      UnsignableTold(s, step.t);
    } else {
      OwnRowKept(s, step, step.t);
      KeptStaysTold(s, Apply(s, step, true), s.tasks[step.t].row);
    }
  }

  lemma OtherStepTold(s: System, step: Step, q: QueueId)
    requires RowsAgree(s) && Enabled(s, step, true) && q in s.issued && Told(s, q)
    requires !Ends(step) && !step.CheckDelivered?
    ensures q in Apply(s, step, true).issued && Told(Apply(s, step, true), q)
  {
    if step.Reap? {
      ReapKept(s, step.q, q);
    } else {
      RowStepKept(s, step, q);
    }
    KeptStaysTold(s, Apply(s, step, true), q);
  }

  lemma RowTold(s: System, step: Step, q: QueueId)
    requires Safe(s) && AllTold(s) && Enabled(s, step, true) && q in s.issued
    ensures q in Apply(s, step, true).issued && Told(Apply(s, step, true), q)
  {
    if !Ends(step) && !step.CheckDelivered? {
      OtherStepTold(s, step, q);
    } else if s.tasks[step.t].row == q {
      OwnRowTold(s, step);
    } else {
      OtherRowTold(s, step, q);
    }
  }

  lemma StepTold(s: System, step: Step)
    requires Safe(s) && AllTold(s) && Enabled(s, step, true)
    ensures AllTold(Apply(s, step, true))
  {
    StepHeard(s, step);
    forall q | q in Apply(s, step, true).issued ensures Told(Apply(s, step, true), q) {
      if q in s.issued {
        RowTold(s, step, q);
      } else {
        IssuedTold(s, step, q);
      }
    }
  }

  // ---------------------------------------------------------------- whole runs

  lemma {:induction false} RunTold(s: System, steps: seq<Step>)
    requires Safe(s) && AllTold(s) && CanRun(s, steps, true)
    ensures AllTold(After(s, steps, true))
    decreases |steps|
  {
    if steps != [] {
      StepTold(s, steps[0]);
      StepKeeps(s, steps[0]);
      RunTold(Apply(s, steps[0], true), steps[1..]);
    }
  }

  /** Every outcome is explained by the answers: all recorded attempts but the last were
      retryable failures below the limit; and the last was a success for a delivered
      delivery, and for a dead-lettered one a failure that is not retryable or that used
      up the limit, unless the secret was missing, which the dead letter's number tells. */
  lemma WhyItEnded(steps: seq<Step>, q: QueueId)
    requires CanRun(START, steps, true)
    requires q in After(START, steps, true).issued
    ensures var s := After(START, steps, true);
      var d := s.issued[q].delivery;
      && (exists st :: StandsAs(s, q, st))
      && (ActiveRowOf(s, q, d) ==> StandsAs(s, q, Open))
      && (d in s.db.deliveries && !Overridden(s.log, d) ==>
            && (s.db.deliveries[d] == Delivered ==> StandsAs(s, q, Succeeded))
            && (s.db.deliveries[d] == Failed ==> StandsAs(s, q, GivenUp) || StandsAs(s, q, Unsignable)))
  {
    assert forall d :: Untouched(START.db, d);
    RunTold(START, steps);
    EveryRunIsSafe(steps);
    var s := After(START, steps, true);
    var d := s.issued[q].delivery;
    assert Told(s, q);
    assert d in s.db.deliveries && !Overridden(s.log, d) ==> Plain(s, d);
  }

  /** Retries are not wasted and not cut short: a delivery whose calls all fail with a
      status of 429 or outside 400 to 499 fails only with exactly `limit` recorded
      attempts, or for want of a secret. */
  lemma RetriesUseUpTheLimit(steps: seq<Step>, q: QueueId)
    requires CanRun(START, steps, true) && q in After(START, steps, true).issued
    requires var s := After(START, steps, true);
      var d := s.issued[q].delivery;
      && d in s.db.deliveries && s.db.deliveries[d] == Failed && !Overridden(s.log, d)
      && (forall e :: e in s.log && e.Call? && e.delivery == d ==>
            !e.answer.success && (e.answer.status == 429 || e.answer.status < 400 || e.answer.status > 499))
    ensures var s := After(START, steps, true);
      var d := s.issued[q].delivery;
      var n := |Records(s.db.attempts, d)|;
      (n == s.issued[q].limit && Records(s.db.deadLetters, d) == [n]) || Records(s.db.deadLetters, d) == [n + 1]
  {
    WhyItEnded(steps, q);
    var s := After(START, steps, true);
    var d := s.issued[q].delivery;
    var n := |Records(s.db.attempts, d)|;
    if StandsAs(s, q, GivenUp) {
      var r :| AnsweredBy(s.log, q, d, n, r) && !r.success && (!Retryable(r) || n >= s.issued[q].limit);
      assert Call(q, d, n, r) in s.log && Call(q, d, n, r).Call?;
      AttemptsWithinLimit(steps, q);
    }
  }

  lemma AttemptsWithinLimit(steps: seq<Step>, q: QueueId)
    requires CanRun(START, steps, true) && q in After(START, steps, true).issued
    ensures var s := After(START, steps, true);
      |Records(s.db.attempts, s.issued[q].delivery)| <= s.issued[q].limit
  {
    EveryRunIsSafe(steps);
    var s := After(START, steps, true);
    if q in s.db.queue {
      assert RowAgrees(s.db, s.db.queue[q]);
    } else {
      assert Settled(s.db, s.issued[q]);
    }
  }
}
