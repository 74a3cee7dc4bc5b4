// Theorems about whole runs under the lease hypothesis: any number of tasks,
// interleaved with crashes, failed commits, gate requeues and both reapers.

module LifecycleTheorems {
  import opened Lifecycle
  import opened LifecycleEffects
  import opened LifecycleLease

  lemma {:induction false} RunKeeps(s: System, steps: seq<Step>)
    requires Safe(s) && CanRun(s, steps, true)
    ensures Safe(After(s, steps, true))
    decreases |steps|
  {
    if steps != [] {
      StepKeeps(s, steps[0]);
      RunKeeps(Apply(s, steps[0], true), steps[1..]);
    }
  }

  lemma EveryRunIsSafe(steps: seq<Step>)
    requires CanRun(START, steps, true)
    ensures Safe(After(START, steps, true))
  {
    assert forall d :: Untouched(START.db, d);
    RunKeeps(START, steps);
  }

  // ------------------------------------------------------------- send bound

  lemma LostCallsAreFaults(log: seq<Event>, q: QueueId)
    ensures LostCalls(log, q) <= Faults(log, q)
  {
    if log != [] {
      LostCallsAreFaults(log[..|log| - 1], q);
    }
  }

  /** Exact account: the delivery calls for a row are its recorded attempts, plus
      those a crash or failed commit wiped out, plus the one in flight. */
  lemma SendAccount(steps: seq<Step>, q: QueueId)
    requires CanRun(START, steps, true)
    requires q in After(START, steps, true).issued
    ensures var s := After(START, steps, true);
      Calls(s.log, q) == |Records(s.db.attempts, s.issued[q].delivery)| + LostCalls(s.log, q)
                         + if Sending(s, q) then 1 else 0
  {
    EveryRunIsSafe(steps);
    var s := After(START, steps, true);
    assert Balanced(s, q, s.issued[q].delivery);
  }

  lemma SendBound(steps: seq<Step>, q: QueueId)
    requires CanRun(START, steps, true)
    requires q in After(START, steps, true).issued
    ensures var s := After(START, steps, true);
      Calls(s.log, q) <= s.issued[q].limit + Faults(s.log, q)
  {
    EveryRunIsSafe(steps);
    var s := After(START, steps, true);
    assert Balanced(s, q, s.issued[q].delivery);
    LostCallsAreFaults(s.log, q);
    if q in s.db.queue {
      assert RowAgrees(s.db, s.db.queue[q]);
      if Sending(s, q) {
        var t :| t in s.tasks && s.tasks[t].row == q && s.tasks[t].phase.Sent?;
        assert Owns(s.db, s.tasks[t]);
      }
    } else {
      assert Settled(s.db, s.issued[q]);
      assert !Sending(s, q) by {
        forall t | t in s.tasks ensures s.tasks[t].row != q {
          assert Owns(s.db, s.tasks[t]);
        }
      }
    }
  }

  // ------------------------------------------------ nothing lost, one outcome

  /** Every published delivery has an active row or is no longer pending, and has a
      dead letter exactly when its row says so, whatever the API wrote. */
  lemma NothingLost(steps: seq<Step>, q: QueueId)
    requires CanRun(START, steps, true)
    requires q in After(START, steps, true).issued
    ensures var s := After(START, steps, true);
      var d := s.issued[q].delivery;
      && d in s.db.deliveries
      && ((q in s.db.queue && s.db.queue[q].Active()) || s.db.deliveries[d] != Pending)
      && |Records(s.db.deadLetters, d)| <= 1
      && (q in s.db.queue ==>
            (s.db.queue[q].status == RowDeadLetter <==> Records(s.db.deadLetters, d) != []))
  {
    EveryRunIsSafe(steps);
    var s := After(START, steps, true);
    assert DeliveryAgrees(s.db, s.issued[q].delivery);
    if q in s.db.queue {
      assert RowAgrees(s.db, s.db.queue[q]);
    } else {
      assert Settled(s.db, s.issued[q]);
    }
  }

  /** If the API wrote no status of the delivery, status, row and dead-letter record
      tell one story, and a delivery has one outcome at most. */
  lemma OneOutcome(steps: seq<Step>, d: DeliveryId)
    requires CanRun(START, steps, true)
    requires d in After(START, steps, true).db.deliveries && !Overridden(After(START, steps, true).log, d)
    ensures var s := After(START, steps, true);
      && (s.db.deliveries[d] == Pending <==> !IssuedFor(s, d) || exists q :: ActiveRowOf(s, q, d))
      && (s.db.deliveries[d] == Delivered ==> Records(s.db.deadLetters, d) == [])
      && (s.db.deliveries[d] == Failed <==> |Records(s.db.deadLetters, d)| == 1)
      && (forall q :: q in s.db.queue && s.db.queue[q].delivery == d ==>
            StatusFits(s.db.queue[q].status, s.db.deliveries[d]))
  {
    EveryRunIsSafe(steps);
    var s := After(START, steps, true);
    assert Plain(s, d) && DeliveryAgrees(s.db, d);
    if s.db.deliveries[d] == Pending && IssuedFor(s, d) {
      var q :| q in s.issued && s.issued[q].delivery == d;
      assert q !in s.db.queue ==> Settled(s.db, s.issued[q]);
      assert RowAgrees(s.db, s.db.queue[q]);
      assert ActiveRowOf(s, q, d);
    }
  }

  predicate ActiveRowOf(s: System, q: QueueId, d: DeliveryId) {
    q in s.db.queue && s.db.queue[q].delivery == d && s.db.queue[q].Active()
  }

  /** The committed attempt rows are numbered 1..n, and attempt_count is n. */
  lemma AttemptsNumbered(steps: seq<Step>, d: DeliveryId, i: nat)
    requires CanRun(START, steps, true)
    requires i < |Records(After(START, steps, true).db.attempts, d)|
    ensures Records(After(START, steps, true).db.attempts, d)[i] == i + 1
  {
    EveryRunIsSafe(steps);
    assert DeliveryAgrees(After(START, steps, true).db, d);
  }

  lemma AttemptCountIsExact(steps: seq<Step>, q: QueueId)
    requires CanRun(START, steps, true)
    requires q in After(START, steps, true).db.queue
    ensures var s := After(START, steps, true);
      && s.db.queue[q].attempts == |Records(s.db.attempts, s.db.queue[q].delivery)| <= s.db.queue[q].limit
      && (s.db.queue[q].Active() ==> s.db.queue[q].attempts < s.db.queue[q].limit)
  {
    EveryRunIsSafe(steps);
    var s := After(START, steps, true);
    assert RowAgrees(s.db, s.db.queue[q]);
  }

  // --------------------------------------------------------- outcomes are final

  /** The delivery was published, has an outcome, and no row of it is active. */
  ghost predicate Closed(s: System, d: DeliveryId) {
    && d in s.db.deliveries && s.db.deliveries[d] != Pending && IssuedFor(s, d)
    && forall q :: !ActiveRowOf(s, q, d)
  }

  /** What never changes again: the records of d, and no further delivery call. */
  ghost predicate Frozen(s: System, s': System, d: DeliveryId) {
    && Records(s'.db.attempts, d) == Records(s.db.attempts, d)
    && Records(s'.db.deadLetters, d) == Records(s.db.deadLetters, d)
    && NotCalled(s, s', d)
  }

  ghost predicate NotCalled(s: System, s': System, d: DeliveryId) {
    && s.log <= s'.log
    && forall i :: |s.log| <= i < |s'.log| && s'.log[i].Call? ==> s'.log[i].delivery != d
  }

  /** The status that the API's writes leave. */
  function LastWrite(steps: seq<Step>, d: DeliveryId, status: DeliveryStatus): DeliveryStatus {
    if steps == [] then status
    else if steps[0] == MarkTest(d) then LastWrite(steps[1..], d, Delivered)
    else if steps[0] == PublishFails(d) then LastWrite(steps[1..], d, Failed)
    else LastWrite(steps[1..], d, status)
  }

  function Write(step: Step, d: DeliveryId, status: DeliveryStatus): DeliveryStatus {
    if step == MarkTest(d) then Delivered else if step == PublishFails(d) then Failed else status
  }

  /** A closed delivery after one step: closed, frozen, its status the API's alone. */
  ghost predicate StaysClosed(s: System, s': System, d: DeliveryId, status: DeliveryStatus) {
    Closed(s', d) && Frozen(s, s', d) && s'.db.deliveries[d] == status
  }

  /** No live task works on a closed delivery. */
  lemma NoTaskOnClosed(s: System, d: DeliveryId)
    requires Exclusive(s) && Closed(s, d)
    ensures forall t :: t in s.tasks ==> s.tasks[t].delivery != d
  {
    forall t | t in s.tasks ensures s.tasks[t].delivery != d {
      assert Owns(s.db, s.tasks[t]);
      assert !ActiveRowOf(s, s.tasks[t].row, d);
    }
  }

  /** The steps of a live task past its check, on a row that it owns. */
  predicate Ends(step: Step) {
    step.SkipDelivered? || step.Requeue? || step.MissingSecret? || step.Send? || step.Settle? || step.Crash?
  }

  predicate HasItsRow(db: Tables, k: Task) {
    k.row in db.queue && db.queue[k.row].delivery == k.delivery && k.delivery in db.deliveries
  }

  /** A step of task k touches its row, its delivery and their records, no more. */
  ghost predicate OnlyTouches(s: System, s': System, k: Task) {
    && Touches(s.db, s'.db, k.row, k.delivery) && SameRow(s.db, s'.db, k.row) && s'.issued == s.issued
    && LogsAbout(s.log, s'.log, k.row)
    && (|s'.log| > |s.log| && s'.log[|s.log|].Call? ==> s'.log[|s.log|].delivery == k.delivery)
  }

  lemma TaskStepTouches(s: System, step: Step, t: TaskId)
    requires Enabled(s, step, true) && Ends(step) && t == step.t && HasItsRow(s.db, s.tasks[t])
    ensures OnlyTouches(s, Apply(s, step, true), s.tasks[t])
  {
    var k := s.tasks[t];
    match step
    case Settle(_, _) => SettleEffect(s.db, k, k.phase.response);
    case MissingSecret(_, _) => MissingSecretEffect(s.db, k.row, k.delivery, k.attempt);
    case _ =>
  }

  lemma OwnerHasRow(s: System, t: TaskId)
    requires Exclusive(s) && RowsAgree(s) && t in s.tasks
    ensures HasItsRow(s.db, s.tasks[t])
  {
    assert Owns(s.db, s.tasks[t]) && RowAgrees(s.db, s.db.queue[s.tasks[t].row]);
  }

  lemma TouchElsewhere(s: System, s': System, k: Task, d: DeliveryId)
    requires Closed(s, d) && k.delivery != d && HasItsRow(s.db, k) && OnlyTouches(s, s', k)
    ensures StaysClosed(s, s', d, s.db.deliveries[d])
  {
    assert IssuedFor(s', d) == IssuedFor(s, d);
    forall p ensures !ActiveRowOf(s', p, d) {
      assert !ActiveRowOf(s, p, d);
    }
  }

  lemma TaskStepCloses(s: System, step: Step, t: TaskId, d: DeliveryId)
    requires Exclusive(s) && RowsAgree(s) && Enabled(s, step, true) && Closed(s, d)
    requires Ends(step) && t == step.t
    ensures StaysClosed(s, Apply(s, step, true), d, s.db.deliveries[d])
  {
    NoTaskOnClosed(s, d);
    OwnerHasRow(s, t);
    TaskStepTouches(s, step, t);
    TouchElsewhere(s, Apply(s, step, true), s.tasks[t], d);
  }

  /** Steps that write no record of d, make no call and start no row of d. */
  lemma ClosedCarries(s: System, s': System, d: DeliveryId)
    requires Closed(s, d) && d in s'.db.deliveries && s'.db.deliveries[d] != Pending
    requires Frozen(s, s', d)
    requires forall q :: q in s.issued ==> q in s'.issued && s'.issued[q] == s.issued[q]
    requires forall q :: ActiveRowOf(s', q, d) ==> ActiveRowOf(s, q, d)
    ensures StaysClosed(s, s', d, s'.db.deliveries[d])
  {
    var q :| q in s.issued && s.issued[q].delivery == d;
    assert q in s'.issued && s'.issued[q].delivery == d;
  }

  lemma ApiStepCloses(s: System, step: Step, d: DeliveryId)
    requires Enabled(s, step, true) && Closed(s, d)
    requires step.Accept? || step.Publish? || step.MarkTest? || step.PublishFails?
    ensures StaysClosed(s, Apply(s, step, true), d, Write(step, d, s.db.deliveries[d]))
  {
    ClosedCarries(s, Apply(s, step, true), d);
  }

  lemma RowStepCloses(s: System, step: Step, d: DeliveryId)
    requires Enabled(s, step, true) && Closed(s, d)
    requires step.ReapOrphan? || step.Claim? || step.CheckDelivered? || step.CleanUp?
    ensures StaysClosed(s, Apply(s, step, true), d, s.db.deliveries[d])
  {
    assert step.Claim? ==> !ActiveRowOf(s, step.q, d);
    ClosedCarries(s, Apply(s, step, true), d);
  }

  lemma ReapCloses(s: System, q: QueueId, d: DeliveryId)
    requires RowsAgree(s) && Enabled(s, Reap(q), true) && Closed(s, d)
    ensures StaysClosed(s, Apply(s, Reap(q), true), d, s.db.deliveries[d])
  {
    ReapResets(s, q);
    assert !ActiveRowOf(s, q, d);
    ClosedCarries(s, s.(db := SetStatus(s.db, q, RowPending)), d);
  }

  lemma StepCloses(s: System, step: Step, d: DeliveryId)
    requires Exclusive(s) && RowsAgree(s) && Enabled(s, step, true) && Closed(s, d)
    ensures StaysClosed(s, Apply(s, step, true), d, Write(step, d, s.db.deliveries[d]))
  {
    if step.Accept? || step.Publish? || step.MarkTest? || step.PublishFails? {
      ApiStepCloses(s, step, d);
    } else if step.Reap? {
      ReapCloses(s, step.q, d);
    } else if Ends(step) {
      TaskStepCloses(s, step, step.t, d);
    } else {
      RowStepCloses(s, step, d);
    }
  }

  lemma NotCalledTrans(s: System, s1: System, s': System, d: DeliveryId)
    requires NotCalled(s, s1, d) && NotCalled(s1, s', d)
    ensures NotCalled(s, s', d)
  {
    forall i | |s.log| <= i < |s'.log| && s'.log[i].Call? ensures s'.log[i].delivery != d {
      assert i < |s1.log| ==> s'.log[i] == s1.log[i];
    }
  }

  /** Once a delivery is closed, no continuation records an attempt or a dead letter
      or calls for it again, and its status is exactly what the API's writes leave:
      so the outcome is kept if and only if the last such write, if any, repeats it. */
  lemma {:induction false} OutcomeIsFinal(s: System, more: seq<Step>, d: DeliveryId)
    requires Safe(s) && Closed(s, d) && CanRun(s, more, true)
    ensures StaysClosed(s, After(s, more, true), d, LastWrite(more, d, s.db.deliveries[d]))
    decreases |more|
  {
    if more != [] {
      var s1 := Apply(s, more[0], true);
      StepCloses(s, more[0], d);
      StepKeeps(s, more[0]);
      OutcomeIsFinal(s1, more[1..], d);
      NotCalledTrans(s, s1, After(s, more, true), d);
    }
  }

  /** Only the finished row of d is left. */
  lemma FinishedCloses(s: System, s': System, q: QueueId, d: DeliveryId)
    requires Ticketed(s) && q in s.db.queue && s.db.queue[q].delivery == d
    requires Touches(s.db, s'.db, q, d) && SameRow(s.db, s'.db, q) && s'.issued == s.issued
    requires d in s'.db.deliveries && s'.db.deliveries[d] != Pending && !s'.db.queue[q].Active()
    ensures Closed(s', d)
  {
    assert s'.issued[q].delivery == d;
    forall p ensures !ActiveRowOf(s', p, d) {
      assert p in s.db.queue && p != q ==> s.issued[p].delivery != s.issued[q].delivery;
    }
  }

  lemma OutcomeFinishes(db: Tables, k: Task, r: Response)
    requires HasItsRow(db, k) && !Judge(r, k.attempt, k.limit).TryAgain?
    ensures var db' := SettleTx(db, k, r);
      && Touches(db, db', k.row, k.delivery) && SameRow(db, db', k.row) && !db'.queue[k.row].Active()
      && db'.deliveries[k.delivery] == (if r.success then Delivered else Failed)
  {
    SettleEffect(db, k, r);
  }

  /** A committed outcome closes its delivery, with the status of the outcome. */
  lemma OutcomeCloses(s: System, t: TaskId)
    requires Exclusive(s) && Ticketed(s) && RowsAgree(s) && Enabled(s, Settle(t, true), true)
    requires !Judge(s.tasks[t].phase.response, s.tasks[t].attempt, s.tasks[t].limit).TryAgain?
    ensures var k := s.tasks[t];
      var s' := Apply(s, Settle(t, true), true);
      && Closed(s', k.delivery)
      && s'.db.deliveries[k.delivery] == (if k.phase.response.success then Delivered else Failed)
  {
    var k := s.tasks[t];
    OwnerHasRow(s, t);
    OutcomeFinishes(s.db, k, k.phase.response);
    FinishedCloses(s, Apply(s, Settle(t, true), true), k.row, k.delivery);
  }

  /** Once a success commit has landed, no later step of any run calls for that
      delivery again or dead-letters it, and only the API can rewrite its status. */
  lemma NoSendAfterSuccess(steps: seq<Step>, t: TaskId, more: seq<Step>)
    requires CanRun(START, steps, true)
    requires var s := After(START, steps, true); Enabled(s, Settle(t, true), true) && s.tasks[t].phase.response.success
    requires CanRun(Apply(After(START, steps, true), Settle(t, true), true), more, true)
    ensures var s := After(START, steps, true);
      var d := s.tasks[t].delivery;
      var s' := After(Apply(s, Settle(t, true), true), more, true);
      && NotCalled(s, s', d) && Records(s'.db.deadLetters, d) == []
      && d in s'.db.deliveries && s'.db.deliveries[d] == LastWrite(more, d, Delivered)
  {
    EveryRunIsSafe(steps);
    var s := After(START, steps, true);
    var k := s.tasks[t];
    var s1 := Apply(s, Settle(t, true), true);
    assert Owns(s.db, k) && RowAgrees(s.db, s.db.queue[k.row]);
    SettleEffect(s.db, k, k.phase.response);
    OutcomeCloses(s, t);
    StepKeeps(s, Settle(t, true));
    OutcomeIsFinal(s1, more, k.delivery);
  }

  // ----------------------------------------------------------------- the guard

  /** Delivered, and no task has passed the guard without having called yet. */
  predicate Caught(s: System, d: DeliveryId) {
    d in s.db.deliveries && s.db.deliveries[d] == Delivered && !PastGuard(s, d)
  }

  /** The guard protects d; or d is closed anyway. */
  ghost predicate Guarded(s: System, d: DeliveryId) {
    Caught(s, d) || Closed(s, d)
  }

  predicate PastGuard(s: System, d: DeliveryId) {
    exists t :: t in s.tasks && s.tasks[t].delivery == d && s.tasks[t].phase == Cleared
  }

  lemma SettleStaysGuarded(s: System, t: TaskId, commits: bool)
    requires Exclusive(s) && Ticketed(s) && RowsAgree(s) && Enabled(s, Settle(t, commits), true)
    requires Caught(s, s.tasks[t].delivery)
    ensures Guarded(Apply(s, Settle(t, commits), true), s.tasks[t].delivery)
  {
    var k := s.tasks[t];
    var s' := Apply(s, Settle(t, commits), true);
    SettleEffect(s.db, k, k.phase.response);
    assert forall u :: u in s'.tasks ==> u in s.tasks && s'.tasks[u] == s.tasks[u];
    if commits && !Judge(k.phase.response, k.attempt, k.limit).TryAgain? {
      OutcomeCloses(s, t);
    }
  }

  lemma OtherTaskStaysCaught(s: System, step: Step, d: DeliveryId)
    requires Exclusive(s) && RowsAgree(s) && Enabled(s, step, true) && Ends(step)
    requires Caught(s, d) && (step.Settle? ==> s.tasks[step.t].delivery != d)
    ensures Caught(Apply(s, step, true), d)
  {
    var s' := Apply(s, step, true);
    OwnerHasRow(s, step.t);
    TaskStepTouches(s, step, step.t);
    forall t | t in s'.tasks && s'.tasks[t].delivery == d ensures s'.tasks[t].phase != Cleared {
      assert t in s.tasks && s.tasks[t].delivery == d;
    }
  }

  lemma RowStepStaysCaught(s: System, step: Step, d: DeliveryId)
    requires Enabled(s, step, true) && !Ends(step) && !step.Reap? && step != PublishFails(d) && Caught(s, d)
    ensures Caught(Apply(s, step, true), d)
  {
    var s' := Apply(s, step, true);
    forall t | t in s'.tasks && s'.tasks[t].delivery == d ensures s'.tasks[t].phase != Cleared {
      assert t in s.tasks ==> s.tasks[t].delivery == d;
    }
  }

  lemma OtherStepStaysCaught(s: System, step: Step, d: DeliveryId)
    requires Exclusive(s) && RowsAgree(s) && Enabled(s, step, true) && step != PublishFails(d)
    requires Caught(s, d) && (step.Settle? ==> s.tasks[step.t].delivery != d)
    ensures Caught(Apply(s, step, true), d)
  {
    if Ends(step) {
      OtherTaskStaysCaught(s, step, d);
    } else if step.Reap? {
      ReapResets(s, step.q);
    } else {
      RowStepStaysCaught(s, step, d);
    }
  }

  lemma GuardedStep(s: System, step: Step, d: DeliveryId)
    requires Exclusive(s) && Ticketed(s) && RowsAgree(s) && Enabled(s, step, true)
    requires Guarded(s, d) && step != PublishFails(d)
    ensures Guarded(Apply(s, step, true), d) && NotCalled(s, Apply(s, step, true), d)
  {
    if Closed(s, d) {
      StepCloses(s, step, d);
    } else if step.Settle? && s.tasks[step.t].delivery == d {
      SettleStaysGuarded(s, step.t, step.commits);
    } else {
      OtherStepStaysCaught(s, step, d);
      assert step.Send? ==> s.tasks[step.t].delivery != d;
    }
  }

  lemma {:induction false} GuardHolds(s: System, more: seq<Step>, d: DeliveryId)
    requires Safe(s) && Guarded(s, d) && CanRun(s, more, true) && PublishFails(d) !in more
    ensures NotCalled(s, After(s, more, true), d)
    decreases |more|
  {
    if more != [] {
      var s1 := Apply(s, more[0], true);
      GuardedStep(s, more[0], d);
      StepKeeps(s, more[0]);
      GuardHolds(s1, more[1..], d);
      NotCalledTrans(s, s1, After(s, more, true), d);
    }
  }

  ghost predicate CanBeCalled(s: System, more: seq<Step>, d: DeliveryId) {
    CanRun(s, more, true) && PublishFails(d) !in more && !NotCalled(s, After(s, more, true), d)
  }

  lemma PastGuardCalls(s: System, d: DeliveryId) returns (more: seq<Step>)
    requires PastGuard(s, d)
    ensures CanBeCalled(s, more, d)
  {
    var t :| t in s.tasks && s.tasks[t].delivery == d && s.tasks[t].phase == Cleared;
    RunExtend(s, [], Send(t, OK), true);
    more := [] + [Send(t, OK)];
    assert After(s, more, true).log[|s.log|].delivery == d;
  }

  /** What the guard is worth: a delivery marked as delivered, by the worker or by a
      test key, can be called for again if and only if some task has already passed
      the guard, as long as no failed publish rewrites the mark. */
  lemma GuardExactly(steps: seq<Step>, d: DeliveryId)
    requires CanRun(START, steps, true)
    requires var s := After(START, steps, true); d in s.db.deliveries && s.db.deliveries[d] == Delivered
    ensures var s := After(START, steps, true);
      (exists more :: CanBeCalled(s, more, d)) <==> PastGuard(s, d)
  {
    var s := After(START, steps, true);
    if PastGuard(s, d) {
      var more := PastGuardCalls(s, d);
    } else {
      EveryRunIsSafe(steps);
      forall more | CanRun(s, more, true) && PublishFails(d) !in more ensures !CanBeCalled(s, more, d) {
        GuardHolds(s, more, d);
      }
    }
  }
}
