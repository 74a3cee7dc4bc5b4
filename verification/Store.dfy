// The worker's database code, statement by statement, on mutable tables. Each
// method is tied to the transaction functions of the state machine, and the body
// of a delivery task is shown to be a run of it.

module Store {
  import opened Lifecycle
  import opened LifecycleEffects

  /** SELECT ... LIMIT in the claim and in the orphan reaper. */
  const CLAIM_BATCH: nat := 50
  const ORPHAN_BATCH: nat := 100

  /** What the world answers while one claimed item is processed. */
  datatype World = World(
    skipWrites: bool,
    circuitAllows: bool,
    fifoAllows: bool,
    requeueWrites: bool,
    secretPresent: bool,
    delivers: bool,
    response: Response,
    commits: bool)

  /** What reap_zombies does to the selected rows, in order. */
  function ReapAll(db: Tables, stuck: seq<QueueId>): Tables
    requires forall i :: 0 <= i < |stuck| ==> stuck[i] in db.queue
    decreases |stuck|
  {
    if stuck == [] then db
    else ReapAll(ReapTx(db, stuck[0]), stuck[1..])
  }

  function ReapSteps(stuck: seq<QueueId>): (steps: seq<Step>)
    ensures |steps| == |stuck|
  {
    if stuck == [] then [] else [Reap(stuck[0])] + ReapSteps(stuck[1..])
  }

  predicate Distinct(ids: seq<nat>) {
    forall i, j :: 0 <= i < j < |ids| ==> ids[i] != ids[j]
  }

  /** One reaper transaction over a batch is a run of single-row Reap steps. */
  lemma {:induction false} ReapAllIsRun(s: System, stuck: seq<QueueId>, leased: bool)
    requires Distinct(stuck)
    requires forall i :: 0 <= i < |stuck| ==> stuck[i] in s.db.queue
    requires forall i :: 0 <= i < |stuck| ==> Enabled(s, Reap(stuck[i]), leased)
    ensures CanRun(s, ReapSteps(stuck), leased)
    ensures After(s, ReapSteps(stuck), leased) == s.(db := ReapAll(s.db, stuck))
    decreases |stuck|
  {
    if stuck != [] {
      var s1 := Apply(s, Reap(stuck[0]), leased);
      forall i | 0 <= i < |stuck[1..]|
        ensures stuck[1..][i] in s1.db.queue && Enabled(s1, Reap(stuck[1..][i]), leased)
      {
        assert stuck[1..][i] == stuck[i + 1] && stuck[i + 1] != stuck[0];
        assert Enabled(s, Reap(stuck[i + 1]), leased);
      }
      ReapAllIsRun(s1, stuck[1..], leased);
      RunCons(s, Reap(stuck[0]), ReapSteps(stuck[1..]), leased);
    }
  }

  lemma ReapAllSnoc(db: Tables, stuck: seq<QueueId>, q: QueueId)
    requires q in db.queue && forall i :: 0 <= i < |stuck| ==> stuck[i] in db.queue
    ensures forall i :: 0 <= i < |stuck + [q]| ==> (stuck + [q])[i] in db.queue
    ensures q in ReapAll(db, stuck).queue
    ensures ReapAll(db, stuck + [q]) == ReapTx(ReapAll(db, stuck), q)
    decreases |stuck|
  {
    if stuck != [] {
      assert (stuck + [q])[1..] == stuck[1..] + [q];
      ReapAllSnoc(ReapTx(db, stuck[0]), stuck[1..], q);
    } else {
      assert [] + [q] == [q];
    }
  }

  /** What the task does once the guard has read the delivery's status. */
  function AfterGuard(db: Tables, t: TaskId, k: Task, w: World): Step {
    if k.delivery in db.deliveries && db.deliveries[k.delivery] == Delivered then SkipDelivered(t, w.skipWrites)
    else if !w.circuitAllows || !w.fifoAllows then Requeue(t, w.requeueWrites)
    else if !w.secretPresent then MissingSecret(t, w.commits)
    else if !w.delivers then Crash(t)
    else Send(t, w.response)
  }

  /** The steps of one undisturbed delivery task. Without its delivery no attempt can
      be recorded, and the task ends in an error. */
  function TaskSteps(db: Tables, t: TaskId, k: Task, w: World): seq<Step> {
    var next := AfterGuard(db, t, k, w);
    var last := if k.delivery in db.deliveries then Settle(t, w.commits) else Crash(t);
    [CheckDelivered(t), next] + if next.Send? then [last] else []
  }

  /** The tables such a task leaves. */
  function TaskOutcome(db: Tables, k: Task, step: Step, commits: bool): Tables {
    match step
    case SkipDelivered(_, writes) => if writes then SetStatus(db, k.row, RowDelivered) else db
    case Requeue(_, writes) => if writes then SetStatus(db, k.row, RowPending) else db
    case MissingSecret(_, _) => if commits then MissingSecretTx(db, k.row, k.delivery, k.attempt) else db
    case Send(_, r) => if commits && k.delivery in db.deliveries then SettleTx(db, k, r) else db
    case _ => db
  }

  lemma GuardThen(s: System, t: TaskId, step: Step)
    requires t in s.tasks && s.tasks[t].phase == Claimed
    requires Enabled(Apply(s, CheckDelivered(t), true), step, true)
    ensures CanRun(s, [CheckDelivered(t), step], true)
    ensures After(s, [CheckDelivered(t), step], true) == Apply(Apply(s, CheckDelivered(t), true), step, true)
  {
    RunExtend(s, [], CheckDelivered(t), true);
    assert [] + [CheckDelivered(t)] == [CheckDelivered(t)];
    RunExtend(s, [CheckDelivered(t)], step, true);
    assert [CheckDelivered(t)] + [step] == [CheckDelivered(t), step];
  }

  /** The one step after the guard, as it leaves tables and tasks. */
  lemma NextStepEnds(s: System, t: TaskId, k: Task, w: World)
    requires t in s.tasks && s.tasks[t] == k && k.phase == Claimed
    ensures var next := AfterGuard(s.db, t, k, w);
      var checked := Apply(s, CheckDelivered(t), true);
      && Enabled(checked, next, true)
      && var s2 := Apply(checked, next, true);
      && (next.Send? ==> s2.db == s.db && s2.tasks == s.tasks[t := k.(phase := Sent(w.response))])
      && (!next.Send? ==> s2.db == TaskOutcome(s.db, k, next, w.commits) && s2.tasks == s.tasks - {t})
  {
  }

  /** A task can always take its steps; it ends, with these tables. */
  lemma TaskRuns(s: System, t: TaskId, k: Task, w: World)
    requires t in s.tasks && s.tasks[t] == k && k.phase == Claimed
    ensures CanRun(s, TaskSteps(s.db, t, k, w), true)
    ensures After(s, TaskSteps(s.db, t, k, w), true).db == TaskOutcome(s.db, k, AfterGuard(s.db, t, k, w), w.commits)
    ensures After(s, TaskSteps(s.db, t, k, w), true).tasks == s.tasks - {t}
  {
    var next := AfterGuard(s.db, t, k, w);
    NextStepEnds(s, t, k, w);
    GuardThen(s, t, next);
    if next.Send? {
      var last := if k.delivery in s.db.deliveries then Settle(t, w.commits) else Crash(t);
      RunExtend(s, [CheckDelivered(t), next], last, true);
      assert s.tasks[t := k.(phase := Sent(w.response))] - {t} == s.tasks - {t};
    } else {
      assert [CheckDelivered(t), next] + [] == [CheckDelivered(t), next];
    }
  }

  /** The delivery has been delivered already. */
  predicate AlreadyDelivered(db: Tables, d: DeliveryId) {
    d in db.deliveries && db.deliveries[d] == Delivered
  }

  /** Only the row's status may differ. */
  ghost predicate OnlyStatus(db: Tables, db': Tables, q: QueueId, status: RowStatus) {
    db' == if q in db.queue then db.(queue := db.queue[q := db.queue[q].(status := status)]) else db
  }

  /** What a task does, answer by answer: it calls exactly if the delivery is not already
      delivered, both gates allow, the secret is there and the delivery call answers; a
      delivered delivery and a closed gate leave everything but the row's status alone;
      a missing secret fails the delivery with a dead letter and no attempt. */
  lemma TaskMeans(s: System, t: TaskId, k: Task, w: World)
    requires t in s.tasks && s.tasks[t] == k && k.phase == Claimed
    ensures CanRun(s, TaskSteps(s.db, t, k, w), true)
    ensures var s' := After(s, TaskSteps(s.db, t, k, w), true);
      var done := AlreadyDelivered(s.db, k.delivery);
      && s.log <= s'.log
      && ((exists i :: |s.log| <= i < |s'.log| && s'.log[i].Call?)
          <==> !done && w.circuitAllows && w.fifoAllows && w.secretPresent && w.delivers)
      && (forall i :: |s.log| <= i < |s'.log| && s'.log[i].Call? ==>
            s'.log[i] == Call(k.row, k.delivery, k.attempt, w.response))
      && (done ==> if w.skipWrites then OnlyStatus(s.db, s'.db, k.row, RowDelivered) else s'.db == s.db)
      && (!done && (!w.circuitAllows || !w.fifoAllows) ==>
            if w.requeueWrites then OnlyStatus(s.db, s'.db, k.row, RowPending) else s'.db == s.db)
      && (!done && w.circuitAllows && w.fifoAllows && !w.secretPresent && w.commits && k.delivery in s.db.deliveries ==>
            && k.delivery in s'.db.deliveries && s'.db.deliveries[k.delivery] == Failed
            && Records(s'.db.deadLetters, k.delivery) == Records(s.db.deadLetters, k.delivery) + [k.attempt]
            && s'.db.attempts == s.db.attempts
            && (k.row in s.db.queue ==>
                  s'.db.queue == s.db.queue[k.row := s.db.queue[k.row].(status := RowDeadLetter)]))
  {
    TaskRuns(s, t, k, w);
    TaskLogs(s, t, k, w);
    if k.delivery in s.db.deliveries {
      MissingSecretEffect(s.db, k.row, k.delivery, k.attempt);
    }
  }

  /** The log of an undisturbed task. */
  lemma TaskLogs(s: System, t: TaskId, k: Task, w: World)
    requires t in s.tasks && s.tasks[t] == k && k.phase == Claimed
    ensures CanRun(s, TaskSteps(s.db, t, k, w), true)
    ensures var s' := After(s, TaskSteps(s.db, t, k, w), true);
      var calls := !AlreadyDelivered(s.db, k.delivery) && w.circuitAllows && w.fifoAllows && w.secretPresent
                   && w.delivers;
      && s.log <= s'.log
      && (calls ==> |s'.log| > |s.log| && s'.log[|s.log|] == Call(k.row, k.delivery, k.attempt, w.response))
      && (forall i :: |s.log| <= i < |s'.log| && s'.log[i].Call? ==> calls && i == |s.log|)
  {
    var next := AfterGuard(s.db, t, k, w);
    NextStepEnds(s, t, k, w);
    GuardThen(s, t, next);
    if next.Send? {
      var last := if k.delivery in s.db.deliveries then Settle(t, w.commits) else Crash(t);
      RunExtend(s, [CheckDelivered(t), next], last, true);
    } else {
      assert [CheckDelivered(t), next] + [] == [CheckDelivered(t), next];
    }
  }

  /** Reaping one orphan leaves another one to reap. */
  lemma OrphansApart(s: System, d: DeliveryId, q: QueueId, d': DeliveryId, q': QueueId)
    requires d != d' && q != q'
    requires Enabled(s, ReapOrphan(q, d), true) && Enabled(s, ReapOrphan(q', d'), true)
    ensures Enabled(Apply(s, ReapOrphan(q, d), true), ReapOrphan(q', d'), true)
  {
  }

  lemma OneMoreOrphan(s: System, s': System, orphans: seq<DeliveryId>, ids: seq<QueueId>, i: nat)
    requires |orphans| == |ids| && Distinct(orphans) && Distinct(ids) && i < |orphans|
    requires CanRun(s, OrphanSteps(orphans[..i], ids[..i]), true)
    requires After(s, OrphanSteps(orphans[..i], ids[..i]), true) == s'
    requires forall j :: i <= j < |orphans| ==> Enabled(s', ReapOrphan(ids[j], orphans[j]), true)
    ensures CanRun(s, OrphanSteps(orphans[..i + 1], ids[..i + 1]), true)
    ensures After(s, OrphanSteps(orphans[..i + 1], ids[..i + 1]), true)
            == Apply(s', ReapOrphan(ids[i], orphans[i]), true)
    ensures forall j :: i < j < |orphans| ==>
              Enabled(Apply(s', ReapOrphan(ids[i], orphans[i]), true), ReapOrphan(ids[j], orphans[j]), true)
  {
    RunExtend(s, OrphanSteps(orphans[..i], ids[..i]), ReapOrphan(ids[i], orphans[i]), true);
    OrphanStepsSnoc(orphans[..i], ids[..i], orphans[i], ids[i]);
    assert orphans[..i] + [orphans[i]] == orphans[..i + 1] && ids[..i] + [ids[i]] == ids[..i + 1];
    forall j | i < j < |orphans|
      ensures Enabled(Apply(s', ReapOrphan(ids[i], orphans[i]), true), ReapOrphan(ids[j], orphans[j]), true)
    {
      OrphansApart(s', orphans[i], ids[i], orphans[j], ids[j]);
    }
  }

  class Database {
    var queue: map<QueueId, Row>
    var deliveries: map<DeliveryId, DeliveryStatus>
    var attempts: map<DeliveryId, seq<nat>>
    var deadLetters: map<DeliveryId, seq<nat>>

    ghost function View(): Tables
      reads this
    {
      Tables(queue, deliveries, attempts, deadLetters)
    }

    constructor ()
      ensures View() == START.db
    {
      queue, deliveries, attempts, deadLetters := map[], map[], map[], map[];
    }

    // ------------------------------------------------------------ statements

    method UpdateStatus(q: QueueId, status: RowStatus)
      modifies this`queue
      ensures View() == SetStatus(old(View()), q, status)
    {
      if q in queue {
        queue := queue[q := queue[q].(status := status)];
      }
    }

    method UpdateRow(q: QueueId, status: RowStatus, count: nat)
      modifies this`queue
      ensures View() == SetRow(old(View()), q, status, count)
    {
      if q in queue {
        queue := queue[q := queue[q].(status := status, attempts := count)];
      }
    }

    method UpdateDelivery(d: DeliveryId, status: DeliveryStatus)
      modifies this`deliveries
      ensures View() == SetDelivery(old(View()), d, status)
    {
      if d in deliveries {
        deliveries := deliveries[d := status];
      }
    }

    /** The row refers to its delivery: without one the INSERT is an error. */
    method InsertAttempt(d: DeliveryId, attempt: nat) returns (ok: bool)
      modifies this`attempts
      ensures ok <==> d in deliveries
      ensures View() == if ok then RecordAttempt(old(View()), d, attempt) else old(View())
    {
      ok := d in deliveries;
      if ok {
        attempts := attempts[d := (if d in attempts then attempts[d] else []) + [attempt]];
      }
    }

    method InsertDeadLetter(d: DeliveryId, count: nat)
      modifies this`deadLetters
      ensures View() == RecordDeadLetter(old(View()), d, count)
    {
      if d in deliveries {
        deadLetters := deadLetters[d := (if d in deadLetters then deadLetters[d] else []) + [count]];
      }
    }

    method Rollback(saved: Tables)
      modifies this
      ensures View() == saved
    {
      queue, deliveries := saved.queue, saved.deliveries;
      attempts, deadLetters := saved.attempts, saved.deadLetters;
    }

    method Snapshot() returns (saved: Tables)
      ensures saved == View()
    {
      saved := Tables(queue, deliveries, attempts, deadLetters);
    }

    // ---------------------------------------------------------- transactions

    /** COMMIT, or else everything since the snapshot is undone. */
    method Finish(saved: Tables, keep: bool)
      modifies this
      ensures View() == if keep then old(View()) else saved
    {
      if !keep {
        Rollback(saved);
      }
    }

    /** dead_letter_delivery: an error when the delivery is gone, Ok otherwise. A
        failed commit is an Ok too: the flag of commit_delivery_tx is dropped. */
    method DeadLetterDelivery(q: QueueId, d: DeliveryId, attempt: nat, commits: bool) returns (ok: bool)
      modifies this
      ensures ok <==> d in old(deliveries)
      ensures View() == if ok && commits then DeadLetterTx(old(View()), q, d, attempt) else old(View())
    {
      var saved := Snapshot();
      UpdateRow(q, RowDeadLetter, attempt);
      if d !in deliveries {
        Rollback(saved);
        return false;
      }
      InsertDeadLetter(d, attempt);
      UpdateDelivery(d, Failed);
      ok := InsertAttempt(d, attempt);
      Finish(saved, commits);
    }

    /** retry_delivery: an error when the delivery is gone. */
    method RetryDelivery(q: QueueId, d: DeliveryId, attempt: nat, commits: bool) returns (ok: bool)
      modifies this
      ensures ok <==> d in old(deliveries)
      ensures View() == if ok && commits then RetryTx(old(View()), q, d, attempt) else old(View())
    {
      var saved := Snapshot();
      UpdateRow(q, RowPending, attempt);
      ok := InsertAttempt(d, attempt);
      Finish(saved, ok && commits);
    }

    /** The success arm of the delivery task: an error when the delivery is gone. */
    method MarkDelivered(q: QueueId, d: DeliveryId, attempt: nat, commits: bool) returns (ok: bool)
      modifies this
      ensures ok <==> d in old(deliveries)
      ensures View() == if ok && commits then SuccessTx(old(View()), q, d, attempt) else old(View())
    {
      var saved := Snapshot();
      UpdateRow(q, RowDelivered, attempt);
      UpdateDelivery(d, Delivered);
      ok := InsertAttempt(d, attempt);
      Finish(saved, ok && commits);
    }

    /** The arm for an endpoint without a signing secret. */
    method MarkUnsignable(q: QueueId, d: DeliveryId, attempt: nat, commits: bool)
      modifies this
      ensures View() == if commits then MissingSecretTx(old(View()), q, d, attempt) else old(View())
    {
      var saved := Snapshot();
      UpdateStatus(q, RowDeadLetter);
      UpdateDelivery(d, Failed);
      InsertDeadLetter(d, attempt);
      if !commits {
        Rollback(saved);
      }
    }

    /** The outcome arms, in the order the task tries them. */
    method RecordOutcome(k: Task, r: Response, commits: bool) returns (ok: bool)
      modifies this
      ensures ok && commits && k.row in old(queue) ==>
                && k.row in queue
                && (queue[k.row].status == RowDelivered <==> r.success)
                && (queue[k.row].status == RowPending <==>
                      !r.success && k.attempt < k.limit && (r.status == 429 || r.status < 400 || r.status > 499))
                && (queue[k.row].status == RowDeadLetter <==>
                      !r.success && ((400 <= r.status <= 499 && r.status != 429) || k.attempt >= k.limit))
                && queue[k.row].attempts == k.attempt
      ensures ok <==> k.delivery in old(deliveries)
      ensures View() == if ok && commits then SettleTx(old(View()), k, r) else old(View())
    {
      if k.delivery in deliveries && k.row in queue {
        SettleDecides(View(), k, r);
      }
      if r.success {
        ok := MarkDelivered(k.row, k.delivery, k.attempt, commits);
      } else if 400 <= r.status < 500 && r.status != 429 {
        ok := DeadLetterDelivery(k.row, k.delivery, k.attempt, commits);
      } else if k.attempt >= k.limit {
        ok := DeadLetterDelivery(k.row, k.delivery, k.attempt, commits);
      } else {
        ok := RetryDelivery(k.row, k.delivery, k.attempt, commits);
      }
    }

    // ------------------------------------------------------ the delivery task

    /** The body of one spawned delivery task, from the claim to its end, when no
        other task interferes: the tables it leaves are those after the task's steps
        of the state machine, and the task is over. */
    method ProcessItem(t: TaskId, k: Task, w: World, ghost s: System) returns (called: bool)
      requires t in s.tasks && s.tasks[t] == k && k.phase == Claimed
      requires s.db == View()
      modifies this
      ensures called <==> !AlreadyDelivered(s.db, k.delivery) && w.circuitAllows && w.fifoAllows && w.secretPresent
                          && w.delivers
      ensures AlreadyDelivered(s.db, k.delivery) ==>
                if w.skipWrites then OnlyStatus(s.db, View(), k.row, RowDelivered) else View() == s.db
      ensures !AlreadyDelivered(s.db, k.delivery) && (!w.circuitAllows || !w.fifoAllows) ==>
                if w.requeueWrites then OnlyStatus(s.db, View(), k.row, RowPending) else View() == s.db
      ensures (!AlreadyDelivered(s.db, k.delivery) && w.circuitAllows && w.fifoAllows && !w.secretPresent && w.commits
               && k.delivery in s.db.deliveries) ==>
                && k.delivery in deliveries && deliveries[k.delivery] == Failed && attempts == s.db.attempts
                && Records(deadLetters, k.delivery) == Records(s.db.deadLetters, k.delivery) + [k.attempt]
      ensures called && w.commits && k.delivery in s.db.deliveries && k.row in s.db.queue ==>
                && k.row in queue && queue[k.row].attempts == k.attempt
                && (queue[k.row].status == RowDelivered <==> w.response.success)
                && (queue[k.row].status == RowPending <==>
                      !w.response.success && k.attempt < k.limit
                      && (w.response.status == 429 || w.response.status < 400 || w.response.status > 499))
      ensures (!AlreadyDelivered(s.db, k.delivery) && w.circuitAllows && w.fifoAllows && w.secretPresent
               && !w.delivers) ==> View() == s.db
      ensures CanRun(s, TaskSteps(s.db, t, k, w), true)
      ensures After(s, TaskSteps(s.db, t, k, w), true).db == View()
      ensures After(s, TaskSteps(s.db, t, k, w), true).tasks == s.tasks - {t}
    {
      TaskRuns(s, t, k, w);
      called := false;
      if k.delivery in deliveries && deliveries[k.delivery] == Delivered {
        if w.skipWrites {
          UpdateStatus(k.row, RowDelivered);
        }
        return;
      }
      if !w.circuitAllows {
        if w.requeueWrites {
          UpdateStatus(k.row, RowPending);
        }
        return;
      }
      if !w.fifoAllows {
        if w.requeueWrites {
          UpdateStatus(k.row, RowPending);
        }
        return;
      }
      if !w.secretPresent {
        if k.delivery in deliveries {
          MissingSecretEffect(View(), k.row, k.delivery, k.attempt);
        }
        MarkUnsignable(k.row, k.delivery, k.attempt, w.commits);
        return;
      }
      if !w.delivers {
        // deliver_with_routing returned an error
        return;
      }
      called := true;
      var _ := RecordOutcome(k, w.response, w.commits);
    }

    // --------------------------------------------------------------- reapers

    /** reap_zombies on the rows its SELECT returned, in one transaction. */
    method ReapZombies(stuck: seq<QueueId>, commits: bool) returns (count: nat)
      requires Distinct(stuck)
      requires forall i :: 0 <= i < |stuck| ==> stuck[i] in queue && queue[stuck[i]].status == RowProcessing
      modifies this
      ensures View() == if commits then ReapAll(old(View()), stuck) else old(View())
      ensures count == if commits then |stuck| else 0
    {
      if |stuck| == 0 {
        return 0;
      }
      var saved := Snapshot();
      var i := 0;
      while i < |stuck|
        invariant 0 <= i <= |stuck|
        invariant View() == ReapAll(saved, stuck[..i])
        invariant forall j :: 0 <= j < |stuck| ==> stuck[j] in queue
        invariant forall j :: i <= j < |stuck| ==> queue[stuck[j]] == saved.queue[stuck[j]]
      {
        var q := stuck[i];
        var row := saved.queue[q];
        ghost var before := View();
        ReapAllSnoc(saved, stuck[..i], q);
        assert stuck[..i] + [q] == stuck[..i + 1];
        if row.attempts >= row.limit {
          UpdateRow(q, RowDeadLetter, row.attempts + 1);
          InsertDeadLetter(row.delivery, row.attempts + 1);
          UpdateDelivery(row.delivery, Failed);
        } else {
          UpdateStatus(q, RowPending);
        }
        assert View() == ReapTx(before, q);
        i := i + 1;
      }
      assert stuck[..i] == stuck;
      if !commits {
        Rollback(saved);
        return 0;
      }
      count := |stuck|;
    }

    /** The claim of process_pending: take up to 50 of the eligible rows, in
        order, mark them processing and hand them out with the next number. */
    method ClaimBatch(eligible: seq<QueueId>) returns (items: seq<Task>)
      requires Distinct(eligible)
      requires forall i :: 0 <= i < |eligible| ==> eligible[i] in queue && queue[eligible[i]].status == RowPending
      modifies this`queue
      ensures |items| == if |eligible| < 50 then |eligible| else 50
      ensures forall i :: 0 <= i < |items| ==>
                var row := old(queue)[eligible[i]];
                items[i] == Task(eligible[i], row.delivery, row.attempts + 1, row.limit, Claimed)
      ensures queue.Keys == old(queue).Keys
      ensures forall q :: q in queue ==>
                queue[q] == if q in eligible[..|items|] then old(queue)[q].(status := RowProcessing) else old(queue)[q]
    {
      items := [];
      while |items| < |eligible| && |items| < CLAIM_BATCH
        invariant |items| <= |eligible| && |items| <= CLAIM_BATCH
        invariant forall i :: 0 <= i < |items| ==>
                    var row := old(queue)[eligible[i]];
                    items[i] == Task(eligible[i], row.delivery, row.attempts + 1, row.limit, Claimed)
        invariant queue.Keys == old(queue).Keys
        invariant forall q :: q in queue ==>
                    queue[q] == if q in eligible[..|items|] then old(queue)[q].(status := RowProcessing)
                                else old(queue)[q]
      {
        var n := |items|;
        var q := eligible[n];
        assert q !in eligible[..n];
        var row := queue[q];
        UpdateStatus(q, RowProcessing);
        items := items + [Task(q, row.delivery, row.attempts + 1, row.limit, Claimed)];
        assert eligible[..n + 1] == eligible[..n] + [q];
      }
    }

    /** reap_orphaned_deliveries on the deliveries its SELECT returned: one INSERT
        each, ON CONFLICT (delivery_id) DO NOTHING. ids[i] is the id the table
        would give the i-th row. */
    method ReapOrphans(orphans: seq<DeliveryId>, ids: seq<QueueId>, ghost s: System)
      returns (count: nat, ghost s': System)
      requires |orphans| == |ids| <= ORPHAN_BATCH
      requires Distinct(orphans) && Distinct(ids)
      requires s.db == View()
      requires forall i :: 0 <= i < |orphans| ==> Enabled(s, ReapOrphan(ids[i], orphans[i]), true)
      modifies this`queue
      ensures count == |orphans|
      ensures s'.db == View()
      ensures CanRun(s, OrphanSteps(orphans, ids), true)
      ensures After(s, OrphanSteps(orphans, ids), true) == s'
    {
      s' := s;
      var i := 0;
      while i < |orphans|
        invariant 0 <= i <= |orphans|
        invariant s'.db == View()
        invariant CanRun(s, OrphanSteps(orphans[..i], ids[..i]), true)
        invariant After(s, OrphanSteps(orphans[..i], ids[..i]), true) == s'
        invariant forall j :: i <= j < |orphans| ==> Enabled(s', ReapOrphan(ids[j], orphans[j]), true)
      {
        var d := orphans[i];
        OneMoreOrphan(s, s', orphans, ids, i);
        if !(exists q :: q in queue && queue[q].delivery == d) {
          queue := queue[ids[i] := Row(d, RowPending, 0, DEFAULT_MAX_ATTEMPTS)];
        }
        s' := Apply(s', ReapOrphan(ids[i], d), true);
        i := i + 1;
      }
      assert orphans[..i] == orphans && ids[..i] == ids;
      count := |orphans|;
    }
  }

  function OrphanSteps(orphans: seq<DeliveryId>, ids: seq<QueueId>): seq<Step>
    requires |orphans| == |ids|
  {
    if orphans == [] then [] else [ReapOrphan(ids[0], orphans[0])] + OrphanSteps(orphans[1..], ids[1..])
  }

  lemma {:induction false} OrphanStepsSnoc(orphans: seq<DeliveryId>, ids: seq<QueueId>, d: DeliveryId, q: QueueId)
    requires |orphans| == |ids|
    ensures OrphanSteps(orphans + [d], ids + [q]) == OrphanSteps(orphans, ids) + [ReapOrphan(q, d)]
  {
    if orphans == [] {
    } else {
      assert (orphans + [d])[1..] == orphans[1..] + [d] && (ids + [q])[1..] == ids[1..] + [q];
      OrphanStepsSnoc(orphans[1..], ids[1..], d, q);
    }
  }
}
