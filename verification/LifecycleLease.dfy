// What every step keeps under the lease hypothesis.

module LifecycleLease {
  import opened Lifecycle
  import opened LifecycleEffects

  // ------------------------------------------------------------ invariants

  /** The records are numbered 1, 2, ..., n. */
  predicate Numbered(records: seq<nat>) {
    forall i :: 0 <= i < |records| ==> records[i] == i + 1
  }

  /** A live task owns its row: the row is processing, nobody else holds it, and
      the task's numbers are the row's. */
  ghost predicate Exclusive(s: System) {
    && (forall t :: t in s.tasks ==> Owns(s.db, s.tasks[t]))
    && (forall t, u :: t in s.tasks && u in s.tasks && s.tasks[t].row == s.tasks[u].row ==> t == u)
  }

  predicate Owns(db: Tables, k: Task) {
    && k.row in db.queue
    && db.queue[k.row] == Row(k.delivery, RowProcessing, db.queue[k.row].attempts, k.limit)
    && k.attempt == db.queue[k.row].attempts + 1
    && (k.phase == SawDelivered ==> k.delivery in db.deliveries && db.deliveries[k.delivery] != Pending)
  }

  /** Rows and tickets agree, and a delivery is issued at most one row, ever. */
  ghost predicate Ticketed(s: System) {
    && (forall q :: q in s.db.queue ==>
          q in s.issued && s.issued[q] == Ticket(s.db.queue[q].delivery, s.db.queue[q].limit))
    && (forall q :: q in s.issued ==> s.issued[q].delivery in s.db.deliveries)
    && (forall p, q :: p in s.issued && q in s.issued && s.issued[p].delivery == s.issued[q].delivery ==> p == q)
  }

  /** A row and its delivery's records agree; a finished row's delivery is not
      pending. */
  predicate RowAgrees(db: Tables, row: Row) {
    && row.delivery in db.deliveries
    && |Records(db.attempts, row.delivery)| == row.attempts <= row.limit
    && (row.Active() ==> row.attempts < row.limit)
    && (!row.Active() ==> db.deliveries[row.delivery] != Pending)
    && |Records(db.deadLetters, row.delivery)| == if row.status.RowDeadLetter? then 1 else 0
  }

  /** Rows agree with their deliveries; a row that was cleaned up was finished. */
  ghost predicate RowsAgree(s: System) {
    && (forall q :: q in s.db.queue ==> RowAgrees(s.db, s.db.queue[q]))
    && (forall q :: q in s.issued && q !in s.db.queue ==> Settled(s.db, s.issued[q]))
  }

  predicate Settled(db: Tables, ticket: Ticket) {
    && ticket.delivery in db.deliveries
    && db.deliveries[ticket.delivery] != Pending
    && |Records(db.attempts, ticket.delivery)| <= ticket.limit
  }

  /** Attempts are numbered without gaps, and there is at most one dead letter. */
  predicate DeliveryAgrees(db: Tables, d: DeliveryId) {
    Numbered(Records(db.attempts, d)) && |Records(db.deadLetters, d)| <= 1
  }

  /** A delivery that never had a row has no records. */
  predicate Untouched(db: Tables, d: DeliveryId) {
    Records(db.attempts, d) == [] && Records(db.deadLetters, d) == []
  }

  ghost predicate DeliveriesAgree(s: System) {
    && (forall d :: DeliveryAgrees(s.db, d))
    && (forall d :: !IssuedFor(s, d) ==> Untouched(s.db, d))
  }

  /** The API has written the status of d. */
  predicate Overridden(log: seq<Event>, d: DeliveryId) {
    Marked(log, d) || Unpublished(log, d)
  }

  /** What a row's status says about its delivery's, unless the API wrote that. */
  predicate StatusFits(row: RowStatus, delivery: DeliveryStatus) {
    match row
    case RowPending => delivery == Pending
    case RowProcessing => delivery == Pending
    case RowDelivered => delivery == Delivered
    case RowDeadLetter => delivery == Failed
  }

  /** A delivery whose status only the worker wrote: pending while it has no outcome,
      failed exactly when it has its dead letter, and in step with its row. */
  ghost predicate Plain(s: System, d: DeliveryId) {
    && d in s.db.deliveries
    && (s.db.deliveries[d] == Failed <==> |Records(s.db.deadLetters, d)| == 1)
    && (!IssuedFor(s, d) ==> s.db.deliveries[d] == Pending)
    && (forall q :: q in s.db.queue && s.db.queue[q].delivery == d ==>
          StatusFits(s.db.queue[q].status, s.db.deliveries[d]))
  }

  ghost predicate StatusesAgree(s: System) {
    forall d :: d in s.db.deliveries && !Overridden(s.log, d) ==> Plain(s, d)
  }

  predicate Sending(s: System, q: QueueId) {
    exists t :: t in s.tasks && s.tasks[t].row == q && s.tasks[t].phase.Sent?
  }

  /** Every delivery call is a recorded attempt, or lost to a fault, or still in flight. */
  predicate Balanced(s: System, q: QueueId, d: DeliveryId) {
    Calls(s.log, q) == |Records(s.db.attempts, d)| + LostCalls(s.log, q) + if Sending(s, q) then 1 else 0
  }

  ghost predicate Accounted(s: System) {
    && (forall q :: q in s.issued ==> Balanced(s, q, s.issued[q].delivery))
    && (forall i, q :: 0 <= i < |s.log| && s.log[i].About(q) ==> q in s.issued)
  }

  ghost predicate Safe(s: System) {
    Exclusive(s) && Ticketed(s) && RowsAgree(s) && DeliveriesAgree(s) && Accounted(s) && StatusesAgree(s)
  }

  // --------------------------------------------------- the log, one event on

  lemma LogGrows(log: seq<Event>, e: Event, q: QueueId)
    ensures Calls(log + [e], q) == Calls(log, q) + if e.Call? && e.row == q then 1 else 0
    ensures Faults(log + [e], q) == Faults(log, q) + if e.Fault() && e.row == q then 1 else 0
    ensures LostCalls(log + [e], q) == LostCalls(log, q) + if e.Fault() && e.row == q && e.sent then 1 else 0
  {
    assert (log + [e])[..|log|] == log;
  }

  // --------------------------------------------- what one step touches, it keeps

  lemma TouchKeepsTickets(s: System, s': System, q: QueueId, d: DeliveryId)
    requires Ticketed(s)
    requires Touches(s.db, s'.db, q, d) && SameRow(s.db, s'.db, q) && s'.issued == s.issued
    ensures Ticketed(s')
  {
  }

  lemma TouchKeepsRows(s: System, s': System, q: QueueId, d: DeliveryId)
    requires Ticketed(s) && RowsAgree(s)
    requires Touches(s.db, s'.db, q, d) && SameRow(s.db, s'.db, q) && s'.issued == s.issued
    requires s.db.queue[q].delivery == d
    requires RowAgrees(s'.db, s'.db.queue[q])
    ensures RowsAgree(s')
  {
    forall p | p in s'.db.queue
      ensures RowAgrees(s'.db, s'.db.queue[p])
    {
      assert s.issued[p].delivery == s.db.queue[p].delivery;
      if p != q {
        assert s'.db.queue[p] == s.db.queue[p];
        assert s.db.queue[p].delivery != d;
      }
    }
    forall p | p in s'.issued && p !in s'.db.queue
      ensures Settled(s'.db, s'.issued[p])
    {
      assert s.issued[p].delivery != s.issued[q].delivery;
    }
  }

  lemma TouchKeepsDeliveries(s: System, s': System, q: QueueId, d: DeliveryId)
    requires Ticketed(s) && DeliveriesAgree(s)
    requires Touches(s.db, s'.db, q, d) && q in s.issued && s.issued[q].delivery == d && s'.issued == s.issued
    requires DeliveryAgrees(s'.db, d)
    ensures DeliveriesAgree(s')
  {
    forall e ensures DeliveryAgrees(s'.db, e) {
      assert DeliveryAgrees(s.db, e);
    }
    forall e | !IssuedFor(s', e) ensures Untouched(s'.db, e) {
      assert !IssuedFor(s, e);
      assert IssuedFor(s, d);
    }
  }

  /** The log grew by at most one event, about row q. */
  predicate LogsAbout(log: seq<Event>, log': seq<Event>, q: QueueId) {
    log' == log || (|log'| == |log| + 1 && log' == log + [log'[|log|]] && log'[|log|].About(q))
  }

  /** Such an event is no status write of the API. */
  lemma SameOverrides(log: seq<Event>, log': seq<Event>, q: QueueId)
    requires LogsAbout(log, log', q)
    ensures forall d :: Overridden(log', d) == Overridden(log, d)
  {
    assert log' != log ==> forall e :: e in log' <==> e in log || e == log'[|log|];
  }

  lemma TouchKeepsStatuses(s: System, s': System, q: QueueId, d: DeliveryId)
    requires Ticketed(s) && StatusesAgree(s)
    requires Touches(s.db, s'.db, q, d) && SameRow(s.db, s'.db, q) && s'.issued == s.issued
    requires s.db.queue[q].delivery == d && d in s.db.deliveries && LogsAbout(s.log, s'.log, q)
    requires !Overridden(s.log, d) ==>
               && StatusFits(s'.db.queue[q].status, s'.db.deliveries[d])
               && (s'.db.deliveries[d] == Failed <==> |Records(s'.db.deadLetters, d)| == 1)
    ensures StatusesAgree(s')
  {
    SameOverrides(s.log, s'.log, q);
    forall e | e in s'.db.deliveries && !Overridden(s'.log, e)
      ensures Plain(s', e)
    {
      assert Plain(s, e);
      assert IssuedFor(s', e) == IssuedFor(s, e);
      assert IssuedFor(s, d) by {
        assert s.issued[q].delivery == d;
      }
      forall p | p in s'.db.queue && s'.db.queue[p].delivery == e
        ensures StatusFits(s'.db.queue[p].status, s'.db.deliveries[e])
      {
        if p != q {
          assert s.db.queue[p].delivery == e && s.issued[p].delivery == e;
          assert s.issued[q].delivery == d;
        }
      }
    }
  }

  lemma LogElsewhere(log: seq<Event>, log': seq<Event>, q: QueueId, p: QueueId)
    requires LogsAbout(log, log', q) && p != q
    ensures Calls(log', p) == Calls(log, p)
    ensures LostCalls(log', p) == LostCalls(log, p)
  {
    if log' != log {
      LogGrows(log, log'[|log|], p);
    }
  }

  lemma TouchKeepsAccount(s: System, s': System, q: QueueId, d: DeliveryId)
    requires Ticketed(s) && Accounted(s)
    requires Touches(s.db, s'.db, q, d) && q in s.issued && s.issued[q].delivery == d && s'.issued == s.issued
    requires LogsAbout(s.log, s'.log, q)
    requires forall p :: p in s.issued && p != q ==> Sending(s', p) == Sending(s, p)
    requires Balanced(s', q, d)
    ensures Accounted(s')
  {
    forall p | p in s'.issued
      ensures Balanced(s', p, s'.issued[p].delivery)
    {
      if p != q {
        assert Balanced(s, p, s.issued[p].delivery);
        assert s.issued[p].delivery != d;
        LogElsewhere(s.log, s'.log, q, p);
      }
    }
  }

  // ---------------------------------------------------- a task ends: one lemma

  /** Calls that the events `extra` write off for row q. */
  function WrittenOff(extra: seq<Event>): nat {
    if |extra| == 1 && extra[0].Fault() && extra[0].sent then 1 else 0
  }

  /** A task ends with tables db' and at most one fault event. If db' touches only
      the task's row and delivery, leaves them in agreement, and the call (if there
      was one) is either recorded or written off, the system stays safe. */
  lemma EndKeeps(s: System, t: TaskId, db': Tables, extra: seq<Event>)
    requires Safe(s) && t in s.tasks
    requires Touches(s.db, db', s.tasks[t].row, s.tasks[t].delivery) && SameRow(s.db, db', s.tasks[t].row)
    requires RowAgrees(db', db'.queue[s.tasks[t].row]) && DeliveryAgrees(db', s.tasks[t].delivery)
    requires |extra| <= 1 && forall i :: 0 <= i < |extra| ==> extra[i].Fault() && extra[i].row == s.tasks[t].row
    requires |Records(db'.attempts, s.tasks[t].delivery)| + WrittenOff(extra)
             == |Records(s.db.attempts, s.tasks[t].delivery)| + if s.tasks[t].phase.Sent? then 1 else 0
    requires !Overridden(s.log, s.tasks[t].delivery) ==>
               && StatusFits(db'.queue[s.tasks[t].row].status, db'.deliveries[s.tasks[t].delivery])
               && (db'.deliveries[s.tasks[t].delivery] == Failed
                   <==> |Records(db'.deadLetters, s.tasks[t].delivery)| == 1)
    ensures Safe(End(s, t, db').(log := s.log + extra))
  {
    var k := s.tasks[t];
    var s' := End(s, t, db').(log := s.log + extra);
    assert Owns(s.db, k);
    EndKeepsOwners(s, t, s');
    TouchKeepsTickets(s, s', k.row, k.delivery);
    TouchKeepsRows(s, s', k.row, k.delivery);
    TouchKeepsDeliveries(s, s', k.row, k.delivery);
    EndKeepsAccount(s, t, s', extra);
    WriteOff(s.log, extra, k.row);
    TouchKeepsStatuses(s, s', k.row, k.delivery);
  }

  lemma EndKeepsOwners(s: System, t: TaskId, s': System)
    requires Exclusive(s) && Ticketed(s) && t in s.tasks && s'.tasks == s.tasks - {t}
    requires Touches(s.db, s'.db, s.tasks[t].row, s.tasks[t].delivery)
    ensures Exclusive(s')
  {
    forall u | u in s'.tasks ensures Owns(s'.db, s'.tasks[u]) {
      assert Owns(s.db, s.tasks[u]) && s.tasks[u].row != s.tasks[t].row;
      assert Owns(s.db, s.tasks[t]);
      assert s.issued[s.tasks[u].row].delivery != s.issued[s.tasks[t].row].delivery;
    }
  }

  lemma EndKeepsAccount(s: System, t: TaskId, s': System, extra: seq<Event>)
    requires Exclusive(s) && Ticketed(s) && Accounted(s) && t in s.tasks
    requires s'.tasks == s.tasks - {t} && s'.issued == s.issued && s'.log == s.log + extra
    requires Touches(s.db, s'.db, s.tasks[t].row, s.tasks[t].delivery)
    requires |extra| <= 1 && forall i :: 0 <= i < |extra| ==> extra[i].Fault() && extra[i].row == s.tasks[t].row
    requires |Records(s'.db.attempts, s.tasks[t].delivery)| + WrittenOff(extra)
             == |Records(s.db.attempts, s.tasks[t].delivery)| + if s.tasks[t].phase.Sent? then 1 else 0
    ensures Accounted(s')
  {
    var k := s.tasks[t];
    assert Owns(s.db, k) && s.issued[k.row].delivery == k.delivery;
    EndStopsSending(s, t, s');
    assert Balanced(s, k.row, k.delivery);
    WriteOff(s.log, extra, k.row);
    TouchKeepsAccount(s, s', k.row, k.delivery);
  }

  lemma WriteOff(log: seq<Event>, extra: seq<Event>, q: QueueId)
    requires |extra| <= 1 && forall i :: 0 <= i < |extra| ==> extra[i].Fault() && extra[i].row == q
    ensures Calls(log + extra, q) == Calls(log, q)
    ensures LostCalls(log + extra, q) == LostCalls(log, q) + WrittenOff(extra)
    ensures LogsAbout(log, log + extra, q)
  {
    if extra == [] {
      assert log + extra == log;
    } else {
      assert extra == [extra[0]];
      LogGrows(log, extra[0], q);
    }
  }

  lemma EndStopsSending(s: System, t: TaskId, s': System)
    requires Exclusive(s) && t in s.tasks && s'.tasks == s.tasks - {t}
    ensures forall p :: p != s.tasks[t].row ==> Sending(s', p) == Sending(s, p)
    ensures !Sending(s', s.tasks[t].row)
    ensures Sending(s, s.tasks[t].row) == s.tasks[t].phase.Sent?
  {
    forall p | p != s.tasks[t].row ensures Sending(s', p) == Sending(s, p) {
      if Sending(s, p) {
        var u :| u in s.tasks && s.tasks[u].row == p && s.tasks[u].phase.Sent?;
        assert u in s'.tasks;
      }
    }
  }

  /** The delivery of a live task is pending, unless the API wrote its status. */
  lemma HeldIsPending(s: System, t: TaskId)
    requires Safe(s) && t in s.tasks
    ensures var d := s.tasks[t].delivery;
      && d in s.db.deliveries
      && (!Overridden(s.log, d) ==> s.db.deliveries[d] == Pending && Records(s.db.deadLetters, d) == [])
  {
    var k := s.tasks[t];
    assert Owns(s.db, k) && RowAgrees(s.db, s.db.queue[k.row]);
    assert !Overridden(s.log, k.delivery) ==> Plain(s, k.delivery);
  }

  // ------------------------------------------------------ steps that end a task

  /** Each outcome transaction settles the row and its delivery together and
      records exactly one attempt. */
  lemma SettleTxAgrees(db: Tables, k: Task, r: Response)
    requires Owns(db, k) && RowAgrees(db, db.queue[k.row]) && DeliveryAgrees(db, k.delivery)
    ensures var db' := SettleTx(db, k, r);
      && Touches(db, db', k.row, k.delivery) && SameRow(db, db', k.row)
      && RowAgrees(db', db'.queue[k.row]) && DeliveryAgrees(db', k.delivery)
      && Records(db'.attempts, k.delivery) == Records(db.attempts, k.delivery) + [k.attempt]
      && (db.deliveries[k.delivery] == Pending ==>
            StatusFits(db'.queue[k.row].status, db'.deliveries[k.delivery])
            && (db'.deliveries[k.delivery] == Failed <==> |Records(db'.deadLetters, k.delivery)| == 1))
  {
    SettleEffect(db, k, r);
  }

  lemma SettleKeeps(s: System, t: TaskId, commits: bool)
    requires Safe(s) && Enabled(s, Settle(t, commits), true)
    ensures Safe(Apply(s, Settle(t, commits), true))
  {
    var k := s.tasks[t];
    assert Owns(s.db, k);
    assert RowAgrees(s.db, s.db.queue[k.row]) && DeliveryAgrees(s.db, k.delivery);
    HeldIsPending(s, t);
    if commits {
      SettleTxAgrees(s.db, k, k.phase.response);
      EndKeeps(s, t, SettleTx(s.db, k, k.phase.response), []);
      assert s.log + [] == s.log;
    } else {
      EndKeeps(s, t, s.db, [CommitFailed(k.row, true)]);
    }
  }

  lemma MissingSecretKeeps(s: System, t: TaskId, commits: bool)
    requires Safe(s) && Enabled(s, MissingSecret(t, commits), true)
    ensures Safe(Apply(s, MissingSecret(t, commits), true))
  {
    var k := s.tasks[t];
    assert Owns(s.db, k);
    assert RowAgrees(s.db, s.db.queue[k.row]) && DeliveryAgrees(s.db, k.delivery);
    HeldIsPending(s, t);
    if commits {
      MissingSecretEffect(s.db, k.row, k.delivery, k.attempt);
      EndKeeps(s, t, MissingSecretTx(s.db, k.row, k.delivery, k.attempt), []);
      assert s.log + [] == s.log;
    } else {
      EndKeeps(s, t, s.db, [CommitFailed(k.row, false)]);
    }
  }

  /** The guard's skip finishes the row of a delivery that is no longer pending. */
  lemma SkipKeeps(s: System, t: TaskId, writes: bool)
    requires Safe(s) && Enabled(s, SkipDelivered(t, writes), true)
    ensures Safe(Apply(s, SkipDelivered(t, writes), true))
    ensures Overridden(s.log, s.tasks[t].delivery)
  {
    var k := s.tasks[t];
    assert Owns(s.db, k);
    assert RowAgrees(s.db, s.db.queue[k.row]) && DeliveryAgrees(s.db, k.delivery);
    HeldIsPending(s, t);
    EndKeeps(s, t, if writes then SetStatus(s.db, k.row, RowDelivered) else s.db, []);
    assert s.log + [] == s.log;
  }

  lemma RequeueKeeps(s: System, t: TaskId, writes: bool)
    requires Safe(s) && Enabled(s, Requeue(t, writes), true)
    ensures Safe(Apply(s, Requeue(t, writes), true))
  {
    var k := s.tasks[t];
    assert Owns(s.db, k);
    assert RowAgrees(s.db, s.db.queue[k.row]) && DeliveryAgrees(s.db, k.delivery);
    HeldIsPending(s, t);
    EndKeeps(s, t, if writes then SetStatus(s.db, k.row, RowPending) else s.db, []);
    assert s.log + [] == s.log;
  }

  lemma CrashKeeps(s: System, t: TaskId)
    requires Safe(s) && Enabled(s, Crash(t), true)
    ensures Safe(Apply(s, Crash(t), true))
  {
    var k := s.tasks[t];
    assert Owns(s.db, k);
    assert RowAgrees(s.db, s.db.queue[k.row]) && DeliveryAgrees(s.db, k.delivery);
    HeldIsPending(s, t);
    EndKeeps(s, t, s.db, [Crashed(k.row, k.phase.Sent?)]);
  }

  // ------------------------------------------------- steps of a task that lives on

  /** New or changed tasks that are not in the Sent phase leave every row's
      in-flight flag alone. */
  lemma SameSending(s: System, s': System, t: TaskId)
    requires t in s.tasks ==> !s.tasks[t].phase.Sent?
    requires t in s'.tasks ==> !s'.tasks[t].phase.Sent?
    requires forall u :: u != t ==> (u in s.tasks <==> u in s'.tasks)
    requires forall u :: u != t && u in s.tasks ==> s'.tasks[u] == s.tasks[u]
    ensures forall p :: Sending(s', p) == Sending(s, p)
  {
    forall p ensures Sending(s', p) == Sending(s, p) {
      if Sending(s, p) {
        var u :| u in s.tasks && s.tasks[u].row == p && s.tasks[u].phase.Sent?;
        assert u in s'.tasks && s'.tasks[u] == s.tasks[u];
      }
    }
  }

  lemma ClaimKeepsOwners(s: System, t: TaskId, q: QueueId)
    requires Exclusive(s) && Enabled(s, Claim(t, q), true)
    ensures Exclusive(Apply(s, Claim(t, q), true))
  {
    var s' := Apply(s, Claim(t, q), true);
    forall u | u in s.tasks ensures s.tasks[u].row != q && Owns(s'.db, s.tasks[u]) {
      assert Owns(s.db, s.tasks[u]);
    }
  }

  lemma ClaimKeepsAccount(s: System, t: TaskId, q: QueueId)
    requires Ticketed(s) && Accounted(s) && Enabled(s, Claim(t, q), true)
    ensures Accounted(Apply(s, Claim(t, q), true))
  {
    var s' := Apply(s, Claim(t, q), true);
    SameSending(s, s', t);
    forall p | p in s'.issued ensures Balanced(s', p, s'.issued[p].delivery) {
      assert Balanced(s, p, s.issued[p].delivery);
    }
  }

  /** What the tables, the tickets and the API's writes say about one another. */
  ghost predicate TablesAgree(s: System) {
    Ticketed(s) && RowsAgree(s) && DeliveriesAgree(s) && StatusesAgree(s)
  }

  /** A row may move between pending and processing. */
  lemma ActiveRowKeeps(s: System, s': System, q: QueueId, status: RowStatus)
    requires TablesAgree(s) && q in s.db.queue && s.db.queue[q].Active()
    requires status.RowPending? || status.RowProcessing?
    requires s'.db == SetStatus(s.db, q, status) && s'.issued == s.issued && s'.log == s.log
    ensures TablesAgree(s')
  {
    var d := s.db.queue[q].delivery;
    assert RowAgrees(s.db, s.db.queue[q]) && RowAgrees(s'.db, s'.db.queue[q]);
    assert DeliveryAgrees(s.db, d) && DeliveryAgrees(s'.db, d);
    assert Touches(s.db, s'.db, q, d);
    assert !Overridden(s.log, d) ==> Plain(s, d);
    TouchKeepsTickets(s, s', q, d);
    TouchKeepsRows(s, s', q, d);
    TouchKeepsDeliveries(s, s', q, d);
    TouchKeepsStatuses(s, s', q, d);
  }

  lemma SameTablesKeep(s: System, s': System, q: QueueId)
    requires TablesAgree(s)
    requires s'.db == s.db && s'.issued == s.issued && LogsAbout(s.log, s'.log, q)
    ensures TablesAgree(s')
  {
    SameOverrides(s.log, s'.log, q);
    assert forall e :: IssuedFor(s', e) == IssuedFor(s, e);
    forall e | e in s'.db.deliveries && !Overridden(s'.log, e)
      ensures Plain(s', e)
    {
      assert Plain(s, e);
    }
  }

  lemma ClaimKeeps(s: System, t: TaskId, q: QueueId)
    requires Safe(s) && Enabled(s, Claim(t, q), true)
    ensures Safe(Apply(s, Claim(t, q), true))
  {
    ActiveRowKeeps(s, Apply(s, Claim(t, q), true), q, RowProcessing);
    ClaimKeepsOwners(s, t, q);
    ClaimKeepsAccount(s, t, q);
  }

  lemma CheckKeepsAccount(s: System, t: TaskId)
    requires Accounted(s) && Enabled(s, CheckDelivered(t), true)
    ensures Accounted(Apply(s, CheckDelivered(t), true))
  {
    var s' := Apply(s, CheckDelivered(t), true);
    SameSending(s, s', t);
    forall q | q in s'.issued ensures Balanced(s', q, s'.issued[q].delivery) {
      assert Balanced(s, q, s.issued[q].delivery);
    }
  }

  lemma CheckKeepsOwners(s: System, t: TaskId)
    requires Exclusive(s) && Enabled(s, CheckDelivered(t), true)
    ensures Exclusive(Apply(s, CheckDelivered(t), true))
  {
    var s' := Apply(s, CheckDelivered(t), true);
    assert Owns(s.db, s.tasks[t]);
    forall u | u in s'.tasks ensures Owns(s'.db, s'.tasks[u]) {
      assert Owns(s.db, s.tasks[u]);
    }
  }

  lemma CheckKeeps(s: System, t: TaskId)
    requires Safe(s) && Enabled(s, CheckDelivered(t), true)
    ensures Safe(Apply(s, CheckDelivered(t), true))
  {
    CheckKeepsOwners(s, t);
    SameTablesKeep(s, Apply(s, CheckDelivered(t), true), s.tasks[t].row);
    CheckKeepsAccount(s, t);
  }

  lemma SendStartsSending(s: System, t: TaskId, r: Response)
    requires Exclusive(s) && Enabled(s, Send(t, r), true)
    ensures var s' := Apply(s, Send(t, r), true);
      && Sending(s', s.tasks[t].row) && !Sending(s, s.tasks[t].row)
      && forall p :: p != s.tasks[t].row ==> Sending(s', p) == Sending(s, p)
  {
    var s' := Apply(s, Send(t, r), true);
    assert s'.tasks[t].phase.Sent?;
    forall p | p != s.tasks[t].row ensures Sending(s', p) == Sending(s, p) {
      if Sending(s, p) {
        var u :| u in s.tasks && s.tasks[u].row == p && s.tasks[u].phase.Sent?;
        assert u in s'.tasks && s'.tasks[u] == s.tasks[u];
      }
    }
  }

  lemma SendKeepsAccount(s: System, t: TaskId, r: Response)
    requires Exclusive(s) && Ticketed(s) && Accounted(s) && Enabled(s, Send(t, r), true)
    ensures Accounted(Apply(s, Send(t, r), true))
  {
    var k := s.tasks[t];
    assert Owns(s.db, k);
    SendStartsSending(s, t, r);
    assert Balanced(s, k.row, k.delivery);
    LogGrows(s.log, Call(k.row, k.delivery, k.attempt, r), k.row);
    TouchKeepsAccount(s, Apply(s, Send(t, r), true), k.row, k.delivery);
  }

  lemma SendKeepsOwners(s: System, t: TaskId, r: Response)
    requires Exclusive(s) && Enabled(s, Send(t, r), true)
    ensures Exclusive(Apply(s, Send(t, r), true))
  {
    forall u | u in s.tasks ensures Owns(s.db, Apply(s, Send(t, r), true).tasks[u]) {
      assert Owns(s.db, s.tasks[u]);
    }
  }

  lemma SendKeepsTables(s: System, t: TaskId, r: Response)
    requires TablesAgree(s) && Enabled(s, Send(t, r), true)
    ensures TablesAgree(Apply(s, Send(t, r), true))
  {
    SameTablesKeep(s, Apply(s, Send(t, r), true), s.tasks[t].row);
  }

  lemma SendKeeps(s: System, t: TaskId, r: Response)
    requires Safe(s) && Enabled(s, Send(t, r), true)
    ensures Safe(Apply(s, Send(t, r), true))
  {
    SendKeepsOwners(s, t, r);
    SendKeepsAccount(s, t, r);
    SendKeepsTables(s, t, r);
  }

  // ------------------------------------------- steps of the API and the reapers

  /** The tables may change in deliveries alone: tasks, rows and records stay. */
  ghost predicate OnlyDeliveries(s: System, s': System) {
    && s'.tasks == s.tasks && s'.issued == s.issued
    && s'.db.queue == s.db.queue && s'.db.attempts == s.db.attempts && s'.db.deadLetters == s.db.deadLetters
    && (forall d :: d in s.db.deliveries ==> d in s'.db.deliveries)
    && (forall d :: d in s.db.deliveries && s.db.deliveries[d] != Pending ==> s'.db.deliveries[d] != Pending)
  }

  lemma OnlyDeliveriesKeepRows(s: System, s': System)
    requires Exclusive(s) && Ticketed(s) && RowsAgree(s) && DeliveriesAgree(s) && OnlyDeliveries(s, s')
    ensures Exclusive(s') && Ticketed(s') && RowsAgree(s') && DeliveriesAgree(s')
  {
    forall u | u in s'.tasks ensures Owns(s'.db, s'.tasks[u]) {
      assert Owns(s.db, s.tasks[u]);
    }
    forall q | q in s'.db.queue ensures RowAgrees(s'.db, s'.db.queue[q]) {
      assert RowAgrees(s.db, s.db.queue[q]);
    }
    forall q | q in s'.issued && q !in s'.db.queue ensures Settled(s'.db, s'.issued[q]) {
      assert Settled(s.db, s.issued[q]);
    }
    forall e ensures DeliveryAgrees(s'.db, e) && (IssuedFor(s', e) || Untouched(s'.db, e)) {
      assert DeliveryAgrees(s.db, e) && IssuedFor(s', e) == IssuedFor(s, e);
    }
  }

  lemma AcceptKeeps(s: System, d: DeliveryId)
    requires Safe(s) && Enabled(s, Accept(d), true)
    ensures Safe(Apply(s, Accept(d), true))
  {
    var s' := Apply(s, Accept(d), true);
    OnlyDeliveriesKeepRows(s, s');
    AcceptKeepsStatuses(s, d);
    forall q | q in s'.issued ensures Balanced(s', q, s'.issued[q].delivery) {
      assert Balanced(s, q, s.issued[q].delivery) && Sending(s', q) == Sending(s, q);
    }
  }

  lemma AcceptKeepsStatuses(s: System, d: DeliveryId)
    requires Ticketed(s) && DeliveriesAgree(s) && StatusesAgree(s) && d !in s.db.deliveries
    ensures StatusesAgree(Apply(s, Accept(d), true))
  {
    var s' := Apply(s, Accept(d), true);
    assert !IssuedFor(s, d);
    assert Untouched(s.db, d);
    forall e | e in s'.db.deliveries && !Overridden(s'.log, e)
      ensures Plain(s', e)
    {
      assert IssuedFor(s', e) == IssuedFor(s, e);
      assert e != d ==> Plain(s, e);
      assert forall q :: q in s.db.queue && s.db.queue[q].delivery == e ==> s.issued[q].delivery == e;
    }
  }

  /** A status write of the API: an event about no row. */
  lemma OverrideKeeps(s: System, d: DeliveryId, status: DeliveryStatus, e: Event)
    requires Safe(s) && d in s.db.deliveries && status != Pending
    requires e == TestMarked(d) || e == PublishFailed(d)
    ensures Safe(Log(s.(db := SetDelivery(s.db, d, status)), e))
  {
    var s' := Log(s.(db := SetDelivery(s.db, d, status)), e);
    OnlyDeliveriesKeepRows(s, s');
    OverrideKeepsStatuses(s, d, status, e);
    forall q | q in s'.issued ensures Balanced(s', q, s'.issued[q].delivery) {
      assert Balanced(s, q, s.issued[q].delivery) && Sending(s', q) == Sending(s, q);
      LogGrows(s.log, e, q);
    }
  }

  lemma OverrideKeepsStatuses(s: System, d: DeliveryId, status: DeliveryStatus, e: Event)
    requires StatusesAgree(s) && d in s.db.deliveries
    requires e == TestMarked(d) || e == PublishFailed(d)
    ensures StatusesAgree(Log(s.(db := SetDelivery(s.db, d, status)), e))
  {
    var s' := Log(s.(db := SetDelivery(s.db, d, status)), e);
    assert e in s'.log && forall x :: x in s.log ==> x in s'.log;
    forall f | f in s'.db.deliveries && !Overridden(s'.log, f)
      ensures Plain(s', f)
    {
      assert Plain(s, f) && f != d;
      assert IssuedFor(s', f) == IssuedFor(s, f);
    }
  }

  lemma NeverIssuedNeverLogged(log: seq<Event>, q: QueueId)
    requires forall i :: 0 <= i < |log| ==> !log[i].About(q)
    ensures Calls(log, q) == 0 && LostCalls(log, q) == 0
  {
    if log != [] {
      NeverIssuedNeverLogged(log[..|log| - 1], q);
    }
  }

  /** A delivery without an outcome and without a row has never had a row. */
  lemma NoRowNeverIssued(s: System, d: DeliveryId)
    requires Safe(s) && d in s.db.deliveries && s.db.deliveries[d] == Pending && !HasRow(s.db, d)
    ensures !IssuedFor(s, d)
  {
    forall p | p in s.issued ensures s.issued[p].delivery != d {
      assert p !in s.db.queue ==> Settled(s.db, s.issued[p]);
    }
  }

  lemma InsertKeepsOwners(s: System, q: QueueId, d: DeliveryId, limit: nat)
    requires Exclusive(s) && Ticketed(s) && q !in s.issued
    ensures Exclusive(InsertRow(s, q, d, limit))
  {
    forall u | u in s.tasks ensures s.tasks[u].row != q && Owns(InsertRow(s, q, d, limit).db, s.tasks[u]) {
      assert Owns(s.db, s.tasks[u]) && s.tasks[u].row in s.issued;
    }
  }

  lemma InsertKeepsRows(s: System, q: QueueId, d: DeliveryId, limit: nat)
    requires Ticketed(s) && RowsAgree(s) && q !in s.issued && limit >= 1
    requires d in s.db.deliveries && !IssuedFor(s, d) && Untouched(s.db, d)
    ensures Ticketed(InsertRow(s, q, d, limit)) && RowsAgree(InsertRow(s, q, d, limit))
  {
    var s' := InsertRow(s, q, d, limit);
    forall p | p in s'.db.queue ensures RowAgrees(s'.db, s'.db.queue[p]) {
      assert p != q ==> RowAgrees(s.db, s.db.queue[p]);
    }
    forall p | p in s'.issued && p !in s'.db.queue ensures Settled(s'.db, s'.issued[p]) {
      assert Settled(s.db, s.issued[p]);
    }
  }

  lemma InsertIssues(s: System, q: QueueId, d: DeliveryId, limit: nat, e: DeliveryId)
    requires q !in s.issued
    ensures IssuedFor(InsertRow(s, q, d, limit), e) <==> e == d || IssuedFor(s, e)
  {
    var s' := InsertRow(s, q, d, limit);
    assert s'.issued[q].delivery == d;
    if IssuedFor(s, e) {
      var p :| p in s.issued && s.issued[p].delivery == e;
      assert p in s'.issued && s'.issued[p].delivery == e;
    }
  }

  lemma InsertKeepsRecords(s: System, q: QueueId, d: DeliveryId, limit: nat)
    requires Exclusive(s) && Ticketed(s) && DeliveriesAgree(s) && Accounted(s) && q !in s.issued
    requires Untouched(s.db, d)
    ensures DeliveriesAgree(InsertRow(s, q, d, limit)) && Accounted(InsertRow(s, q, d, limit))
  {
    var s' := InsertRow(s, q, d, limit);
    forall e ensures DeliveryAgrees(s'.db, e) && (IssuedFor(s', e) || Untouched(s'.db, e)) {
      assert DeliveryAgrees(s.db, e);
      InsertIssues(s, q, d, limit, e);
    }
    forall u | u in s.tasks ensures s.tasks[u].row != q {
      assert Owns(s.db, s.tasks[u]);
    }
    NeverIssuedNeverLogged(s.log, q);
    forall p | p in s'.issued ensures Balanced(s', p, s'.issued[p].delivery) {
      assert Sending(s', p) == Sending(s, p);
      assert p != q ==> Balanced(s, p, s.issued[p].delivery);
    }
  }

  lemma InsertKeepsStatuses(s: System, q: QueueId, d: DeliveryId, limit: nat)
    requires Ticketed(s) && StatusesAgree(s) && q !in s.issued && !IssuedFor(s, d)
    ensures StatusesAgree(InsertRow(s, q, d, limit))
  {
    var s' := InsertRow(s, q, d, limit);
    forall e | e in s'.db.deliveries && !Overridden(s'.log, e)
      ensures Plain(s', e)
    {
      assert Plain(s, e);
      InsertIssues(s, q, d, limit, e);
    }
  }

  lemma InsertKeeps(s: System, q: QueueId, d: DeliveryId, limit: nat)
    requires Safe(s) && q !in s.issued && limit >= 1 && d in s.db.deliveries && !IssuedFor(s, d)
    ensures Safe(InsertRow(s, q, d, limit))
  {
    assert Untouched(s.db, d);
    InsertKeepsOwners(s, q, d, limit);
    InsertKeepsRows(s, q, d, limit);
    InsertKeepsRecords(s, q, d, limit);
    InsertKeepsStatuses(s, q, d, limit);
  }

  lemma ReapOrphanKeeps(s: System, q: QueueId, d: DeliveryId)
    requires Safe(s) && Enabled(s, ReapOrphan(q, d), true)
    ensures Safe(Apply(s, ReapOrphan(q, d), true))
  {
    if !HasRow(s.db, d) {
      NoRowNeverIssued(s, d);
      InsertKeeps(s, q, d, DEFAULT_MAX_ATTEMPTS);
    }
  }

  lemma ReapKeepsAccount(s: System, q: QueueId)
    requires Accounted(s) && q in s.db.queue
    ensures Accounted(s.(db := SetStatus(s.db, q, RowPending)))
  {
    var s' := s.(db := SetStatus(s.db, q, RowPending));
    forall p | p in s'.issued ensures Balanced(s', p, s'.issued[p].delivery) {
      assert Balanced(s, p, s.issued[p].delivery) && Sending(s', p) == Sending(s, p);
    }
  }

  /** The reaper puts a row below its limit back to pending. */
  lemma ReapResets(s: System, q: QueueId)
    requires RowsAgree(s) && Enabled(s, Reap(q), true)
    ensures Apply(s, Reap(q), true) == s.(db := SetStatus(s.db, q, RowPending))
  {
    assert RowAgrees(s.db, s.db.queue[q]);
  }

  lemma ReapKeepsOwners(s: System, q: QueueId)
    requires Exclusive(s) && Enabled(s, Reap(q), true)
    ensures Exclusive(s.(db := SetStatus(s.db, q, RowPending)))
  {
    forall u | u in s.tasks ensures s.tasks[u].row != q && Owns(SetStatus(s.db, q, RowPending), s.tasks[u]) {
      assert Owns(s.db, s.tasks[u]);
    }
  }

  /** Under the lease hypothesis the reaper only ever puts a row back to pending. */
  lemma ReapKeeps(s: System, q: QueueId)
    requires Safe(s) && Enabled(s, Reap(q), true)
    ensures Safe(Apply(s, Reap(q), true))
    ensures Apply(s, Reap(q), true) == s.(db := SetStatus(s.db, q, RowPending))
  {
    var s' := Apply(s, Reap(q), true);
    ReapResets(s, q);
    ReapKeepsOwners(s, q);
    ActiveRowKeeps(s, s', q, RowPending);
    ReapKeepsAccount(s, q);
  }

  lemma CleanUpKeepsTables(s: System, q: QueueId)
    requires TablesAgree(s) && Enabled(s, CleanUp(q), true)
    ensures TablesAgree(Apply(s, CleanUp(q), true))
  {
    var s' := Apply(s, CleanUp(q), true);
    assert RowAgrees(s.db, s.db.queue[q]);
    forall p | p in s'.db.queue ensures RowAgrees(s'.db, s'.db.queue[p]) {
      assert RowAgrees(s.db, s.db.queue[p]);
    }
    forall p | p in s'.issued && p !in s'.db.queue ensures Settled(s'.db, s'.issued[p]) {
      assert p != q ==> Settled(s.db, s.issued[p]);
    }
    forall e ensures DeliveryAgrees(s'.db, e) && (IssuedFor(s', e) || Untouched(s'.db, e)) {
      assert DeliveryAgrees(s.db, e) && IssuedFor(s', e) == IssuedFor(s, e);
    }
    forall e | e in s'.db.deliveries && !Overridden(s'.log, e) ensures Plain(s', e) {
      assert Plain(s, e) && IssuedFor(s', e) == IssuedFor(s, e);
    }
  }

  lemma CleanUpKeepsOwners(s: System, q: QueueId)
    requires Exclusive(s) && Enabled(s, CleanUp(q), true)
    ensures Exclusive(Apply(s, CleanUp(q), true))
  {
    forall u | u in s.tasks ensures Owns(Apply(s, CleanUp(q), true).db, s.tasks[u]) {
      assert Owns(s.db, s.tasks[u]) && s.tasks[u].row != q;
    }
  }

  lemma CleanUpKeeps(s: System, q: QueueId)
    requires Safe(s) && Enabled(s, CleanUp(q), true)
    ensures Safe(Apply(s, CleanUp(q), true))
  {
    var s' := Apply(s, CleanUp(q), true);
    CleanUpKeepsTables(s, q);
    CleanUpKeepsOwners(s, q);
    forall p | p in s'.issued ensures Balanced(s', p, s'.issued[p].delivery) {
      assert Balanced(s, p, s.issued[p].delivery) && Sending(s', p) == Sending(s, p);
    }
  }

  // --------------------------------------------------------------- every step

  lemma ApiKeeps(s: System, step: Step)
    requires Safe(s) && Enabled(s, step, true)
    requires step.Accept? || step.Publish? || step.MarkTest? || step.PublishFails?
    ensures Safe(Apply(s, step, true))
  {
    match step
    case Accept(d) => AcceptKeeps(s, d);
    case Publish(q, d, limit) => InsertKeeps(s, q, d, limit);
    case MarkTest(d) => OverrideKeeps(s, d, Delivered, TestMarked(d));
    case PublishFails(d) => OverrideKeeps(s, d, Failed, PublishFailed(d));
  }

  lemma ReaperKeeps(s: System, step: Step)
    requires Safe(s) && Enabled(s, step, true)
    requires step.ReapOrphan? || step.Reap? || step.CleanUp?
    ensures Safe(Apply(s, step, true))
  {
    match step
    case ReapOrphan(q, d) => ReapOrphanKeeps(s, q, d);
    case Reap(q) => ReapKeeps(s, q);
    case CleanUp(q) => CleanUpKeeps(s, q);
  }

  lemma StepKeeps(s: System, step: Step)
    requires Safe(s) && Enabled(s, step, true)
    ensures Safe(Apply(s, step, true))
  {
    match step
    case Claim(t, q) => ClaimKeeps(s, t, q);
    case CheckDelivered(t) => CheckKeeps(s, t);
    case SkipDelivered(t, writes) => SkipKeeps(s, t, writes);
    case Requeue(t, writes) => RequeueKeeps(s, t, writes);
    case MissingSecret(t, commits) => MissingSecretKeeps(s, t, commits);
    case Send(t, r) => SendKeeps(s, t, r);
    case Settle(t, commits) => SettleKeeps(s, t, commits);
    case Crash(t) => CrashKeeps(s, t);
    case Reap(_) => ReaperKeeps(s, step);
    case ReapOrphan(_, _) => ReaperKeeps(s, step);
    case CleanUp(_) => ReaperKeeps(s, step);
    case _ => ApiKeeps(s, step);
  }
}
