// What a transaction changes, and all that it changes.

module LifecycleEffects {
  import opened Lifecycle

  /** db' differs from db at most in row q, in delivery d and in d's records. */
  ghost predicate Touches(db: Tables, db': Tables, q: QueueId, d: DeliveryId) {
    && db'.queue.Keys == db.queue.Keys
    && (forall p :: p in db.queue && p != q ==> db'.queue[p] == db.queue[p])
    && db'.deliveries.Keys == db.deliveries.Keys
    && (forall e :: e in db.deliveries && e != d ==> db'.deliveries[e] == db.deliveries[e])
    && (forall e :: e != d ==> Records(db'.attempts, e) == Records(db.attempts, e))
    && (forall e :: e != d ==> Records(db'.deadLetters, e) == Records(db.deadLetters, e))
  }

  /** The row that a step may touch, before and after it. */
  ghost predicate SameRow(db: Tables, db': Tables, q: QueueId) {
    && q in db.queue && q in db'.queue
    && db'.queue[q].delivery == db.queue[q].delivery && db'.queue[q].limit == db.queue[q].limit
  }

  lemma SuccessEffect(db: Tables, q: QueueId, d: DeliveryId, attempt: nat)
    requires d in db.deliveries
    ensures var db' := SuccessTx(db, q, d, attempt);
      && Touches(db, db', q, d)
      && (q in db.queue ==> db'.queue[q] == db.queue[q].(status := RowDelivered, attempts := attempt))
      && db'.deliveries[d] == Delivered
      && Records(db'.attempts, d) == Records(db.attempts, d) + [attempt]
      && Records(db'.deadLetters, d) == Records(db.deadLetters, d)
  {
  }

  lemma DeadLetterEffect(db: Tables, q: QueueId, d: DeliveryId, attempt: nat)
    requires d in db.deliveries
    ensures var db' := DeadLetterTx(db, q, d, attempt);
      && Touches(db, db', q, d)
      && (q in db.queue ==> db'.queue[q] == db.queue[q].(status := RowDeadLetter, attempts := attempt))
      && db'.deliveries[d] == Failed
      && Records(db'.attempts, d) == Records(db.attempts, d) + [attempt]
      && Records(db'.deadLetters, d) == Records(db.deadLetters, d) + [attempt]
  {
  }

  lemma RetryEffect(db: Tables, q: QueueId, d: DeliveryId, attempt: nat)
    requires d in db.deliveries
    ensures var db' := RetryTx(db, q, d, attempt);
      && Touches(db, db', q, d)
      && (q in db.queue ==> db'.queue[q] == db.queue[q].(status := RowPending, attempts := attempt))
      && db'.deliveries[d] == db.deliveries[d]
      && Records(db'.attempts, d) == Records(db.attempts, d) + [attempt]
      && Records(db'.deadLetters, d) == Records(db.deadLetters, d)
  {
  }

  lemma MissingSecretEffect(db: Tables, q: QueueId, d: DeliveryId, attempt: nat)
    requires d in db.deliveries
    ensures var db' := MissingSecretTx(db, q, d, attempt);
      && Touches(db, db', q, d)
      && (q in db.queue ==> db'.queue[q] == db.queue[q].(status := RowDeadLetter))
      && db'.deliveries[d] == Failed
      && Records(db'.attempts, d) == Records(db.attempts, d)
      && Records(db'.deadLetters, d) == Records(db.deadLetters, d) + [attempt]
  {
  }

  function Outcome(verdict: Verdict): RowStatus {
    match verdict
    case Succeed => RowDelivered
    case GiveUp => RowDeadLetter
    case TryAgain => RowPending
  }

  /** The outcome arms, whoever holds the row: they write the row, the delivery
      and the records of this one delivery, always recording the attempt, and a
      dead letter exactly when giving up. */
  lemma SettleEffect(db: Tables, k: Task, r: Response)
    requires k.delivery in db.deliveries
    ensures var db' := SettleTx(db, k, r);
      var verdict := Judge(r, k.attempt, k.limit);
      && Touches(db, db', k.row, k.delivery)
      && (k.row in db.queue ==>
            db'.queue[k.row] == db.queue[k.row].(status := Outcome(verdict), attempts := k.attempt))
      && db'.deliveries[k.delivery] == (match verdict
                                        case Succeed => Delivered
                                        case GiveUp => Failed
                                        case TryAgain => db.deliveries[k.delivery])
      && Records(db'.attempts, k.delivery) == Records(db.attempts, k.delivery) + [k.attempt]
      && Records(db'.deadLetters, k.delivery)
         == Records(db.deadLetters, k.delivery) + if verdict.GiveUp? then [k.attempt] else []
  {
    match Judge(r, k.attempt, k.limit)
    case Succeed => SuccessEffect(db, k.row, k.delivery, k.attempt);
    case GiveUp => DeadLetterEffect(db, k.row, k.delivery, k.attempt);
    case TryAgain => RetryEffect(db, k.row, k.delivery, k.attempt);
  }

  /** The outcome of a committed settle, by the answer alone: delivered on success;
      otherwise pending again exactly below the limit with a status of 429 or outside
      400 to 499, and dead-lettered exactly with another status in 400 to 499 or at the
      limit. */
  lemma SettleDecides(db: Tables, k: Task, r: Response)
    requires k.delivery in db.deliveries && k.row in db.queue
    ensures var db' := SettleTx(db, k, r);
      var row := db'.queue[k.row];
      && (row.status == RowDelivered <==> r.success)
      && (row.status == RowPending <==>
            !r.success && k.attempt < k.limit && (r.status == 429 || r.status < 400 || r.status > 499))
      && (row.status == RowDeadLetter <==>
            !r.success && ((400 <= r.status <= 499 && r.status != 429) || k.attempt >= k.limit))
      && row.attempts == k.attempt && row.delivery == db.queue[k.row].delivery
      && (row.status == RowDelivered ==> db'.deliveries[k.delivery] == Delivered)
      && (row.status == RowDeadLetter ==> db'.deliveries[k.delivery] == Failed)
      && (row.status == RowPending ==> db'.deliveries[k.delivery] == db.deliveries[k.delivery])
      && Records(db'.attempts, k.delivery) == Records(db.attempts, k.delivery) + [k.attempt]
      && Records(db'.deadLetters, k.delivery)
         == Records(db.deadLetters, k.delivery) + if row.status == RowDeadLetter then [k.attempt] else []
  {
    SettleEffect(db, k, r);
  }

  /** What the zombie reaper makes of a row, by its numbers alone. */
  lemma ReapEffect(db: Tables, q: QueueId)
    requires q in db.queue && db.queue[q].delivery in db.deliveries
    ensures var row, db' := db.queue[q], ReapTx(db, q);
      && Touches(db, db', q, row.delivery)
      && Records(db'.attempts, row.delivery) == Records(db.attempts, row.delivery)
      && (row.attempts < row.limit ==> db' == db.(queue := db.queue[q := row.(status := RowPending)]))
      && (row.attempts >= row.limit ==>
            && db'.queue[q] == row.(status := RowDeadLetter, attempts := row.attempts + 1)
            && db'.deliveries[row.delivery] == Failed
            && Records(db'.deadLetters, row.delivery) == Records(db.deadLetters, row.delivery) + [row.attempts + 1])
  {
  }

  /** The orphan reaper's row allows three attempts. */
  lemma OrphanEffect(s: System, q: QueueId, d: DeliveryId)
    requires Enabled(s, ReapOrphan(q, d), true)
    ensures var s' := Apply(s, ReapOrphan(q, d), true);
      && (HasRow(s.db, d) ==> s' == s)
      && (!HasRow(s.db, d) ==> s'.db == s.db.(queue := s.db.queue[q := Row(d, RowPending, 0, 3)])
                               && s'.tasks == s.tasks && s'.log == s.log)
  {
  }

  /** A claim hands out the next attempt number and marks the row. */
  lemma ClaimEffect(s: System, t: TaskId, q: QueueId)
    requires Enabled(s, Claim(t, q), true)
    ensures var row, s' := s.db.queue[q], Apply(s, Claim(t, q), true);
      && s'.db == s.db.(queue := s.db.queue[q := row.(status := RowProcessing)])
      && s'.tasks == s.tasks[t := Task(q, row.delivery, row.attempts + 1, row.limit, Claimed)]
  {
  }
}
