// The PostgreSQL delivery lifecycle as a state machine.
//
// `Tables` holds the four tables the worker writes. Each transaction of the
// worker is a function on `Tables`; `System` adds the live worker tasks and a
// log of what the outside world saw; `Step` lists the atomic moves, and a run
// is a sequence of them. Tasks of any number of workers interleave freely.

module Lifecycle {
  type QueueId = nat
  type DeliveryId = nat
  type TaskId = nat

  // ---------------------------------------------------------------- tables

  datatype RowStatus = RowPending | RowProcessing | RowDelivered | RowDeadLetter

  datatype DeliveryStatus = Pending | Delivered | Failed

  /** One row of webhook_queue. */
  datatype Row = Row(delivery: DeliveryId, status: RowStatus, attempts: nat, limit: nat)
  {
    predicate Active() { status.RowPending? || status.RowProcessing? }
  }

  datatype Tables = Tables(
    queue: map<QueueId, Row>,
    deliveries: map<DeliveryId, DeliveryStatus>,
    attempts: map<DeliveryId, seq<nat>>,
    deadLetters: map<DeliveryId, seq<nat>>)

  /** Column default of webhook_queue.max_attempts, used by every INSERT. */
  const DEFAULT_MAX_ATTEMPTS: nat := 3

  function Records(table: map<DeliveryId, seq<nat>>, d: DeliveryId): seq<nat> {
    if d in table then table[d] else []
  }

  function Insert(table: map<DeliveryId, seq<nat>>, d: DeliveryId, n: nat): map<DeliveryId, seq<nat>> {
    table[d := Records(table, d) + [n]]
  }

  /** UPDATE webhook_queue SET status WHERE id: touches nothing when the id is gone. */
  function SetStatus(db: Tables, q: QueueId, status: RowStatus): Tables {
    if q in db.queue then db.(queue := db.queue[q := db.queue[q].(status := status)]) else db
  }

  /** UPDATE webhook_queue SET status, attempt_count WHERE id. */
  function SetRow(db: Tables, q: QueueId, status: RowStatus, attempts: nat): Tables {
    if q in db.queue
    then db.(queue := db.queue[q := db.queue[q].(status := status, attempts := attempts)])
    else db
  }

  /** UPDATE deliveries SET status WHERE id. */
  function SetDelivery(db: Tables, d: DeliveryId, status: DeliveryStatus): Tables {
    if d in db.deliveries then db.(deliveries := db.deliveries[d := status]) else db
  }

  function RecordAttempt(db: Tables, d: DeliveryId, attempt: nat): Tables {
    db.(attempts := Insert(db.attempts, d, attempt))
  }

  /** INSERT INTO dead_letters SELECT ... FROM deliveries WHERE id. */
  function RecordDeadLetter(db: Tables, d: DeliveryId, attempts: nat): Tables {
    if d in db.deliveries then db.(deadLetters := Insert(db.deadLetters, d, attempts)) else db
  }

  // ---------------------------------------------------------- transactions

  function SuccessTx(db: Tables, q: QueueId, d: DeliveryId, attempt: nat): Tables {
    RecordAttempt(SetDelivery(SetRow(db, q, RowDelivered, attempt), d, Delivered), d, attempt)
  }

  function DeadLetterTx(db: Tables, q: QueueId, d: DeliveryId, attempt: nat): Tables {
    RecordAttempt(
      SetDelivery(RecordDeadLetter(SetRow(db, q, RowDeadLetter, attempt), d, attempt), d, Failed),
      d, attempt)
  }

  function RetryTx(db: Tables, q: QueueId, d: DeliveryId, attempt: nat): Tables {
    RecordAttempt(SetRow(db, q, RowPending, attempt), d, attempt)
  }

  /** The missing-secret arm keeps attempt_count and records no attempt. */
  function MissingSecretTx(db: Tables, q: QueueId, d: DeliveryId, attempt: nat): Tables {
    RecordDeadLetter(SetDelivery(SetStatus(db, q, RowDeadLetter), d, Failed), d, attempt)
  }

  /** What reap_zombies does to one stuck row. */
  function ReapTx(db: Tables, q: QueueId): Tables
    requires q in db.queue
  {
    var row := db.queue[q];
    if row.attempts >= row.limit then
      SetDelivery(
        RecordDeadLetter(SetRow(db, q, RowDeadLetter, row.attempts + 1), row.delivery, row.attempts + 1),
        row.delivery, Failed)
    else
      SetStatus(db, q, RowPending)
  }

  /** The response of deliver_with_routing, as far as the outcome arms read it. */
  datatype Response = Response(success: bool, status: int)

  const OK: Response := Response(true, 200)

  predicate NonRetryable(status: int) {
    400 <= status < 500 && status != 429
  }

  datatype Verdict = Succeed | GiveUp | TryAgain

  function Judge(r: Response, attempt: nat, limit: nat): Verdict {
    if r.success then Succeed
    else if NonRetryable(r.status) then GiveUp
    else if attempt >= limit then GiveUp
    else TryAgain
  }

  function SettleTx(db: Tables, k: Task, r: Response): Tables {
    match Judge(r, k.attempt, k.limit)
    case Succeed => SuccessTx(db, k.row, k.delivery, k.attempt)
    case GiveUp => DeadLetterTx(db, k.row, k.delivery, k.attempt)
    case TryAgain => RetryTx(db, k.row, k.delivery, k.attempt)
  }

  // ----------------------------------------------------------------- tasks

  /** Where a spawned delivery task stands: just claimed; saw the delivery
      already delivered; past the idempotency guard; or holding a response. */
  datatype Phase = Claimed | SawDelivered | Cleared | Sent(response: Response)

  datatype Task = Task(row: QueueId, delivery: DeliveryId, attempt: nat, limit: nat, phase: Phase)

  /** The log: calls of deliver_with_routing, each of which may send no request, one or
      several; the two kinds of fault that end a task, where `sent` says whether the task
      had already made its call; and the two status writes of the API. */
  datatype Event =
    | Call(row: QueueId, delivery: DeliveryId, attempt: nat, answer: Response)
    | Crashed(row: QueueId, sent: bool)
    | CommitFailed(row: QueueId, sent: bool)
    | TestMarked(delivery: DeliveryId)
    | PublishFailed(delivery: DeliveryId)
  {
    predicate Fault() { Crashed? || CommitFailed? }

    predicate About(q: QueueId) { (Call? || Fault()) && row == q }
  }

  /** What a queue row was issued for; kept after the row is cleaned up. */
  datatype Ticket = Ticket(delivery: DeliveryId, limit: nat)

  datatype System = System(
    db: Tables,
    tasks: map<TaskId, Task>,
    issued: map<QueueId, Ticket>,
    log: seq<Event>)

  const START: System := System(Tables(map[], map[], map[], map[]), map[], map[], [])

  /** One published delivery that allows a single attempt, with none recorded yet. */
  function OneRow(status: RowStatus, tasks: map<TaskId, Task>, log: seq<Event>): System {
    System(Tables(map[0 := Row(0, status, 0, 1)], map[0 := Pending], map[], map[]), tasks, map[0 := Ticket(0, 1)], log)
  }

  function Calls(log: seq<Event>, q: QueueId): nat {
    if log == [] then 0
    else
      var e := log[|log| - 1];
      Calls(log[..|log| - 1], q) + if e.Call? && e.row == q then 1 else 0
  }

  function Faults(log: seq<Event>, q: QueueId): nat {
    if log == [] then 0
    else
      var e := log[|log| - 1];
      Faults(log[..|log| - 1], q) + if e.Fault() && e.row == q then 1 else 0
  }

  /** Faults that hit a task of row q after its delivery call. */
  function LostCalls(log: seq<Event>, q: QueueId): nat {
    if log == [] then 0
    else
      var e := log[|log| - 1];
      LostCalls(log[..|log| - 1], q) + if e.Fault() && e.row == q && e.sent then 1 else 0
  }

  ghost predicate Observed(log: seq<Event>, d: DeliveryId) {
    exists e :: e in log && e.Call? && e.delivery == d && e.answer.success
  }

  predicate Marked(log: seq<Event>, d: DeliveryId) {
    TestMarked(d) in log
  }

  predicate Unpublished(log: seq<Event>, d: DeliveryId) {
    PublishFailed(d) in log
  }

  // ----------------------------------------------------------------- steps

  datatype Step =
    | Accept(d: DeliveryId)
    | Publish(q: QueueId, d: DeliveryId, limit: nat)
    | MarkTest(d: DeliveryId)
    | PublishFails(d: DeliveryId)
    | ReapOrphan(q: QueueId, d: DeliveryId)
    | Claim(t: TaskId, q: QueueId)
    | CheckDelivered(t: TaskId)
    | SkipDelivered(t: TaskId, writes: bool)
    | Requeue(t: TaskId, writes: bool)
    | MissingSecret(t: TaskId, commits: bool)
    | Send(t: TaskId, r: Response)
    | Settle(t: TaskId, commits: bool)
    | Crash(t: TaskId)
    | Reap(q: QueueId)
    | CleanUp(q: QueueId)

  predicate HasRow(db: Tables, d: DeliveryId) {
    exists q :: q in db.queue && db.queue[q].delivery == d
  }

  predicate Held(s: System, q: QueueId) {
    exists t :: t in s.tasks && s.tasks[t].row == q
  }

  predicate IssuedFor(s: System, d: DeliveryId) {
    exists q :: q in s.issued && s.issued[q].delivery == d
  }

  /** `leased` adds the lease hypothesis: the reaper and the clean-up job only
      touch a row that no live task holds.

      The API publishes a delivery once, whatever its status is by then. Its two
      status writes look at nothing: a test key marks the delivery as delivered, and
      a publish that is reported as failed, with or without a row inserted, marks it
      as failed. */
  predicate Enabled(s: System, step: Step, leased: bool) {
    match step
    case Accept(d) => d !in s.db.deliveries
    case Publish(q, d, limit) => q !in s.issued && limit >= 1 && d in s.db.deliveries && !IssuedFor(s, d)
    case MarkTest(d) => d in s.db.deliveries
    case PublishFails(d) => d in s.db.deliveries
    case ReapOrphan(q, d) =>
      q !in s.issued && d in s.db.deliveries && s.db.deliveries[d] == Pending
      && (forall p :: p in s.db.queue && s.db.queue[p].delivery == d ==> !s.db.queue[p].Active())
    case Claim(t, q) => t !in s.tasks && q in s.db.queue && s.db.queue[q].status == RowPending
    case CheckDelivered(t) => t in s.tasks && s.tasks[t].phase == Claimed
    case SkipDelivered(t, _) => t in s.tasks && s.tasks[t].phase == SawDelivered
    case Requeue(t, _) => t in s.tasks && s.tasks[t].phase == Cleared
    case MissingSecret(t, _) => t in s.tasks && s.tasks[t].phase == Cleared
    case Send(t, _) => t in s.tasks && s.tasks[t].phase == Cleared
    case Settle(t, _) => t in s.tasks && s.tasks[t].phase.Sent?
    case Crash(t) => t in s.tasks
    case Reap(q) => q in s.db.queue && s.db.queue[q].status == RowProcessing && (leased ==> !Held(s, q))
    case CleanUp(q) => q in s.db.queue && !s.db.queue[q].Active() && (leased ==> !Held(s, q))
  }

  function InsertRow(s: System, q: QueueId, d: DeliveryId, limit: nat): System {
    s.(db := s.db.(queue := s.db.queue[q := Row(d, RowPending, 0, limit)]),
       issued := s.issued[q := Ticket(d, limit)])
  }

  function SetPhase(s: System, t: TaskId, phase: Phase): System
    requires t in s.tasks
  {
    s.(tasks := s.tasks[t := s.tasks[t].(phase := phase)])
  }

  /** Task t ends, leaving the tables as given. */
  function End(s: System, t: TaskId, db: Tables): System {
    s.(db := db, tasks := s.tasks - {t})
  }

  function Apply(s: System, step: Step, leased: bool): System
    requires Enabled(s, step, leased)
  {
    match step
    case Accept(d) => s.(db := s.db.(deliveries := s.db.deliveries[d := Pending]))
    case Publish(q, d, limit) => InsertRow(s, q, d, limit)
    case MarkTest(d) => Log(s.(db := SetDelivery(s.db, d, Delivered)), TestMarked(d))
    case PublishFails(d) => Log(s.(db := SetDelivery(s.db, d, Failed)), PublishFailed(d))
    case ReapOrphan(q, d) =>
      if HasRow(s.db, d) then s else InsertRow(s, q, d, DEFAULT_MAX_ATTEMPTS)
    case Claim(t, q) =>
      var row := s.db.queue[q];
      s.(db := SetStatus(s.db, q, RowProcessing),
         tasks := s.tasks[t := Task(q, row.delivery, row.attempts + 1, row.limit, Claimed)])
    case CheckDelivered(t) =>
      var d := s.tasks[t].delivery;
      SetPhase(s, t, if d in s.db.deliveries && s.db.deliveries[d] == Delivered then SawDelivered else Cleared)
    case SkipDelivered(t, writes) =>
      End(s, t, if writes then SetStatus(s.db, s.tasks[t].row, RowDelivered) else s.db)
    case Requeue(t, writes) =>
      End(s, t, if writes then SetStatus(s.db, s.tasks[t].row, RowPending) else s.db)
    case MissingSecret(t, commits) =>
      var k := s.tasks[t];
      if commits then End(s, t, MissingSecretTx(s.db, k.row, k.delivery, k.attempt))
      else Log(End(s, t, s.db), CommitFailed(k.row, false))
    case Send(t, r) =>
      var k := s.tasks[t];
      Log(SetPhase(s, t, Sent(r)), Call(k.row, k.delivery, k.attempt, r))
    case Settle(t, commits) =>
      var k := s.tasks[t];
      if commits then End(s, t, SettleTx(s.db, k, k.phase.response))
      else Log(End(s, t, s.db), CommitFailed(k.row, true))
    case Crash(t) =>
      var k := s.tasks[t];
      Log(End(s, t, s.db), Crashed(k.row, k.phase.Sent?))
    case Reap(q) => s.(db := ReapTx(s.db, q))
    case CleanUp(q) => s.(db := s.db.(queue := s.db.queue - {q}))
  }

  function Log(s: System, e: Event): System {
    s.(log := s.log + [e])
  }

  // ------------------------------------------------------------------ runs

  predicate CanRun(s: System, steps: seq<Step>, leased: bool)
    decreases |steps|
  {
    steps == []
    || (Enabled(s, steps[0], leased) && CanRun(Apply(s, steps[0], leased), steps[1..], leased))
  }

  function After(s: System, steps: seq<Step>, leased: bool): System
    requires CanRun(s, steps, leased)
    decreases |steps|
  {
    if steps == [] then s else After(Apply(s, steps[0], leased), steps[1..], leased)
  }

  lemma {:induction false} RunConcat(s: System, a: seq<Step>, b: seq<Step>, leased: bool)
    requires CanRun(s, a, leased)
    requires CanRun(After(s, a, leased), b, leased)
    ensures CanRun(s, a + b, leased)
    ensures After(s, a + b, leased) == After(After(s, a, leased), b, leased)
    decreases |a|
  {
    if a == [] {
      assert a + b == b;
    } else {
      assert (a + b)[1..] == a[1..] + b;
      RunConcat(Apply(s, a[0], leased), a[1..], b, leased);
    }
  }

  /** One more step at the end of a run. */
  lemma RunExtend(s: System, steps: seq<Step>, step: Step, leased: bool)
    requires CanRun(s, steps, leased)
    requires Enabled(After(s, steps, leased), step, leased)
    ensures CanRun(s, steps + [step], leased)
    ensures After(s, steps + [step], leased) == Apply(After(s, steps, leased), step, leased)
  {
    var s' := After(s, steps, leased);
    assert [step][1..] == [];
    assert CanRun(Apply(s', step, leased), [], leased);
    assert CanRun(s', [step], leased);
    RunConcat(s, steps, [step], leased);
  }

  /** One more step at the start of a run. */
  lemma RunCons(s: System, step: Step, rest: seq<Step>, leased: bool)
    requires Enabled(s, step, leased)
    requires CanRun(Apply(s, step, leased), rest, leased)
    ensures CanRun(s, [step] + rest, leased)
    ensures After(s, [step] + rest, leased) == After(Apply(s, step, leased), rest, leased)
  {
    assert ([step] + rest)[1..] == rest;
  }
}
