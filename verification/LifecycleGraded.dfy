// Without the lease hypothesis: how far the send bound can be exceeded. Every reap of
// a row that a task still holds, and every requeue that sets a row back, buys one more
// round of attempts, and nothing else does.

module LifecycleGraded {
  import opened Lifecycle
  import opened LifecycleEffects
  import opened LifecycleLease
  import opened LifecycleUnleased

  // ------------------------------------------------ the calls that may still follow

  /** Calls that a task may still lead to, its later retries included. */
  function Worth(k: Task): nat {
    if k.phase.Sent? then (if k.attempt < k.limit then k.limit - k.attempt else 0)
    else if k.attempt <= k.limit then k.limit + 1 - k.attempt
    else 1
  }

  function WorthAt(tasks: map<TaskId, Task>, t: TaskId, q: QueueId): nat {
    if t in tasks && tasks[t].row == q then Worth(tasks[t]) else 0
  }

  /** The tasks with ids below n. */
  function Worths(tasks: map<TaskId, Task>, q: QueueId, n: nat): nat {
    if n == 0 then 0 else Worths(tasks, q, n - 1) + WorthAt(tasks, n - 1, q)
  }

  /** Calls that a claim of the row may lead to. */
  function Ahead(row: Row): nat {
    if row.attempts < row.limit then row.limit - row.attempts else 1
  }

  /** A task that has the number the row's next claim would get, or a smaller one. */
  predicate Current(s: System, q: QueueId, t: TaskId)
    requires q in s.db.queue
  {
    t in s.tasks && s.tasks[t].row == q && s.tasks[t].attempt <= s.db.queue[q].attempts + 1
  }

  ghost predicate HasCurrent(s: System, q: QueueId)
    requires q in s.db.queue
  {
    exists t :: Current(s, q, t)
  }

  /** Calls that the row may lead to besides its tasks: at its next claim, or once the
      reaper puts it back. */
  ghost function Slot(s: System, q: QueueId): nat {
    if q !in s.db.queue then 0
    else
      match s.db.queue[q].status
      case RowPending => Ahead(s.db.queue[q])
      case RowProcessing => if HasCurrent(s, q) then 0 else Ahead(s.db.queue[q])
      case _ => 0
  }

  ghost function Outlook(s: System, q: QueueId, n: nat): nat {
    Calls(s.log, q) + Worths(s.tasks, q, n) + Slot(s, q)
  }

  /** A reap of a held row, or a written requeue of a row whose count is behind the
      task's. */
  predicate Disturbs(s: System, step: Step, q: QueueId) {
    (step == Reap(q) && Held(s, q))
    || (step.Requeue? && step.writes && step.t in s.tasks && s.tasks[step.t].row == q
        && q in s.db.queue && s.db.queue[q].attempts + 1 < s.tasks[step.t].attempt)
  }

  function Disturbances(s: System, steps: seq<Step>, q: QueueId): nat
    requires CanRun(s, steps, false)
    decreases |steps|
  {
    if steps == [] then 0
    else (if Disturbs(s, steps[0], q) then 1 else 0) + Disturbances(Apply(s, steps[0], false), steps[1..], q)
  }

  // ------------------------------------------------------------- sums over tasks

  lemma {:induction false} WorthsChange(a: map<TaskId, Task>, b: map<TaskId, Task>, t: TaskId, q: QueueId, n: nat)
    requires forall u :: u != t ==> WorthAt(a, u, q) == WorthAt(b, u, q)
    ensures t >= n ==> Worths(b, q, n) == Worths(a, q, n)
    ensures t < n ==> Worths(b, q, n) + WorthAt(a, t, q) == Worths(a, q, n) + WorthAt(b, t, q)
  {
    if n > 0 {
      WorthsChange(a, b, t, q, n - 1);
    }
  }

  lemma {:induction false} NoTasksNoWorth(tasks: map<TaskId, Task>, q: QueueId, n: nat)
    requires forall t :: t in tasks ==> tasks[t].row != q
    ensures Worths(tasks, q, n) == 0
  {
    if n > 0 {
      NoTasksNoWorth(tasks, q, n - 1);
    }
  }

  // ------------------------------------------------------------ what a step does

  /** The bookkeeping of a step: what it adds to the outlook is a disturbance's round
      or a fault. */
  ghost predicate Paid(s: System, s': System, step: Step, q: QueueId, n: nat) {
    Outlook(s', q, n) + Faults(s.log, q)
    <= Outlook(s, q, n) + (if Disturbs(s, step, q) && q in s.issued then s.issued[q].limit else 0) + Faults(s'.log, q)
  }

  /** Ids, tickets and the log are in order. */
  ghost predicate Booked(s: System, n: nat) {
    && Sane(s) && (forall t :: t in s.tasks ==> t < n)
    && (forall i, q :: 0 <= i < |s.log| && s.log[i].About(q) ==> q in s.issued)
  }

  /** A row other than the task's own, or a step that leaves its tasks and row alone. */
  lemma UntouchedRow(s: System, s': System, step: Step, t: TaskId, q: QueueId, n: nat)
    requires forall u :: u != t ==> (u in s'.tasks <==> u in s.tasks)
    requires forall u :: u != t && u in s.tasks ==> s'.tasks[u] == s.tasks[u]
    requires (t in s.tasks ==> s.tasks[t].row != q) && (t in s'.tasks ==> s'.tasks[t].row != q)
    requires q in s.db.queue <==> q in s'.db.queue
    requires q in s.db.queue ==> s'.db.queue[q] == s.db.queue[q]
    requires Calls(s'.log, q) == Calls(s.log, q) && Faults(s.log, q) <= Faults(s'.log, q)
    ensures Paid(s, s', step, q, n)
  {
    WorthsChange(s.tasks, s'.tasks, t, q, n);
    if q in s.db.queue {
      assert forall u :: Current(s', q, u) <==> Current(s, q, u);
    }
  }

  lemma ClaimPaid(s: System, t: TaskId, q: QueueId, n: nat)
    requires Enabled(s, Claim(t, q), false) && t < n
    ensures Paid(s, Apply(s, Claim(t, q), false), Claim(t, q), q, n)
  {
    var s' := Apply(s, Claim(t, q), false);
    WorthsChange(s.tasks, s'.tasks, t, q, n);
    assert Current(s', q, t);
  }

  /** CheckDelivered and Send: the task moves on. */
  lemma MovePaid(s: System, step: Step, t: TaskId, n: nat)
    requires Enabled(s, step, false) && (step.CheckDelivered? || step.Send?) && t == step.t && t < n
    ensures Paid(s, Apply(s, step, false), step, s.tasks[t].row, n)
  {
    var s' := Apply(s, step, false);
    var k := s.tasks[t];
    WorthsChange(s.tasks, s'.tasks, t, k.row, n);
    if k.row in s.db.queue {
      assert forall u :: Current(s', k.row, u) <==> Current(s, k.row, u);
    }
    if step.Send? {
      LogGrows(s.log, Call(k.row, k.delivery, k.attempt, step.r), k.row);
    }
  }

  /** The task ends and writes nothing: what the row may now lead to was the task's. */
  lemma DropPaid(s: System, s': System, step: Step, t: TaskId, n: nat)
    requires t in s.tasks && t < n && s'.tasks == s.tasks - {t} && s'.db == s.db
    requires var k := s.tasks[t];
      && (k.row in s.db.queue ==> s.db.queue[k.row].limit == k.limit)
      && Calls(s'.log, k.row) == Calls(s.log, k.row)
      && Faults(s.log, k.row) + (if k.phase.Sent? then 1 else 0) <= Faults(s'.log, k.row)
    ensures Paid(s, s', step, s.tasks[t].row, n)
  {
    var k := s.tasks[t];
    var q := k.row;
    WorthsChange(s.tasks, s'.tasks, t, q, n);
    if q in s.db.queue {
      assert forall u :: u != t && Current(s, q, u) ==> Current(s', q, u);
      assert forall u :: Current(s', q, u) ==> Current(s, q, u);
    }
  }

  /** The task ends with its row finished, or back at pending with the task's count. */
  lemma FinishPaid(s: System, s': System, step: Step, t: TaskId, n: nat)
    requires t in s.tasks && t < n && s'.tasks == s.tasks - {t} && s'.log == s.log
    requires var k := s.tasks[t];
      && (k.row in s'.db.queue ==>
            var row := s'.db.queue[k.row];
            !row.Active()
            || (row.status.RowPending? && row.attempts == k.attempt < row.limit == k.limit && k.phase.Sent?))
    ensures Paid(s, s', step, s.tasks[t].row, n)
  {
    WorthsChange(s.tasks, s'.tasks, t, s.tasks[t].row, n);
  }

  lemma RequeuePaid(s: System, t: TaskId, n: nat)
    requires Sane(s) && Enabled(s, Requeue(t, true), false) && t < n
    ensures Paid(s, Apply(s, Requeue(t, true), false), Requeue(t, true), s.tasks[t].row, n)
  {
    var k := s.tasks[t];
    assert TaskSane(s, k) && (k.row in s.db.queue ==> RowSane(s, k.row, s.db.queue[k.row]));
    WorthsChange(s.tasks, Apply(s, Requeue(t, true), false).tasks, t, k.row, n);
  }

  lemma ReapPaid(s: System, q: QueueId, n: nat)
    requires Sane(s) && Enabled(s, Reap(q), false)
    ensures Paid(s, Apply(s, Reap(q), false), Reap(q), q, n)
  {
    assert RowSane(s, q, s.db.queue[q]);
    if HasCurrent(s, q) {
      var t :| Current(s, q, t);
      assert Held(s, q);
    }
  }

  lemma SettlePaid(s: System, t: TaskId, commits: bool, n: nat)
    requires Sane(s) && Enabled(s, Settle(t, commits), false) && t < n
    ensures Paid(s, Apply(s, Settle(t, commits), false), Settle(t, commits), s.tasks[t].row, n)
  {
    var k := s.tasks[t];
    var s' := Apply(s, Settle(t, commits), false);
    assert TaskSane(s, k) && (k.row in s.db.queue ==> RowSane(s, k.row, s.db.queue[k.row]));
    if commits {
      SettleEffect(s.db, k, k.phase.response);
      FinishPaid(s, s', Settle(t, commits), t, n);
    } else {
      LogGrows(s.log, CommitFailed(k.row, true), k.row);
      DropPaid(s, s', Settle(t, commits), t, n);
    }
  }

  lemma UnsignablePaid(s: System, t: TaskId, commits: bool, n: nat)
    requires Sane(s) && Enabled(s, MissingSecret(t, commits), false) && t < n
    ensures Paid(s, Apply(s, MissingSecret(t, commits), false), MissingSecret(t, commits), s.tasks[t].row, n)
  {
    var k := s.tasks[t];
    var s' := Apply(s, MissingSecret(t, commits), false);
    assert TaskSane(s, k) && (k.row in s.db.queue ==> RowSane(s, k.row, s.db.queue[k.row]));
    if commits {
      MissingSecretEffect(s.db, k.row, k.delivery, k.attempt);
      FinishPaid(s, s', MissingSecret(t, commits), t, n);
    } else {
      LogGrows(s.log, CommitFailed(k.row, false), k.row);
      DropPaid(s, s', MissingSecret(t, commits), t, n);
    }
  }

  lemma OtherEndPaid(s: System, step: Step, t: TaskId, n: nat)
    requires Sane(s) && Enabled(s, step, false) && (step.SkipDelivered? || step.Requeue? || step.Crash?)
    requires t == step.t && t < n
    ensures Paid(s, Apply(s, step, false), step, s.tasks[t].row, n)
  {
    var k := s.tasks[t];
    var s' := Apply(s, step, false);
    assert TaskSane(s, k) && (k.row in s.db.queue ==> RowSane(s, k.row, s.db.queue[k.row]));
    if step.Crash? {
      LogGrows(s.log, Crashed(k.row, k.phase.Sent?), k.row);
      DropPaid(s, s', step, t, n);
    } else if !step.writes {
      DropPaid(s, s', step, t, n);
    } else if step.Requeue? {
      RequeuePaid(s, t, n);
    } else {
      FinishPaid(s, s', step, t, n);
    }
  }

  predicate OfTask(step: Step) {
    step.CheckDelivered? || step.SkipDelivered? || step.Requeue? || step.MissingSecret? || step.Send?
    || step.Settle? || step.Crash?
  }

  /** A step of a task, as the task's own row sees it. */
  lemma OwnRowPaid(s: System, step: Step, n: nat)
    requires Sane(s) && Enabled(s, step, false) && OfTask(step) && step.t < n
    ensures Paid(s, Apply(s, step, false), step, s.tasks[step.t].row, n)
  {
    if step.Settle? {
      SettlePaid(s, step.t, step.commits, n);
    } else if step.MissingSecret? {
      UnsignablePaid(s, step.t, step.commits, n);
    } else if step.CheckDelivered? || step.Send? {
      MovePaid(s, step, step.t, n);
    } else {
      OtherEndPaid(s, step, step.t, n);
    }
  }

  ghost predicate SameRowOf(s: System, s': System, q: QueueId) {
    && (q in s'.db.queue <==> q in s.db.queue)
    && (q in s.db.queue ==> s'.db.queue[q] == s.db.queue[q])
  }

  lemma OtherRowSettled(s: System, t: TaskId, commits: bool, q: QueueId)
    requires Enabled(s, Settle(t, commits), false) && s.tasks[t].row != q && TaskSane(s, s.tasks[t])
    ensures SameRowOf(s, Apply(s, Settle(t, commits), false), q)
  {
    SettleEffect(s.db, s.tasks[t], s.tasks[t].phase.response);
  }

  lemma OtherRowInDb(s: System, step: Step, q: QueueId)
    requires Enabled(s, step, false) && OfTask(step) && s.tasks[step.t].row != q && TaskSane(s, s.tasks[step.t])
    ensures SameRowOf(s, Apply(s, step, false), q)
  {
    if step.Settle? {
      OtherRowSettled(s, step.t, step.commits, q);
    }
  }

  lemma OtherRowInLog(s: System, step: Step, q: QueueId)
    requires Enabled(s, step, false) && OfTask(step) && s.tasks[step.t].row != q
    ensures var s' := Apply(s, step, false);
      Calls(s'.log, q) == Calls(s.log, q) && Faults(s'.log, q) == Faults(s.log, q)
  {
    var s' := Apply(s, step, false);
    if s'.log != s.log {
      LogGrows(s.log, s'.log[|s.log|], q);
    }
  }

  lemma OtherTasksSame(s: System, step: Step)
    requires Enabled(s, step, false) && OfTask(step)
    ensures var s' := Apply(s, step, false);
      && (forall u :: u != step.t ==> (u in s'.tasks <==> u in s.tasks))
      && (forall u :: u != step.t && u in s.tasks ==> s'.tasks[u] == s.tasks[u])
      && (step.t in s'.tasks ==> s'.tasks[step.t].row == s.tasks[step.t].row)
  {
  }

  /** And as every other row sees it. */
  lemma OtherRowPaid(s: System, step: Step, q: QueueId, n: nat)
    requires Sane(s) && Enabled(s, step, false) && OfTask(step) && s.tasks[step.t].row != q
    ensures Paid(s, Apply(s, step, false), step, q, n)
  {
    assert TaskSane(s, s.tasks[step.t]);
    OtherRowInDb(s, step, q);
    OtherRowInLog(s, step, q);
    OtherTasksSame(s, step);
    UntouchedRow(s, Apply(s, step, false), step, step.t, q, n);
  }

  /** Steps of the API and the reapers, for a row that exists already. */
  lemma RowStepPaid(s: System, step: Step, q: QueueId, n: nat)
    requires Booked(s, n) && Enabled(s, step, false) && !OfTask(step) && q in s.issued
    requires step.Claim? ==> step.t < n
    ensures Paid(s, Apply(s, step, false), step, q, n)
  {
    var s' := Apply(s, step, false);
    match step
    case Claim(t, p) =>
      if p == q {
        ClaimPaid(s, t, q, n);
      } else {
        UntouchedRow(s, s', step, t, q, n);
      }
    case Reap(p) =>
      if p == q {
        ReapPaid(s, q, n);
      } else {
        UntouchedRow(s, s', step, n, q, n);
      }
    case CleanUp(p) =>
      if p != q {
        UntouchedRow(s, s', step, n, q, n);
      }
    case MarkTest(d) =>
      LogGrows(s.log, TestMarked(d), q);
      UntouchedRow(s, s', step, n, q, n);
    case PublishFails(d) =>
      LogGrows(s.log, PublishFailed(d), q);
      UntouchedRow(s, s', step, n, q, n);
    case _ => UntouchedRow(s, s', step, n, q, n);
  }

  // ---------------------------------------------------------------- whole runs

  /** Every claim of the run uses a task id below n. */
  predicate ClaimsBelow(steps: seq<Step>, n: nat) {
    forall i :: 0 <= i < |steps| && steps[i].Claim? ==> steps[i].t < n
  }

  lemma {:induction false} SomeBound(steps: seq<Step>) returns (n: nat)
    ensures ClaimsBelow(steps, n)
    decreases |steps|
  {
    if steps == [] {
      n := 0;
    } else {
      var m := SomeBound(steps[1..]);
      n := if steps[0].Claim? && steps[0].t >= m then steps[0].t + 1 else m;
      forall i | 0 <= i < |steps| && steps[i].Claim? ensures steps[i].t < n {
        assert i > 0 ==> steps[i] == steps[1..][i - 1];
      }
    }
  }

  lemma StepKeepsBooked(s: System, step: Step, n: nat)
    requires Booked(s, n) && Enabled(s, step, false) && (step.Claim? ==> step.t < n)
    ensures Booked(Apply(s, step, false), n)
  {
    StepKeepsSane(s, step);
    var s' := Apply(s, step, false);
    if OfTask(step) {
      assert TaskSane(s, s.tasks[step.t]);
    }
    forall i, q | 0 <= i < |s'.log| && s'.log[i].About(q) ensures q in s'.issued {
      assert i < |s.log| ==> s'.log[i] == s.log[i];
    }
  }

  /** The outlook of row q after `rounds` disturbances. */
  ghost predicate WithinBudget(s: System, q: QueueId, n: nat, rounds: nat) {
    q in s.issued ==> Outlook(s, q, n) <= s.issued[q].limit * (1 + rounds) + Faults(s.log, q)
  }

  lemma Times(limit: nat, rounds: nat)
    ensures limit * (1 + (rounds + 1)) == limit * (1 + rounds) + limit
    ensures limit * (1 + rounds) >= limit
  {
  }

  /** A row that is issued now starts with one round. */
  lemma IssuedWithin(s: System, step: Step, q: QueueId, n: nat, rounds: nat)
    requires Booked(s, n) && Enabled(s, step, false) && q !in s.issued && q in Apply(s, step, false).issued
    ensures WithinBudget(Apply(s, step, false), q, n, rounds)
  {
    var s' := Apply(s, step, false);
    forall t | t in s'.tasks ensures s'.tasks[t].row != q {
      assert TaskSane(s, s.tasks[t]);
    }
    NoTasksNoWorth(s'.tasks, q, n);
    NeverIssuedNeverLogged(s'.log, q);
    Times(s'.issued[q].limit, rounds);
  }

  lemma StepWithinBudget(s: System, step: Step, q: QueueId, n: nat, rounds: nat)
    requires Booked(s, n) && Enabled(s, step, false) && (step.Claim? ==> step.t < n)
    requires WithinBudget(s, q, n, rounds)
    ensures WithinBudget(Apply(s, step, false), q, n, rounds + if Disturbs(s, step, q) then 1 else 0)
  {
    if q in s.issued {
      if OfTask(step) && s.tasks[step.t].row == q {
        OwnRowPaid(s, step, n);
      } else if OfTask(step) {
        OtherRowPaid(s, step, q, n);
      } else {
        RowStepPaid(s, step, q, n);
      }
      Times(s.issued[q].limit, rounds);
    } else if q in Apply(s, step, false).issued {
      IssuedWithin(s, step, q, n, rounds + if Disturbs(s, step, q) then 1 else 0);
    }
  }

  lemma {:induction false} RunWithinBudget(s: System, steps: seq<Step>, q: QueueId, n: nat, rounds: nat)
    requires Booked(s, n) && CanRun(s, steps, false) && ClaimsBelow(steps, n) && WithinBudget(s, q, n, rounds)
    ensures WithinBudget(After(s, steps, false), q, n, rounds + Disturbances(s, steps, q))
    decreases |steps|
  {
    if steps != [] {
      StepWithinBudget(s, steps[0], q, n, rounds);
      StepKeepsBooked(s, steps[0], n);
      forall i | 0 <= i < |steps[1..]| && steps[1..][i].Claim? ensures steps[1..][i].t < n {
        assert steps[1..][i] == steps[i + 1];
      }
      RunWithinBudget(Apply(s, steps[0], false), steps[1..], q, n,
                      rounds + if Disturbs(s, steps[0], q) then 1 else 0);
    }
  }

  /** The send bound, graded: in every run, lease or no lease, the delivery calls for a
      row never exceed its attempt limit times one more than the disturbances of the
      row, plus its faults. Without a disturbance this is the bound of the lease. */
  lemma GradedSendBound(steps: seq<Step>, q: QueueId)
    requires CanRun(START, steps, false)
    requires q in After(START, steps, false).issued
    ensures var s := After(START, steps, false);
      Calls(s.log, q) <= s.issued[q].limit * (1 + Disturbances(START, steps, q)) + Faults(s.log, q)
  {
    var n := SomeBound(steps);
    RunWithinBudget(START, steps, q, n, 0);
  }

  // ------------------------------------------------------- the bound is tight

  function PileUp(n: nat): seq<Step> {
    if n == 0 then [Accept(0), Publish(0, 0, 1)]
    else PileUp(n - 1) + [Claim(n - 1, 0), CheckDelivered(n - 1), Send(n - 1, OK), Reap(0)]
  }

  /** Tasks 0 .. n - 1 have made their call and do not end. */
  function Slow(n: nat): map<TaskId, Task> {
    if n == 0 then map[] else Slow(n - 1)[n - 1 := Task(0, 0, 1, 1, Sent(OK))]
  }

  lemma {:induction false} SlowTasks(n: nat)
    ensures forall t: nat :: t in Slow(n) <==> t < n
  {
    if n > 0 {
      SlowTasks(n - 1);
    }
  }

  lemma {:induction false} DisturbancesConcat(s: System, a: seq<Step>, b: seq<Step>, q: QueueId)
    requires CanRun(s, a, false) && CanRun(After(s, a, false), b, false)
    ensures CanRun(s, a + b, false)
    ensures Disturbances(s, a + b, q) == Disturbances(s, a, q) + Disturbances(After(s, a, false), b, q)
    decreases |a|
  {
    RunConcat(s, a, b, false);
    if a == [] {
      assert a + b == b;
    } else {
      assert (a + b)[1..] == a[1..] + b;
      DisturbancesConcat(Apply(s, a[0], false), a[1..], b, q);
    }
  }

  /** One more step, and what it disturbs. */
  lemma OneStepMore(run: seq<Step>, s: System, step: Step, n: nat) returns (longer: seq<Step>)
    requires CanRun(START, run, false) && After(START, run, false) == s && Disturbances(START, run, 0) == n
    requires Enabled(s, step, false)
    ensures longer == run + [step] && CanRun(START, longer, false)
    ensures After(START, longer, false) == Apply(s, step, false)
    ensures Disturbances(START, longer, 0) == n + if Disturbs(s, step, 0) then 1 else 0
  {
    RunExtend(START, run, step, false);
    assert [step][1..] == [];
    assert CanRun(Apply(s, step, false), [], false);
    DisturbancesConcat(START, run, [step], 0);
    longer := run + [step];
  }

  /** The steps of a further task with id n. */
  lemma SlowerTask(n: nat, log: seq<Event>)
    ensures var k := Task(0, 0, 1, 1, Claimed);
      var waiting, claimed := OneRow(RowPending, Slow(n), log), OneRow(RowProcessing, Slow(n)[n := k], log);
      && Enabled(waiting, Claim(n, 0), false) && Apply(waiting, Claim(n, 0), false) == claimed
      && Enabled(claimed, CheckDelivered(n), false)
      && Apply(claimed, CheckDelivered(n), false) == OneRow(RowProcessing, Slow(n)[n := k.(phase := Cleared)], log)
  {
    SlowTasks(n);
  }

  lemma SlowerCall(n: nat, log: seq<Event>)
    ensures var s := OneRow(RowProcessing, Slow(n)[n := Task(0, 0, 1, 1, Cleared)], log);
      && Enabled(s, Send(n, OK), false)
      && Apply(s, Send(n, OK), false) == OneRow(RowProcessing, Slow(n + 1), log + [Call(0, 0, 1, OK)])
  {
    assert Slow(n)[n := Task(0, 0, 1, 1, Sent(OK))] == Slow(n + 1);
  }

  lemma ReapedUnderCall(n: nat, log: seq<Event>)
    requires n > 0
    ensures var s := OneRow(RowProcessing, Slow(n), log);
      && Enabled(s, Reap(0), false) && Disturbs(s, Reap(0), 0)
      && Apply(s, Reap(0), false) == OneRow(RowPending, Slow(n), log)
  {
    assert Slow(n)[n - 1].row == 0;
  }

  /** A further task claims the row, checks, and makes its call. */
  lemma CallMore(run: seq<Step>, n: nat, log: seq<Event>) returns (longer: seq<Step>)
    requires CanRun(START, run, false) && After(START, run, false) == OneRow(RowPending, Slow(n), log)
    requires Disturbances(START, run, 0) == n
    ensures longer == run + [Claim(n, 0)] + [CheckDelivered(n)] + [Send(n, OK)] && CanRun(START, longer, false)
    ensures After(START, longer, false) == OneRow(RowProcessing, Slow(n + 1), log + [Call(0, 0, 1, OK)])
    ensures Disturbances(START, longer, 0) == n
  {
    var k := Task(0, 0, 1, 1, Claimed);
    SlowerTask(n, log);
    SlowerCall(n, log);
    longer := OneStepMore(run, OneRow(RowPending, Slow(n), log), Claim(n, 0), n);
    longer := OneStepMore(longer, OneRow(RowProcessing, Slow(n)[n := k], log), CheckDelivered(n), n);
    longer := OneStepMore(longer, OneRow(RowProcessing, Slow(n)[n := k.(phase := Cleared)], log), Send(n, OK), n);
  }

  /** After n rounds: the row is pending again, and n tasks are still at their call. */
  ghost predicate PiledUp(n: nat, run: seq<Step>, log: seq<Event>) {
    && CanRun(START, run, false) && After(START, run, false) == OneRow(RowPending, Slow(n), log)
    && Calls(log, 0) == n && Faults(log, 0) == 0 && Disturbances(START, run, 0) == n
  }

  lemma PileUpStarts()
    ensures PiledUp(0, PileUp(0), [])
  {
    var run := OneStepMore([], START, Accept(0), 0);
    run := OneStepMore(run, Apply(START, Accept(0), false), Publish(0, 0, 1), 0);
    assert run == PileUp(0);
  }

  lemma PileUpGrows(n: nat, log: seq<Event>)
    requires PiledUp(n, PileUp(n), log)
    ensures PiledUp(n + 1, PileUp(n + 1), log + [Call(0, 0, 1, OK)])
  {
    var run := CallMore(PileUp(n), n, log);
    ReapedUnderCall(n + 1, log + [Call(0, 0, 1, OK)]);
    run := OneStepMore(run, OneRow(RowProcessing, Slow(n + 1), log + [Call(0, 0, 1, OK)]), Reap(0), n);
    assert run == PileUp(n + 1);
    LogGrows(log, Call(0, 0, 1, OK), 0);
  }

  lemma {:induction false} PileUpRuns(n: nat) returns (log: seq<Event>)
    ensures PiledUp(n, PileUp(n), log)
  {
    if n == 0 {
      PileUpStarts();
      log := [];
    } else {
      log := PileUpRuns(n - 1);
      PileUpGrows(n - 1, log);
      log := log + [Call(0, 0, 1, OK)];
    }
  }

  /** For every n there is a run with n disturbances and no fault that makes exactly as
      many calls as the bound allows: each slow task is reaped under its call. */
  lemma GradedBoundIsTight(n: nat) returns (run: seq<Step>)
    ensures CanRun(START, run, false) && Disturbances(START, run, 0) == n
    ensures var s := After(START, run, false);
      && 0 in s.issued && Faults(s.log, 0) == 0
      && Calls(s.log, 0) == s.issued[0].limit * (1 + n)
  {
    var log := PileUpRuns(n);
    run := CallMore(PileUp(n), n, log);
    LogGrows(log, Call(0, 0, 1, OK), 0);
  }

  /** The lease hypothesis rules disturbances out. */
  lemma LeaseNeverDisturbs(s: System, step: Step, q: QueueId)
    requires Safe(s) && Enabled(s, step, true)
    ensures !Disturbs(s, step, q)
  {
    if step.Requeue? {
      assert Owns(s.db, s.tasks[step.t]);
    }
  }
}
