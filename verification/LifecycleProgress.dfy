// Progress under the lease hypothesis: nothing gets stuck, without any fault and
// whatever the receivers answer; and why the send bound needs its fault term.

module LifecycleProgress {
  import opened Lifecycle
  import opened LifecycleEffects
  import opened LifecycleLease
  import opened LifecycleTheorems

  // ------------------------------------------------------------- recoverability

  lemma {:induction false} UpperBound(ids: set<nat>) returns (n: nat)
    ensures forall i :: i in ids ==> i < n
    decreases |ids|
  {
    if ids == {} {
      n := 0;
    } else {
      var i :| i in ids;
      var m := UpperBound(ids - {i});
      n := if i < m then m else i + 1;
      forall j | j in ids ensures j < n {
        assert j != i ==> j in ids - {i};
      }
    }
  }

  /** A step without any fault: no crash, no failed commit, no requeue and no write of
      the API; a call for attempt n is answered by answers(n). */
  ghost predicate Benign(s: System, step: Step, answers: nat -> Response) {
    match step
    case Claim(_, _) => true
    case CheckDelivered(_) => true
    case Send(t, r) => t in s.tasks && r == answers(s.tasks[t].attempt)
    case Settle(_, commits) => commits
    case Reap(_) => true
    case ReapOrphan(_, _) => true
    case _ => false
  }

  ghost predicate FaultFree(s: System, steps: seq<Step>, answers: nat -> Response)
    requires CanRun(s, steps, true)
    decreases |steps|
  {
    steps != [] ==>
      Benign(s, steps[0], answers) && FaultFree(Apply(s, steps[0], true), steps[1..], answers)
  }

  ghost predicate Reaches(s: System, steps: seq<Step>, answers: nat -> Response, s': System) {
    CanRun(s, steps, true) && FaultFree(s, steps, answers) && After(s, steps, true) == s'
  }

  lemma ReachesCons(s: System, step: Step, rest: seq<Step>, answers: nat -> Response, s': System)
    requires Enabled(s, step, true) && Benign(s, step, answers)
    requires Reaches(Apply(s, step, true), rest, answers, s')
    ensures Reaches(s, [step] + rest, answers, s')
  {
    assert ([step] + rest)[1..] == rest;
  }

  lemma ReachesTail(s: System, steps: seq<Step>, answers: nat -> Response, s': System)
    requires Reaches(s, steps, answers, s') && steps != []
    ensures Enabled(s, steps[0], true) && Benign(s, steps[0], answers)
    ensures Reaches(Apply(s, steps[0], true), steps[1..], answers, s')
  {
  }

  lemma {:induction false} ReachesConcat(s: System, a: seq<Step>, s1: System, b: seq<Step>, s': System,
                                         answers: nat -> Response)
    requires Reaches(s, a, answers, s1) && Reaches(s1, b, answers, s')
    ensures Reaches(s, a + b, answers, s')
    decreases |a|
  {
    if a == [] {
      assert a + b == b;
    } else {
      ReachesTail(s, a, answers, s1);
      ReachesConcat(Apply(s, a[0], true), a[1..], s1, b, s', answers);
      ReachesCons(s, a[0], a[1..] + b, answers, s');
      assert a + b == [a[0]] + (a[1..] + b);
    }
  }

  // Reachable states, with the facts about them that progress needs.

  ghost predicate ReachedBy(s: System, run: seq<Step>) {
    CanRun(START, run, true) && After(START, run, true) == s
  }

  ghost predicate Reachable(s: System) {
    exists run :: ReachedBy(s, run)
  }

  lemma ReachableSafe(s: System)
    requires Reachable(s)
    ensures Safe(s)
  {
    var run :| ReachedBy(s, run);
    EveryRunIsSafe(run);
  }

  lemma ReachStep(s: System, step: Step)
    requires Reachable(s) && Enabled(s, step, true)
    ensures Reachable(Apply(s, step, true))
  {
    var run :| ReachedBy(s, run);
    RunExtend(START, run, step, true);
    assert ReachedBy(Apply(s, step, true), run + [step]);
  }

  lemma TaskFacts(s: System, t: TaskId)
    requires Reachable(s) && t in s.tasks
    ensures Owns(s.db, s.tasks[t])
  {
    ReachableSafe(s);
  }

  lemma RowFacts(s: System, q: QueueId)
    requires Reachable(s) && q in s.db.queue
    ensures RowAgrees(s.db, s.db.queue[q])
  {
    ReachableSafe(s);
  }

  /** How a task of row q for delivery d ends: with an outcome, or with the row back
      at pending after the given number of attempts. */
  ghost predicate RoundEnds(s: System, q: QueueId, d: DeliveryId, attempts: nat, limit: nat) {
    && d in s.db.deliveries
    && (s.db.deliveries[d] == Pending ==>
          q in s.db.queue && s.db.queue[q] == Row(d, RowPending, attempts, limit) && attempts < limit)
  }

  ghost predicate AllSucceed(answers: nat -> Response) {
    forall n :: answers(n).success
  }

  function StepsLeft(phase: Phase): nat {
    match phase
    case Claimed => 3
    case Cleared => 2
    case _ => 1
  }

  lemma SettleEnds(s: System, t: TaskId)
    requires Enabled(s, Settle(t, true), true)
    requires HasItsRow(s.db, s.tasks[t]) && Owns(s.db, s.tasks[t])
    requires s.db.deliveries[s.tasks[t].delivery] == Pending
    ensures var k := s.tasks[t];
      var s' := Apply(s, Settle(t, true), true);
      && RoundEnds(s', k.row, k.delivery, k.attempt, k.limit)
      && (k.phase.response.success ==> s'.db.deliveries[k.delivery] == Delivered)
  {
    var k := s.tasks[t];
    SettleEffect(s.db, k, k.phase.response);
  }

  /** The next step of an undisturbed task whose delivery is pending. */
  function NextStep(t: TaskId, k: Task, answers: nat -> Response): Step {
    match k.phase
    case Claimed => CheckDelivered(t)
    case Cleared => Send(t, answers(k.attempt))
    case _ => Settle(t, true)
  }

  lemma TaskAdvances(s: System, t: TaskId, answers: nat -> Response)
    requires t in s.tasks && !s.tasks[t].phase.Sent? && Owns(s.db, s.tasks[t])
    requires s.tasks[t].delivery in s.db.deliveries && s.db.deliveries[s.tasks[t].delivery] == Pending
    ensures var k := s.tasks[t];
      var step := NextStep(t, k, answers);
      && Enabled(s, step, true) && Benign(s, step, answers)
      && var s1 := Apply(s, step, true);
      && s1.db == s.db && t in s1.tasks
      && s1.tasks[t] == k.(phase := if k.phase == Claimed then Cleared else Sent(answers(k.attempt)))
  {
  }

  /** The task has finished, with a success if every answer is one. */
  ghost predicate Finished(s: System, k: Task, answers: nat -> Response) {
    && RoundEnds(s, k.row, k.delivery, k.attempt, k.limit)
    && (AllSucceed(answers) && (k.phase.Sent? ==> k.phase.response.success) ==>
          s.db.deliveries[k.delivery] == Delivered)
  }

  /** A live task on a pending delivery finishes on its own in at most three steps. */
  lemma {:induction false} FinishTask(s: System, t: TaskId, answers: nat -> Response)
    returns (steps: seq<Step>, s': System)
    requires Reachable(s) && t in s.tasks
    requires s.tasks[t].delivery in s.db.deliveries && s.db.deliveries[s.tasks[t].delivery] == Pending
    ensures Reaches(s, steps, answers, s') && Reachable(s') && |steps| <= StepsLeft(s.tasks[t].phase)
    ensures Finished(s', s.tasks[t], answers)
    decreases StepsLeft(s.tasks[t].phase)
  {
    var step := NextStep(t, s.tasks[t], answers);
    TaskFacts(s, t);
    if s.tasks[t].phase.Sent? {
      ReachStep(s, step);
      SettleEnds(s, t);
      s' := Apply(s, step, true);
      steps := [step] + [];
      ReachesCons(s, step, [], answers, s');
    } else {
      TaskAdvances(s, t, answers);
      ReachStep(s, step);
      var rest;
      rest, s' := FinishTask(Apply(s, step, true), t, answers);
      steps := [step] + rest;
      ReachesCons(s, step, rest, answers, s');
    }
  }

  /** A pending row goes round: claimed, checked, called, settled. */
  lemma Round(s: System, q: QueueId, answers: nat -> Response) returns (steps: seq<Step>, s': System)
    requires Reachable(s) && q in s.db.queue && s.db.queue[q].status.RowPending?
    requires s.db.queue[q].delivery in s.db.deliveries && s.db.deliveries[s.db.queue[q].delivery] == Pending
    ensures Reaches(s, steps, answers, s') && Reachable(s') && |steps| <= 4
    ensures var row := s.db.queue[q];
      && RoundEnds(s', q, row.delivery, row.attempts + 1, row.limit)
      && (AllSucceed(answers) ==> s'.db.deliveries[row.delivery] == Delivered)
  {
    var t := UpperBound(s.tasks.Keys);
    ReachStep(s, Claim(t, q));
    var rest;
    rest, s' := FinishTask(Apply(s, Claim(t, q), true), t, answers);
    steps := [Claim(t, q)] + rest;
    ReachesCons(s, Claim(t, q), rest, answers, s');
  }

  lemma {:induction false} Rounds(s: System, q: QueueId, answers: nat -> Response)
    returns (steps: seq<Step>, s': System)
    requires Reachable(s) && q in s.db.queue && s.db.queue[q].status.RowPending?
    requires s.db.queue[q].attempts < s.db.queue[q].limit
    requires s.db.queue[q].delivery in s.db.deliveries && s.db.deliveries[s.db.queue[q].delivery] == Pending
    ensures Reaches(s, steps, answers, s')
    ensures |steps| <= 4 * (s.db.queue[q].limit - s.db.queue[q].attempts)
    ensures var d := s.db.queue[q].delivery;
      && d in s'.db.deliveries && s'.db.deliveries[d] != Pending
      && (AllSucceed(answers) ==> s'.db.deliveries[d] == Delivered)
    decreases s.db.queue[q].limit - s.db.queue[q].attempts
  {
    var row := s.db.queue[q];
    var s1;
    steps, s1 := Round(s, q, answers);
    s' := s1;
    if s1.db.deliveries[row.delivery] == Pending {
      var more;
      more, s' := Rounds(s1, q, answers);
      ReachesConcat(s, steps, s1, more, s', answers);
      steps := steps + more;
    }
  }

  /** The worker died: the reaper puts the row back. */
  lemma ReapBack(s: System, q: QueueId, answers: nat -> Response) returns (steps: seq<Step>, s': System)
    requires Reachable(s) && Enabled(s, Reap(q), true)
    ensures Reaches(s, steps, answers, s') && Reachable(s') && |steps| == 1
    ensures s' == s.(db := SetStatus(s.db, q, RowPending))
  {
    ReachStep(s, Reap(q));
    RowFacts(s, q);
    s' := Apply(s, Reap(q), true);
    steps := [Reap(q)] + [];
    ReachesCons(s, Reap(q), [], answers, s');
  }

  /** From a row that is processing: its task finishes, or the row is reaped. */
  lemma Free(s: System, q: QueueId, answers: nat -> Response) returns (steps: seq<Step>, s': System, n: nat)
    requires Reachable(s) && q in s.db.queue && s.db.queue[q].status.RowProcessing?
    requires s.db.queue[q].delivery in s.db.deliveries && s.db.deliveries[s.db.queue[q].delivery] == Pending
    ensures Reaches(s, steps, answers, s') && Reachable(s') && |steps| <= 3
    ensures RoundEnds(s', q, s.db.queue[q].delivery, n, s.db.queue[q].limit)
    ensures AllSucceed(answers) && !HoldsFailure(s, s.db.queue[q].delivery) ==>
              s'.db.deliveries[s.db.queue[q].delivery] != Failed
  {
    if Held(s, q) {
      var t :| t in s.tasks && s.tasks[t].row == q;
      TaskFacts(s, t);
      n := s.tasks[t].attempt;
      steps, s' := FinishTask(s, t, answers);
    } else {
      RowFacts(s, q);
      n := s.db.queue[q].attempts;
      steps, s' := ReapBack(s, q, answers);
    }
  }

  /** Some task already holds an answer that is no success. */
  predicate HoldsFailure(s: System, d: DeliveryId) {
    exists t :: t in s.tasks && s.tasks[t].delivery == d && s.tasks[t].phase.Sent? && !s.tasks[t].phase.response.success
  }

  /** To a pending row, or to an outcome. */
  lemma ToPendingRow(s: System, d: DeliveryId, answers: nat -> Response)
    returns (steps: seq<Step>, s': System, q: QueueId, n: nat, limit: nat)
    requires Reachable(s) && d in s.db.deliveries && s.db.deliveries[d] == Pending
    ensures Reaches(s, steps, answers, s') && Reachable(s') && |steps| <= 3
    ensures RoundEnds(s', q, d, n, limit)
    ensures limit == if HasRow(s.db, d) then RowLimit(s, d) else DEFAULT_MAX_ATTEMPTS
    ensures AllSucceed(answers) && !HoldsFailure(s, d) ==> s'.db.deliveries[d] != Failed
  {
    steps, s' := [], s;
    if HasRow(s.db, d) {
      q :| q in s.db.queue && s.db.queue[q].delivery == d;
      RowFacts(s, q);
      limit := s.db.queue[q].limit;
      ReachableSafe(s);
      OneLimit(s, q);
      if s.db.queue[q].status.RowProcessing? {
        steps, s', n := Free(s, q, answers);
      } else {
        n := s.db.queue[q].attempts;
      }
    } else {
      q := UpperBound(s.issued.Keys);
      limit := DEFAULT_MAX_ATTEMPTS;
      ReachStep(s, ReapOrphan(q, d));
      s' := Apply(s, ReapOrphan(q, d), true);
      steps := [ReapOrphan(q, d)] + [];
      ReachesCons(s, ReapOrphan(q, d), [], answers, s');
      n := 0;
    }
  }

  /** The attempt limit of the delivery's row; it has one row only. */
  ghost function RowLimit(s: System, d: DeliveryId): nat
    requires HasRow(s.db, d)
  {
    var q :| q in s.db.queue && s.db.queue[q].delivery == d;
    s.db.queue[q].limit
  }

  lemma OneLimit(s: System, q: QueueId)
    requires Ticketed(s) && q in s.db.queue
    ensures HasRow(s.db, s.db.queue[q].delivery) && RowLimit(s, s.db.queue[q].delivery) == s.db.queue[q].limit
  {
    var d := s.db.queue[q].delivery;
    var p :| p in s.db.queue && s.db.queue[p].delivery == d && RowLimit(s, d) == s.db.queue[p].limit;
    assert s.issued[p].delivery == s.issued[q].delivery;
  }

  /** Nothing gets stuck: from every reachable state, however many workers have died,
      a pending delivery gets its outcome without any further fault, whatever the
      receiver answers to each attempt: in at most three steps to get going and four
      per allowed attempt. If every answer is a success it is delivered. */
  lemma AlwaysProgresses(steps: seq<Step>, d: DeliveryId, answers: nat -> Response) returns (more: seq<Step>)
    requires CanRun(START, steps, true)
    requires var s := After(START, steps, true); d in s.db.deliveries && s.db.deliveries[d] == Pending
    ensures var s := After(START, steps, true);
      && CanRun(s, more, true) && FaultFree(s, more, answers)
      && |more| <= 3 + 4 * (if HasRow(s.db, d) then RowLimit(s, d) else DEFAULT_MAX_ATTEMPTS)
      && var s' := After(s, more, true);
      && d in s'.db.deliveries && s'.db.deliveries[d] != Pending
      && (AllSucceed(answers) && !HoldsFailure(s, d) ==> s'.db.deliveries[d] == Delivered)
  {
    var s := After(START, steps, true);
    assert ReachedBy(s, steps);
    var s1, q, n, limit;
    more, s1, q, n, limit := ToPendingRow(s, d, answers);
    if s1.db.deliveries[d] == Pending {
      var tail, s' := Rounds(s1, q, answers);
      ReachesConcat(s, more, s1, tail, s', answers);
      more := more + tail;
    }
  }

  // ------------------------------------------------------- the bound is tight

  function Waiting(log: seq<Event>): System {
    OneRow(RowPending, map[], log)
  }

  const CRASH_CYCLE: seq<Step> := [Claim(0, 0), CheckDelivered(0), Send(0, OK), Crash(0), Reap(0)]

  function CrashCycles(n: nat): seq<Step> {
    if n == 0 then [Accept(0), Publish(0, 0, 1)] else CrashCycles(n - 1) + CRASH_CYCLE
  }

  function Working(k: Task, log: seq<Event>): System {
    OneRow(RowProcessing, map[0 := k], log)
  }

  lemma CycleStarts(k: Task, log: seq<Event>)
    requires k == Task(0, 0, 1, 1, Claimed)
    ensures Enabled(Waiting(log), Claim(0, 0), true)
    ensures Apply(Waiting(log), Claim(0, 0), true) == Working(k, log)
    ensures Enabled(Working(k, log), CheckDelivered(0), true)
    ensures Apply(Working(k, log), CheckDelivered(0), true) == Working(k.(phase := Cleared), log)
  {
  }

  lemma CycleSends(k: Task, log: seq<Event>)
    requires k == Task(0, 0, 1, 1, Cleared)
    ensures Enabled(Working(k, log), Send(0, OK), true)
    ensures Apply(Working(k, log), Send(0, OK), true)
            == Working(k.(phase := Sent(OK)), log + [Call(0, 0, 1, OK)])
  {
  }

  lemma CycleCrashes(k: Task, log: seq<Event>)
    requires k == Task(0, 0, 1, 1, Sent(OK))
    ensures CanRun(Working(k, log), [Crash(0)] + ([Reap(0)] + []), true)
    ensures After(Working(k, log), [Crash(0)] + ([Reap(0)] + []), true) == Waiting(log + [Crashed(0, true)])
  {
    var s0 := Working(k, log);
    var s1 := Apply(s0, Crash(0), true);
    assert s1.tasks == map[];
    assert Apply(s1, Reap(0), true) == Waiting(log + [Crashed(0, true)]);
    RunCons(s1, Reap(0), [], true);
    RunCons(s0, Crash(0), [Reap(0)] + [], true);
  }

  lemma CrashCycle(log: seq<Event>)
    ensures CanRun(Waiting(log), CRASH_CYCLE, true)
    ensures After(Waiting(log), CRASH_CYCLE, true) == Waiting(log + [Call(0, 0, 1, OK)] + [Crashed(0, true)])
  {
    var k := Task(0, 0, 1, 1, Claimed);
    var log1 := log + [Call(0, 0, 1, OK)];
    var tail := [Crash(0)] + ([Reap(0)] + []);
    CycleStarts(k, log);
    CycleSends(k.(phase := Cleared), log);
    CycleCrashes(k.(phase := Sent(OK)), log1);
    RunCons(Working(k.(phase := Cleared), log), Send(0, OK), tail, true);
    RunCons(Working(k, log), CheckDelivered(0), [Send(0, OK)] + tail, true);
    RunCons(Waiting(log), Claim(0, 0), [CheckDelivered(0)] + ([Send(0, OK)] + tail), true);
    assert [Claim(0, 0)] + ([CheckDelivered(0)] + ([Send(0, OK)] + tail)) == CRASH_CYCLE;
  }

  /** A worker that dies after every send: n cycles of claim, check, send, crash
      and reset. The row is never terminated, its count stays 0, and it has been
      sent n times, so no bound without the fault term holds. */
  lemma {:induction false} CrashesNeverTerminate(n: nat)
    ensures CanRun(START, CrashCycles(n), true)
    ensures var s := After(START, CrashCycles(n), true);
      s == Waiting(s.log) && Calls(s.log, 0) == n && Faults(s.log, 0) == n
  {
    if n == 0 {
      RunExtend(START, [], Accept(0), true);
      assert [] + [Accept(0)] == [Accept(0)];
      RunExtend(START, [Accept(0)], Publish(0, 0, 1), true);
      assert [Accept(0)] + [Publish(0, 0, 1)] == CrashCycles(0);
    } else {
      CrashesNeverTerminate(n - 1);
      var log := After(START, CrashCycles(n - 1), true).log;
      CrashCycle(log);
      RunConcat(START, CrashCycles(n - 1), CRASH_CYCLE, true);
      LogGrows(log, Call(0, 0, 1, OK), 0);
      LogGrows(log + [Call(0, 0, 1, OK)], Crashed(0, true), 0);
    }
  }
}
