// The per-endpoint circuit breaker of the worker and the API: its transitions, and
// what they mean over whole histories.
//
// Instants are integers in nanoseconds on one time line; the system clock is the
// same line shifted by a constant, so the clocks of two processes agree.

module CircuitBreaker {
  import opened Options

  type Endpoint = nat

  const SECOND: int := 1_000_000_000
  const MILLI: int := 1_000_000

  datatype State = Closed | Open(openedAt: int) | HalfOpen

  datatype Circuit = Circuit(state: State, failures: nat, opens: nat)

  const FRESH: Circuit := Circuit(Closed, 0, 0)

  datatype Config = Config(threshold: nat, cooldownSecs: nat)

  // ------------------------------------------------------------ transitions

  /** Instant::elapsed().as_secs(): whole seconds, 0 for a future instant. */
  function ElapsedSecs(since: int, now: int): nat {
    if now < since then 0 else (now - since) / SECOND
  }

  predicate Ready(cfg: Config, c: Circuit, now: int) {
    match c.state
    case Closed => true
    case HalfOpen => true
    case Open(openedAt) => ElapsedSecs(openedAt, now) >= cfg.cooldownSecs
  }

  function OnAllow(cfg: Config, c: Circuit, now: int): Circuit {
    if c.state.Open? && Ready(cfg, c, now) then c.(state := HalfOpen) else c
  }

  function OnSuccess(c: Circuit): Circuit {
    c.(state := Closed, failures := 0)
  }

  function OnFailure(cfg: Config, c: Circuit, now: int): Circuit {
    var failures := c.failures + 1;
    if failures >= cfg.threshold then Circuit(Open(now), failures, c.opens + 1)
    else c.(failures := failures)
  }

  // --------------------------------------------------------------- histories

  /** A call, the instant it reads the clock, and the instant it returns. */
  datatype Call =
    | Allow(now: int, done: int)
    | Success(now: int, done: int)
    | Failure(now: int, done: int)

  function OnCall(cfg: Config, c: Circuit, call: Call): Circuit {
    match call
    case Allow(now, _) => OnAllow(cfg, c, now)
    case Success(_, _) => OnSuccess(c)
    case Failure(now, _) => OnFailure(cfg, c, now)
  }

  function After(cfg: Config, c: Circuit, h: seq<Call>): Circuit {
    if h == [] then c
    else OnCall(cfg, After(cfg, c, h[..|h| - 1]), h[|h| - 1])
  }

  /** The calls are sequential: each one starts after the previous returned. */
  ghost predicate Sequential(h: seq<Call>, from: int, upTo: int) {
    if h == [] then from <= upTo
    else
      var last := h[|h| - 1];
      Sequential(h[..|h| - 1], from, last.now) && last.now <= last.done <= upTo
  }

  /** Failures since the last success. */
  function TrailingRun(h: seq<Call>): nat {
    if h == [] then 0
    else match h[|h| - 1]
      case Allow(_, _) => TrailingRun(h[..|h| - 1])
      case Success(_, _) => 0
      case Failure(_, _) => TrailingRun(h[..|h| - 1]) + 1
  }

  function LastFailure(h: seq<Call>): Option<int> {
    if h == [] then None
    else match h[|h| - 1]
      case Failure(now, _) => Some(now)
      case _ => LastFailure(h[..|h| - 1])
  }

  /** The lengths of the maximal failure runs: the successes cut the history, and
      allow_request calls do not count. */
  function FailureRuns(h: seq<Call>): (runs: seq<nat>)
    ensures runs != []
  {
    if h == [] then [0]
    else
      var runs := FailureRuns(h[..|h| - 1]);
      match h[|h| - 1]
      case Allow(_, _) => runs
      case Success(_, _) => runs + [0]
      case Failure(_, _) => runs[..|runs| - 1] + [runs[|runs| - 1] + 1]
  }

  /** A run of r failures opens the circuit max(0, r - T + 1) times. */
  function OpensOf(run: nat, threshold: nat): nat {
    if run < threshold then 0 else run - threshold + 1
  }

  function TotalOpens(runs: seq<nat>, threshold: nat): nat {
    if runs == [] then 0
    else TotalOpens(runs[..|runs| - 1], threshold) + OpensOf(runs[|runs| - 1], threshold)
  }

  /** A threshold of 0 acts like 1: every failure opens the circuit. */
  function Threshold(cfg: Config): nat {
    if cfg.threshold == 0 then 1 else cfg.threshold
  }

  lemma {:induction false} HistoryInvariants(cfg: Config, h: seq<Call>)
    ensures var c := After(cfg, FRESH, h);
      && c.failures == TrailingRun(h)
      && (c.state == Closed <==> TrailingRun(h) < if cfg.threshold == 0 then 1 else cfg.threshold)
      && c.opens == TotalOpens(FailureRuns(h), Threshold(cfg))
      && TrailingRun(h) == FailureRuns(h)[|FailureRuns(h)| - 1]
  {
    if h != [] {
      var before := h[..|h| - 1];
      HistoryInvariants(cfg, before);
      var runs := FailureRuns(before);
      match h[|h| - 1]
      case Allow(_, _) =>
      case Success(_, _) => assert (runs + [0])[..|runs|] == runs;
      case Failure(_, _) =>
        var longer := runs[..|runs| - 1] + [runs[|runs| - 1] + 1];
        assert longer[..|longer| - 1] == runs[..|runs| - 1];
    } else {
      assert [0][..0] == [];
    }
  }

  /** What the state of the breaker means for later answers. */
  lemma {:induction false} OpenSinceLastFailure(cfg: Config, h: seq<Call>, from: int, now: int)
    requires Sequential(h, from, now)
    ensures var c := After(cfg, FRESH, h);
      && (TrailingRun(h) > 0 ==> LastFailure(h).Some? && LastFailure(h).value <= now)
      && (c.state.Open? ==> TrailingRun(h) > 0 && c.state.openedAt == LastFailure(h).value)
      && (c.state.HalfOpen? ==>
            TrailingRun(h) > 0 && LastFailure(h).value + cfg.cooldownSecs * 1_000_000_000 <= now)
  {
    if h != [] {
      var last := h[|h| - 1];
      OpenSinceLastFailure(cfg, h[..|h| - 1], from, last.now);
      HistoryInvariants(cfg, h[..|h| - 1]);
    }
  }

  /** The last failure is at least the cooldown ago. */
  predicate CooledDown(cfg: Config, h: seq<Call>, now: int) {
    LastFailure(h).Some? && now - LastFailure(h).value >= cfg.cooldownSecs * 1_000_000_000
  }

  /** The stateless formula: below the threshold, or cooled down. */
  predicate Admits(cfg: Config, h: seq<Call>, now: int) {
    TrailingRun(h) < Threshold(cfg) || CooledDown(cfg, h, now)
  }

  /** The breaker refines a stateless formula: after any sequential history it
      lets a request through exactly when the trailing failure run is below the
      threshold or the last failure is at least the cooldown ago. */
  lemma AllowFormula(cfg: Config, h: seq<Call>, from: int, now: int)
    requires Sequential(h, from, now)
    ensures Ready(cfg, After(cfg, FRESH, h), now)
            <==> TrailingRun(h) < (if cfg.threshold == 0 then 1 else cfg.threshold)
                 || (LastFailure(h).Some? && now >= LastFailure(h).value + cfg.cooldownSecs * 1_000_000_000)
    ensures Ready(cfg, After(cfg, FRESH, h), now) <==> Admits(cfg, h, now)
  {
    HistoryInvariants(cfg, h);
    OpenSinceLastFailure(cfg, h, from, now);
  }

  predicate FailureFree(h: seq<Call>) {
    forall i :: 0 <= i < |h| ==> !h[i].Failure?
  }

  predicate HasSuccess(h: seq<Call>) {
    exists i :: 0 <= i < |h| && h[i].Success?
  }

  /** From any circuit, calls that record no failure never close the gate: the
      answer is that of the circuit itself, or yes after a success. In particular
      a half-open circuit admits every one of any number of calls. */
  lemma {:induction false} FailureFreeAnswers(cfg: Config, c: Circuit, h: seq<Call>, from: int, now: int)
    requires Sequential(h, from, now) && FailureFree(h)
    ensures Ready(cfg, After(cfg, c, h), now) <==> HasSuccess(h) || Ready(cfg, c, now)
    ensures After(cfg, c, h).state.Open? ==> !HasSuccess(h) && After(cfg, c, h).state == c.state
  {
    if h != [] {
      var before := h[..|h| - 1];
      var last := h[|h| - 1];
      FailureFreeAnswers(cfg, c, before, from, last.now);
      assert HasSuccess(h) <==> HasSuccess(before) || last.Success? by {
        if HasSuccess(h) {
          var i :| 0 <= i < |h| && h[i].Success?;
          assert i < |before| ==> before[i].Success?;
        }
        if HasSuccess(before) {
          var i :| 0 <= i < |before| && before[i].Success?;
          assert h[i].Success?;
        }
      }
      FailureFreeStep(cfg, After(cfg, c, before), last, c, now);
    }
  }

  lemma FailureFreeStep(cfg: Config, mid: Circuit, last: Call, c: Circuit, now: int)
    requires !last.Failure? && last.now <= now
    requires mid.state.Open? ==> mid.state == c.state
    ensures Ready(cfg, OnCall(cfg, mid, last), now) ==> last.Success? || Ready(cfg, mid, now)
    ensures last.Success? || Ready(cfg, mid, now) ==> Ready(cfg, OnCall(cfg, mid, last), now)
  {
  }
}
