// The per-endpoint delivery throttle: a counting window and an exponential
// backoff. Times are epoch milliseconds.

module Throttle {
  import opened Options
  import opened Numerals

  type Endpoint = nat

  datatype Config = Config(maxPerWindow: nat, windowSecs: nat, baseSecs: nat)

  const DEFAULT: Config := Config(10, 60, 5)

  datatype Entry = Entry(count: nat, windowStart: nat, nextAllowed: nat)

  function Fresh(now: nat): Entry {
    Entry(0, now, 0)
  }

  function Capped(n: nat): nat {
    if n < 5 then n else 5
  }

  /** Backoff of the k-th attempt over the limit, in milliseconds, k >= 1. */
  function BackoffMs(cfg: Config, k: nat): nat
    requires k >= 1
  {
    cfg.baseSecs * Pow2(Capped(k - 1)) * 1000
  }

  /** now.saturating_sub(start) > window. */
  predicate Expired(cfg: Config, e: Entry, now: nat) {
    now >= e.windowStart && now - e.windowStart > cfg.windowSecs * 1000
  }

  function OnAttempt(cfg: Config, e: Entry, now: nat): Entry {
    var w := if Expired(cfg, e, now) then e.(windowStart := now, count := 0) else e;
    var c := w.(count := w.count + 1);
    if c.count > cfg.maxPerWindow then c.(nextAllowed := now + BackoffMs(cfg, c.count - cfg.maxPerWindow)) else c
  }

  function OnSuccess(e: Entry): Entry {
    e.(count := 0, nextAllowed := 0)
  }

  /** check_allowed: None when allowed, otherwise the wait. */
  function Wait(e: Option<Entry>, now: nat): Option<nat> {
    if e.Some? && now < e.value.nextAllowed then Some(e.value.nextAllowed - now) else None
  }

  // --------------------------------------------------------------- histories

  /** An attempt is checked, made, and recorded as failed; a success resets. */
  datatype Call = Attempt(checked: nat, recorded: nat) | Success(at: nat)

  function OnCall(cfg: Config, e: Option<Entry>, call: Call): Option<Entry> {
    match call
    case Attempt(_, now) => Some(OnAttempt(cfg, if e.Some? then e.value else Fresh(now), now))
    case Success(_) => if e.Some? then Some(OnSuccess(e.value)) else None
  }

  function After(cfg: Config, h: seq<Call>): Option<Entry> {
    if h == [] then None else OnCall(cfg, After(cfg, h[..|h| - 1]), h[|h| - 1])
  }

  /** Calls follow one another in time. */
  ghost predicate Sequential(h: seq<Call>, upTo: nat) {
    h != [] ==>
      match h[|h| - 1]
      case Attempt(checked, recorded) => Sequential(h[..|h| - 1], checked) && checked <= recorded <= upTo
      case Success(at) => Sequential(h[..|h| - 1], at) && at <= upTo
  }

  /** Every recorded attempt followed a check that let it through. */
  ghost predicate Gated(cfg: Config, h: seq<Call>) {
    h != [] ==>
      && Gated(cfg, h[..|h| - 1])
      && (h[|h| - 1].Attempt? ==> Wait(After(cfg, h[..|h| - 1]), h[|h| - 1].checked) == None)
  }

  /** Backoff units spent by the first n attempts over the limit. */
  function Spent(n: nat): nat {
    if n == 0 then 0 else Spent(n - 1) + Pow2(Capped(n - 1))
  }

  function Overflow(cfg: Config, e: Entry): nat {
    if e.count > cfg.maxPerWindow then e.count - cfg.maxPerWindow else 0
  }

  /** In a gated run the k-th overflow has waited out the k - 1 before it. */
  predicate WaitedOut(cfg: Config, e: Entry, now: nat) {
    var k := Overflow(cfg, e);
    && e.windowStart <= now
    && (k >= 1 ==>
          && e.windowStart + cfg.baseSecs * Spent(k) * 1000 <= e.nextAllowed
          && e.nextAllowed <= e.windowStart + cfg.windowSecs * 1000 + BackoffMs(cfg, k))
  }

  lemma SpentStep(cfg: Config, k: nat)
    ensures cfg.baseSecs * Spent(k + 1) * 1000 == cfg.baseSecs * Spent(k) * 1000 + BackoffMs(cfg, k + 1)
  {
    var b, x, y := cfg.baseSecs, Spent(k), Pow2(Capped(k));
    assert b * (x + y) == b * x + b * y;
  }

  lemma AttemptWaitsOut(cfg: Config, e: Entry, checked: nat, now: nat)
    requires WaitedOut(cfg, e, checked) && e.nextAllowed <= checked <= now
    ensures WaitedOut(cfg, OnAttempt(cfg, e, now), now)
  {
    var e' := OnAttempt(cfg, e, now);
    var k' := Overflow(cfg, e');
    if k' >= 1 {
      SpentStep(cfg, k' - 1);
      assert Spent(0) == 0;
      assert cfg.baseSecs * Spent(0) * 1000 == 0;
    }
  }

  lemma {:induction false} GatedWaitsOut(cfg: Config, h: seq<Call>, now: nat)
    requires Sequential(h, now) && Gated(cfg, h)
    ensures After(cfg, h).Some? ==> WaitedOut(cfg, After(cfg, h).value, now)
  {
    if h != [] {
      var before := h[..|h| - 1];
      match h[|h| - 1]
      case Attempt(checked, recorded) =>
        GatedWaitsOut(cfg, before, checked);
        var e := After(cfg, before);
        var start := if e.Some? then e.value else Fresh(recorded);
        AttemptWaitsOut(cfg, start, if e.Some? then checked else recorded, recorded);
      case Success(at) => GatedWaitsOut(cfg, before, at);
    }
  }

  /** The k-th attempt over the limit of one window needs a window long enough for
      the backoffs of the k - 1 before it. */
  lemma OverflowCost(cfg: Config, h: seq<Call>, now: nat)
    requires Sequential(h, now) && Gated(cfg, h) && After(cfg, h).Some?
    ensures var k := Overflow(cfg, After(cfg, h).value);
      k >= 1 ==> cfg.baseSecs * Spent(k - 1) <= cfg.windowSecs
  {
    GatedWaitsOut(cfg, h, now);
    var k := Overflow(cfg, After(cfg, h).value);
    if k >= 1 {
      SpentStep(cfg, k - 1);
    }
  }

  /** Closed form: doubling up to the sixth overflow, then 32 units each. */
  lemma {:induction false} SpentClosedForm(n: nat)
    ensures n <= 6 ==> Spent(n) == Pow2(n) - 1
    ensures n >= 6 ==> Spent(n) == 63 + 32 * (n - 6)
  {
    if n > 0 {
      SpentClosedForm(n - 1);
    }
    assert Pow2(5) == 32 && Pow2(6) == 64;
  }

  /** For k <= 7 the bound reads base * (2^(k-1) - 1) <= window. */
  lemma GatedThrottleBound(cfg: Config, h: seq<Call>, now: nat, k: nat)
    requires Sequential(h, now) && Gated(cfg, h) && After(cfg, h).Some?
    requires k == Overflow(cfg, After(cfg, h).value) && 1 <= k <= 7
    ensures cfg.baseSecs * (Pow2(k - 1) - 1) <= cfg.windowSecs
  {
    OverflowCost(cfg, h, now);
    SpentClosedForm(k - 1);
  }

  lemma {:induction false} SpentGrows(a: nat, b: nat)
    requires a <= b
    ensures Spent(a) <= Spent(b)
    decreases b
  {
    if a < b {
      SpentGrows(a, b - 1);
    }
  }

  // ------------------------------------------------- counting attempts by window

  /** Attempts recorded at or after `start`. */
  function RecordedSince(h: seq<Call>, start: nat): nat {
    if h == [] then 0
    else
      RecordedSince(h[..|h| - 1], start) + if h[|h| - 1].Attempt? && h[|h| - 1].recorded >= start then 1 else 0
  }

  /** Of these, the ones after the last success. */
  function CountedSince(h: seq<Call>, start: nat): nat {
    if h == [] || h[|h| - 1].Success? then 0
    else CountedSince(h[..|h| - 1], start) + if h[|h| - 1].recorded >= start then 1 else 0
  }

  /** Every success came before `start`. */
  predicate NoSuccessSince(h: seq<Call>, start: nat) {
    forall i :: 0 <= i < |h| && h[i].Success? ==> h[i].at < start
  }

  lemma {:induction false} NoneSince(h: seq<Call>, upTo: nat, start: nat)
    requires Sequential(h, upTo) && upTo < start
    ensures RecordedSince(h, start) == 0 && CountedSince(h, start) == 0
  {
    if h != [] {
      match h[|h| - 1]
      case Attempt(checked, _) => NoneSince(h[..|h| - 1], checked, start);
      case Success(at) => NoneSince(h[..|h| - 1], at, start);
    }
  }

  /** The last recorded attempt. */
  function LastAttempt(h: seq<Call>): Option<nat> {
    if h == [] then None
    else
      match h[|h| - 1]
      case Attempt(_, recorded) => Some(recorded)
      case Success(_) => LastAttempt(h[..|h| - 1])
  }

  lemma {:induction false} CountedUpToLast(h: seq<Call>, upTo: nat, start: nat)
    requires Sequential(h, upTo)
    ensures LastAttempt(h).Some? ==> LastAttempt(h).value <= upTo
    ensures LastAttempt(h).None? || LastAttempt(h).value < start ==> CountedSince(h, start) == 0
  {
    if h != [] {
      match h[|h| - 1]
      case Attempt(checked, recorded) =>
        if recorded < start {
          NoneSince(h[..|h| - 1], checked, start);
        }
      case Success(at) => CountedUpToLast(h[..|h| - 1], at, start);
    }
  }

  /** attempt_count counts exactly the attempts recorded since the current window
      started or, if that is later, since the last success; and none of them is past
      the window's end. */
  lemma {:induction false} CountIsExact(cfg: Config, h: seq<Call>, now: nat)
    requires Sequential(h, now)
    ensures After(cfg, h).Some? <==> LastAttempt(h).Some?
    ensures After(cfg, h).Some? ==>
              var e := After(cfg, h).value;
              && e.count == CountedSince(h, e.windowStart)
              && e.windowStart <= LastAttempt(h).value <= now
              && LastAttempt(h).value - e.windowStart <= cfg.windowSecs * 1000
  {
    if h != [] {
      var before := h[..|h| - 1];
      match h[|h| - 1]
      case Success(at) => CountIsExact(cfg, before, at);
      case Attempt(checked, recorded) =>
        CountIsExact(cfg, before, checked);
        CountedUpToLast(before, checked, recorded);
    }
  }

  /** Without a success since the window started these are all its attempts. */
  lemma {:induction false} CountsTheWindow(h: seq<Call>, upTo: nat, start: nat)
    requires Sequential(h, upTo) && NoSuccessSince(h, start)
    ensures CountedSince(h, start) == RecordedSince(h, start)
  {
    if h != [] {
      var before := h[..|h| - 1];
      assert NoSuccessSince(before, start);
      match h[|h| - 1]
      case Attempt(checked, _) => CountsTheWindow(before, checked, start);
      case Success(at) =>
        assert h[|h| - 1].Success?;
        NoneSince(before, at, start);
    }
  }

  /** The default configuration: gated, at most 14 attempts count in one window, and
      so at most 14 are recorded in a window without a success. */
  lemma DefaultAtMostFourteen(h: seq<Call>, now: nat)
    requires Sequential(h, now) && Gated(DEFAULT, h) && After(DEFAULT, h).Some?
    ensures var e := After(DEFAULT, h).value;
      && e.count <= 14
      && (NoSuccessSince(h, e.windowStart) ==> RecordedSince(h, e.windowStart) <= 14)
  {
    var e := After(DEFAULT, h).value;
    var k := Overflow(DEFAULT, e);
    OverflowCost(DEFAULT, h, now);
    assert Pow2(4) == 16;
    SpentClosedForm(4);
    if k >= 5 {
      SpentGrows(4, k - 1);
    }
    CountIsExact(DEFAULT, h, now);
    if NoSuccessSince(h, e.windowStart) {
      CountsTheWindow(h, now, e.windowStart);
    }
  }

  /** n attempts recorded at one instant. */
  function Burst(n: nat, at: nat): seq<Call> {
    if n == 0 then [] else Burst(n - 1, at) + [Attempt(at, at)]
  }

  lemma {:induction false} BurstCounts(cfg: Config, n: nat, at: nat)
    requires n > 0
    ensures Sequential(Burst(n, at), at)
    ensures var e := After(cfg, Burst(n, at)); e.Some? && e.value.count == n && e.value.windowStart == at
  {
    if n > 1 {
      BurstCounts(cfg, n - 1, at);
    }
    assert Burst(n, at)[..|Burst(n, at)| - 1] == Burst(n - 1, at);
  }

  /** Without the gate nothing bounds the count: so long as nobody asks, every attempt of
      a burst is recorded in its window; only a gated history stops at 14. */
  lemma UngatedIsUnbounded(n: nat, at: nat)
    requires n > 14
    ensures Sequential(Burst(n, at), at) && !Gated(DEFAULT, Burst(n, at))
    ensures var e := After(DEFAULT, Burst(n, at)); e.Some? && e.value.count == n
  {
    BurstCounts(DEFAULT, n, at);
    if Gated(DEFAULT, Burst(n, at)) {
      DefaultAtMostFourteen(Burst(n, at), at);
    }
  }

  // --------------------------------------------------------- the longest wait

  lemma CappedPow(n: nat)
    ensures Pow2(Capped(n)) <= 32
  {
    assert Pow2(5) == 32 && Pow2(4) == 16 && Pow2(3) == 8 && Pow2(2) == 4 && Pow2(1) == 2;
  }

  lemma BackoffAtMost(cfg: Config, k: nat)
    requires k >= 1
    ensures BackoffMs(cfg, k) <= 32 * cfg.baseSecs * 1000
  {
    CappedPow(k - 1);
    var p := Pow2(Capped(k - 1));
    assert cfg.baseSecs * p <= cfg.baseSecs * 32;
  }

  /** Gated or not, a wait never exceeds 32 times the base backoff. */
  lemma {:induction false} WaitAtMost(cfg: Config, h: seq<Call>, now: nat)
    requires Sequential(h, now)
    ensures After(cfg, h).Some? ==> After(cfg, h).value.nextAllowed <= now + 32 * cfg.baseSecs * 1000
    ensures Wait(After(cfg, h), now).Some? ==> Wait(After(cfg, h), now).value <= 32 * cfg.baseSecs * 1000
  {
    if h != [] {
      var before := h[..|h| - 1];
      match h[|h| - 1]
      case Attempt(checked, recorded) =>
        WaitAtMost(cfg, before, checked);
        var e := After(cfg, h).value;
        if e.count > cfg.maxPerWindow {
          BackoffAtMost(cfg, e.count - cfg.maxPerWindow);
        }
      case Success(at) => WaitAtMost(cfg, before, at);
    }
  }

  // ------------------------------------------------- the answers, from the history

  /** Where the current window starts: at the first attempt recorded, and then at each
      attempt recorded more than the window after the last start; successes do not
      matter. */
  function WindowStart(windowSecs: nat, h: seq<Call>): Option<nat> {
    if h == [] then None
    else
      var before := WindowStart(windowSecs, h[..|h| - 1]);
      match h[|h| - 1]
      case Success(_) => before
      case Attempt(_, recorded) =>
        if before.Some? && recorded <= before.value + windowSecs * 1000 then before else Some(recorded)
  }

  /** Doubling from the first attempt over the limit to the sixth. */
  function Doubling(k: nat): nat {
    if k <= 1 then 1 else if k == 2 then 2 else if k == 3 then 4 else if k == 4 then 8 else if k == 5 then 16 else 32
  }

  /** The instant until which attempts are refused: that of the last attempt over the
      limit of its window since the last success, plus its backoff. */
  function RefusedUntil(cfg: Config, h: seq<Call>): Option<nat> {
    if h == [] || h[|h| - 1].Success? then None
    else
      var start := WindowStart(cfg.windowSecs, h);
      var n := if start.Some? then CountedSince(h, start.value) else 0;
      if n > cfg.maxPerWindow
      then Some(h[|h| - 1].recorded + cfg.baseSecs * Doubling(n - cfg.maxPerWindow) * 1000)
      else RefusedUntil(cfg, h[..|h| - 1])
  }

  lemma DoublingIsPow2(k: nat)
    requires k >= 1
    ensures Pow2(Capped(k - 1)) == Doubling(k)
  {
    assert Pow2(5) == 32 && Pow2(4) == 16 && Pow2(3) == 8 && Pow2(2) == 4 && Pow2(1) == 2 && Pow2(0) == 1;
  }

  /** The entry's window is that of the history. */
  lemma {:induction false} WindowIsExact(cfg: Config, h: seq<Call>, now: nat)
    requires Sequential(h, now)
    ensures After(cfg, h).Some? <==> WindowStart(cfg.windowSecs, h).Some?
    ensures After(cfg, h).Some? ==> WindowStart(cfg.windowSecs, h) == Some(After(cfg, h).value.windowStart)
  {
    if h != [] {
      var before := h[..|h| - 1];
      match h[|h| - 1]
      case Success(at) => WindowIsExact(cfg, before, at);
      case Attempt(checked, recorded) =>
        WindowIsExact(cfg, before, checked);
        CountIsExact(cfg, before, checked);
    }
  }

  /** And its next allowed instant is the one until which the history refuses. */
  lemma {:induction false} RefusalIsExact(cfg: Config, h: seq<Call>, now: nat)
    requires Sequential(h, now) && After(cfg, h).Some?
    ensures After(cfg, h).value.nextAllowed == if RefusedUntil(cfg, h).Some? then RefusedUntil(cfg, h).value else 0
  {
    var before := h[..|h| - 1];
    match h[|h| - 1]
    case Success(_) =>
    case Attempt(checked, recorded) =>
      WindowIsExact(cfg, h, now);
      CountIsExact(cfg, h, now);
      var e := After(cfg, h).value;
      if e.count > cfg.maxPerWindow {
        DoublingIsPow2(e.count - cfg.maxPerWindow);
      }
      if After(cfg, before).Some? {
        RefusalIsExact(cfg, before, checked);
      } else {
        NothingBefore(cfg, before, checked);
      }
  }

  lemma {:induction false} NothingBefore(cfg: Config, h: seq<Call>, now: nat)
    requires Sequential(h, now) && After(cfg, h).None?
    ensures RefusedUntil(cfg, h).None?
  {
    CountIsExact(cfg, h, now);
    if h != [] {
      assert h[|h| - 1].Success?;
    }
  }

  /** check_allowed, from the history alone: it refuses exactly before that instant, and
      answers the time that remains. */
  lemma WaitIsExact(cfg: Config, h: seq<Call>, now: nat)
    requires Sequential(h, now)
    ensures var until := RefusedUntil(cfg, h);
      Wait(After(cfg, h), now)
      == if until.Some? && now < until.value then Some(until.value - now) else None
  {
    if After(cfg, h).Some? {
      RefusalIsExact(cfg, h, now);
    } else {
      NothingBefore(cfg, h, now);
    }
  }

  /** In numbers, for the default configuration: the k-th attempt over ten in a window of
      a minute refuses the next 5, 10, 20, 40, 80 or 160 seconds; a success lifts that. */
  lemma DefaultRefusals(h: seq<Call>, now: nat, later: nat)
    requires Sequential(h, now) && h != [] && now <= later
    ensures h[|h| - 1].Success? ==> Wait(After(DEFAULT, h), later) == None
    ensures h[|h| - 1].Attempt? ==>
              var start := WindowStart(60, h);
              && start.Some?
              && var n := CountedSince(h, start.value);
              && var last := h[|h| - 1].recorded;
              && (n == 11 && later < last + 5_000 ==> Wait(After(DEFAULT, h), later) == Some(last + 5_000 - later))
              && (n == 12 && later < last + 10_000 ==> Wait(After(DEFAULT, h), later) == Some(last + 10_000 - later))
              && (n == 14 && later < last + 40_000 ==> Wait(After(DEFAULT, h), later) == Some(last + 40_000 - later))
              && (n >= 16 && later < last + 160_000 ==> Wait(After(DEFAULT, h), later) == Some(last + 160_000 - later))
              && (n == 11 && later >= last + 5_000 ==> Wait(After(DEFAULT, h), later) == None)
  {
    SequentialLater(h, now, later);
    WaitIsExact(DEFAULT, h, later);
  }

  // ------------------------------------------------------------ the shared map

  /** The throttle map behind its lock, with the history of every endpoint. */
  class Manager {
    const cfg: Config
    var throttles: map<Endpoint, Entry>
    ghost var histories: map<Endpoint, seq<Call>>
    ghost var clock: nat

    ghost function View(e: Endpoint): Option<Entry>
      reads this
    {
      if e in throttles then Some(throttles[e]) else None
    }

    ghost function History(e: Endpoint): seq<Call>
      reads this
    {
      if e in histories then histories[e] else []
    }

    /** However calls for different endpoints interleave, each entry is what the
        endpoint's own calls make of it. */
    ghost predicate Valid()
      reads this
    {
      forall e :: Follows(e)
    }

    ghost predicate Follows(e: Endpoint)
      reads this
    {
      View(e) == After(cfg, History(e)) && Sequential(History(e), clock)
    }

    constructor (cfg: Config)
      ensures Valid() && this.cfg == cfg && clock == 0 && forall e :: History(e) == []
    {
      this.cfg, throttles := cfg, map[];
      histories, clock := map[], 0;
    }

    /** The answer is the endpoint's own, and no wait exceeds 32 times the base. */
    method CheckAllowed(e: Endpoint, now: nat) returns (wait: Option<nat>)
      requires Valid() && clock <= now
      ensures wait == Wait(After(cfg, History(e)), now)
      ensures var until := RefusedUntil(cfg, History(e));
        wait == if until.Some? && now < until.value then Some(until.value - now) else None
      ensures wait.Some? ==> 0 < wait.value <= 32 * cfg.baseSecs * 1000
    {
      assert Follows(e);
      SequentialLater(History(e), clock, now);
      WaitAtMost(cfg, History(e), now);
      WaitIsExact(cfg, History(e), now);
      if e in throttles {
        var throttle := throttles[e];
        if now < throttle.nextAllowed {
          return Some(throttle.nextAllowed - now);
        }
      }
      return None;
    }

    /** The update of record_attempt. */
    method CountAttempt(e: Endpoint, ghost checked: nat, now: nat)
      modifies this`throttles
      ensures View(e) == OnCall(cfg, old(View(e)), Attempt(checked, now))
      ensures forall f :: f != e ==> View(f) == old(View(f))
    {
      var throttle := if e in throttles then throttles[e] else Fresh(now);
      if now >= throttle.windowStart && now - throttle.windowStart > cfg.windowSecs * 1000 {
        throttle := throttle.(windowStart := now, count := 0);
      }
      throttle := throttle.(count := throttle.count + 1);
      if throttle.count > cfg.maxPerWindow {
        var overflow := throttle.count - cfg.maxPerWindow;
        var exponent := if overflow - 1 < 5 then overflow - 1 else 5;
        throttle := throttle.(nextAllowed := now + cfg.baseSecs * Pow2(exponent) * 1000);
      }
      throttles := throttles[e := throttle];
    }

    /** `checked` is when the attempt asked CheckAllowed. */
    method RecordAttempt(e: Endpoint, ghost checked: nat, now: nat)
      requires Valid() && Sequential(History(e), checked) && checked <= now && clock <= now
      modifies this
      ensures Valid() && clock == now
      ensures View(e) == OnCall(cfg, old(View(e)), Attempt(checked, now))
      ensures History(e) == old(History(e)) + [Attempt(checked, now)]
      ensures forall f :: f != e ==> View(f) == old(View(f)) && History(f) == old(History(f))
    {
      assert Follows(e);
      CountAttempt(e, checked, now);
      Remember(e, Attempt(checked, now), now);
      AllFollow(e);
    }

    method RecordSuccess(e: Endpoint, now: nat)
      requires Valid() && clock <= now
      modifies this
      ensures Valid() && clock == now
      ensures View(e) == OnCall(cfg, old(View(e)), Success(now))
      ensures History(e) == old(History(e)) + [Success(now)]
      ensures forall f :: f != e ==> View(f) == old(View(f)) && History(f) == old(History(f))
    {
      assert Follows(e);
      SequentialLater(History(e), clock, now);
      if e in throttles {
        throttles := throttles[e := throttles[e].(count := 0, nextAllowed := 0)];
      }
      Remember(e, Success(now), now);
      AllFollow(e);
    }

    /** The history of e grows by the call that has just changed its entry. */
    ghost method Remember(e: Endpoint, call: Call, now: nat)
      requires clock <= now
      requires View(e) == OnCall(cfg, After(cfg, History(e)), call) && Sequential(History(e) + [call], now)
      modifies this`histories, this`clock
      ensures Follows(e) && clock == now && History(e) == old(History(e)) + [call]
      ensures forall f :: f != e ==> History(f) == old(History(f))
    {
      ghost var h := History(e) + [call];
      assert h[..|h| - 1] == History(e);
      histories := histories[e := h];
      clock := now;
    }

    /** Endpoints without a new call still follow, at the later instant. */
    twostate lemma AllFollow(e: Endpoint)
      requires old(Valid()) && Follows(e) && old(clock) <= clock
      requires forall f :: f != e ==> View(f) == old(View(f)) && History(f) == old(History(f))
      ensures Valid()
    {
      forall f | f != e ensures Follows(f) {
        assert old(Follows(f));
        SequentialLater(History(f), old(clock), clock);
      }
    }
  }

  lemma SequentialLater(h: seq<Call>, a: nat, b: nat)
    requires Sequential(h, a) && a <= b
    ensures Sequential(h, b)
  {
  }
}
