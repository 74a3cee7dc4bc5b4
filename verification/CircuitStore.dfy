// The circuit breaker's map of circuits, its Redis copy, and what a restart
// changes.

module CircuitStore {
  import opened Options
  import opened CircuitBreaker

  /** PersistedCircuit, the JSON value stored under the endpoint's key. */
  datatype Persisted = Persisted(state: string, failures: nat, opens: nat, openedAtMs: Option<nat>)

  /** A Redis key with its expiry instant (SETEX). */
  datatype Stored = Stored(value: Persisted, expiresAt: int)

  /** Epoch milliseconds of an instant; `epoch` is the instant of the UNIX epoch. */
  function EpochMs(epoch: int, now: int): nat
    requires epoch <= now
  {
    (now - epoch) / MILLI
  }

  function SaturatingSub(a: nat, b: nat): nat {
    if a < b then 0 else a - b
  }

  /** persist_circuit, reading both clocks at `now`. */
  function Persist(c: Circuit, epoch: int, now: int): Persisted
    requires epoch <= now
  {
    match c.state
    case Closed => Persisted("closed", c.failures, c.opens, None)
    case HalfOpen => Persisted("half_open", c.failures, c.opens, None)
    case Open(openedAt) =>
      var elapsed: nat := if now > openedAt then (now - openedAt) / MILLI else 0;
      Persisted("open", c.failures, c.opens, Some(SaturatingSub(EpochMs(epoch, now), elapsed)))
  }

  /** The decoding in load_from_redis, reading both clocks at `now`. */
  function Restore(p: Persisted, epoch: int, now: int): Circuit
    requires epoch <= now
  {
    var state :=
      if p.state == "open" then
        match p.openedAtMs
        case Some(ms) => Open(now - SaturatingSub(EpochMs(epoch, now), ms) * MILLI)
        case None => Open(now)
      else if p.state == "half_open" then HalfOpen
      else Closed;
    Circuit(state, p.failures, p.opens)
  }

  /** Persist then load keeps everything but the opening instant, which comes back
      less than 1 ms early and less than 2 ms late. */
  lemma RestoreIsClose(c: Circuit, epoch: int, saved: int, loaded: int)
    requires epoch <= saved <= loaded
    requires c.state.Open? ==> epoch <= c.state.openedAt <= saved
    ensures var r := Restore(Persist(c, epoch, saved), epoch, loaded);
      && r.failures == c.failures && r.opens == c.opens
      && (!c.state.Open? ==> r.state == c.state)
      && (c.state.Open? ==>
            r.state.Open? && c.state.openedAt - 1_000_000 < r.state.openedAt < c.state.openedAt + 2_000_000)
  {
  }

  /** The stored form: the three names, the counts, and for an open circuit the epoch
      milliseconds of its opening to within one. */
  lemma PersistedForm(c: Circuit, epoch: int, now: int)
    requires epoch <= now && (c.state.Open? ==> epoch <= c.state.openedAt <= now)
    ensures var p := Persist(c, epoch, now);
      && p.failures == c.failures && p.opens == c.opens
      && (c.state.Closed? ==> p.state == "closed" && p.openedAtMs == None)
      && (c.state.HalfOpen? ==> p.state == "half_open" && p.openedAtMs == None)
      && (c.state.Open? ==>
            && p.state == "open" && p.openedAtMs.Some?
            && c.state.openedAt - epoch - 1_000_000 < p.openedAtMs.value * 1_000_000
            && p.openedAtMs.value * 1_000_000 < c.state.openedAt - epoch + 1_000_000)
  {
  }

  /** Reading it: any other name counts as closed, and an open circuit without an instant
      as opened now. */
  lemma RestoredForm(name: string, failures: nat, opens: nat, epoch: int, now: int)
    requires epoch <= now
    ensures var c := Restore(Persisted(name, failures, opens, None), epoch, now);
      && c.failures == failures && c.opens == opens
      && c.state == if name == "open" then Open(now) else if name == "half_open" then HalfOpen else Closed
  {
  }

  // ------------------------------------------------------ one endpoint's life

  /** An endpoint's entry in the map and in Redis. */
  datatype Node = Node(entry: Option<Circuit>, stored: Option<Stored>)

  const ABSENT: Node := Node(None, None)

  function Current(entry: Option<Circuit>): Circuit {
    if entry.Some? then entry.value else FRESH
  }

  /** SETEX with the ttl cooldown * 3; Redis refuses a ttl of 0. */
  function Save(cfg: Config, n: Node, epoch: int, now: int): Node
    requires epoch <= now && n.entry.Some?
  {
    if cfg.cooldownSecs == 0 then n
    else n.(stored := Some(Stored(Persist(n.entry.value, epoch, now), now + cfg.cooldownSecs * 3 * SECOND)))
  }

  /** One call on one endpoint: only real changes of the circuit are persisted. */
  function NodeStep(cfg: Config, n: Node, epoch: int, call: Call): Node
    requires epoch <= call.done
  {
    var c := Current(n.entry);
    match call
    case Allow(now, done) =>
      var c' := OnAllow(cfg, c, now);
      if c' == c then n.(entry := Some(c)) else Save(cfg, n.(entry := Some(c')), epoch, done)
    case Success(_, done) =>
      if n.entry.None? then n else Save(cfg, n.(entry := Some(OnSuccess(c))), epoch, done)
    case Failure(now, done) =>
      Save(cfg, n.(entry := Some(OnFailure(cfg, c, now))), epoch, done)
  }

  ghost predicate AfterEpoch(h: seq<Call>, epoch: int) {
    forall i :: 0 <= i < |h| ==> epoch <= h[i].now && epoch <= h[i].done
  }

  function NodeAfter(cfg: Config, epoch: int, h: seq<Call>): Node
    requires AfterEpoch(h, epoch)
  {
    if h == [] then ABSENT
    else NodeStep(cfg, NodeAfter(cfg, epoch, h[..|h| - 1]), epoch, h[|h| - 1])
  }

  /** Redis holds the current circuit, as persisted at some instant `at`. */
  predicate StoredAt(cfg: Config, n: Node, epoch: int, at: int) {
    && epoch <= at && n.entry.Some?
    && n.stored == Some(Stored(Persist(n.entry.value, epoch, at), at + cfg.cooldownSecs * 3 * SECOND))
    && (n.entry.value.state.Open? ==> epoch <= n.entry.value.state.openedAt <= at)
  }

  ghost predicate Mirrored(cfg: Config, n: Node, epoch: int, upTo: int) {
    (n.stored.None? && Current(n.entry) == FRESH)
    || exists at :: at <= upTo && StoredAt(cfg, n, epoch, at)
  }

  /** Redis holds the current circuit, or there is nothing to hold; with a cooldown of
      0 it never holds anything. */
  lemma {:induction false} RedisMirrors(cfg: Config, epoch: int, h: seq<Call>, upTo: int)
    requires AfterEpoch(h, epoch) && Sequential(h, epoch, upTo)
    ensures cfg.cooldownSecs >= 1 ==> Mirrored(cfg, NodeAfter(cfg, epoch, h), epoch, upTo)
    ensures cfg.cooldownSecs == 0 ==> NodeAfter(cfg, epoch, h).stored.None?
    ensures Current(NodeAfter(cfg, epoch, h).entry) == After(cfg, FRESH, h)
  {
    if h != [] {
      var last := h[|h| - 1];
      var before := h[..|h| - 1];
      RedisMirrors(cfg, epoch, before, last.now);
      var n := NodeAfter(cfg, epoch, before);
      var n' := NodeStep(cfg, n, epoch, last);
      var quiet := (last.Allow? && OnAllow(cfg, Current(n.entry), last.now) == Current(n.entry))
                   || (last.Success? && n.entry.None?);
      if cfg.cooldownSecs >= 1 && !quiet {
        assert StoredAt(cfg, n', epoch, last.done);
      } else if cfg.cooldownSecs >= 1 && (n.stored.Some? || Current(n.entry) != FRESH) {
        var at :| at <= last.now && StoredAt(cfg, n, epoch, at);
        assert StoredAt(cfg, n', epoch, at);
      }
    }
  }

  /** What a new process finds for the endpoint: nothing once the key expired. */
  function Reload(n: Node, epoch: int, now: int): Option<Circuit>
    requires epoch <= now
  {
    if n.stored.Some? && now < n.stored.value.expiresAt
    then Some(Restore(n.stored.value.value, epoch, now))
    else None
  }

  // ------------------------------------------------------------- the restart

  /** While the key lives, a restart keeps the streak, the open count and the
      state, up to the rounding of the opening instant. */
  lemma RestartKeepsState(cfg: Config, epoch: int, h: seq<Call>, restart: int)
    requires AfterEpoch(h, epoch) && Sequential(h, epoch, restart) && epoch <= restart
    ensures var n := NodeAfter(cfg, epoch, h);
      var c := After(cfg, FRESH, h);
      Reload(n, epoch, restart).Some? ==>
        var r := Reload(n, epoch, restart).value;
        && r.failures == c.failures && r.opens == c.opens
        && (!c.state.Open? ==> r.state == c.state)
        && (c.state.Open? ==>
              r.state.Open? && c.state.openedAt - 1_000_000 < r.state.openedAt < c.state.openedAt + 2_000_000)
  {
    RedisMirrors(cfg, epoch, h, restart);
    var n := NodeAfter(cfg, epoch, h);
    if Reload(n, epoch, restart).Some? {
      var at :| at <= restart && StoredAt(cfg, n, epoch, at);
      RestoreIsClose(n.entry.value, epoch, at, restart);
    }
  }

  /** Inside the rounding margin of the end of an open circuit's cooldown. */
  predicate NearBoundary(cfg: Config, c: Circuit, now: int) {
    c.state.Open?
    && c.state.openedAt + cfg.cooldownSecs * 1_000_000_000 - 1_000_000 < now
    && now < c.state.openedAt + cfg.cooldownSecs * 1_000_000_000 + 2_000_000
  }

  /** A restart does not change the gate: right after it, the answer is that of
      the process that never stopped, also when the key has already expired. */
  lemma RestartKeepsGate(cfg: Config, epoch: int, h: seq<Call>, restart: int, now: int)
    requires AfterEpoch(h, epoch) && Sequential(h, epoch, restart) && epoch <= restart <= now
    requires Restored(cfg, epoch, h, restart).Some? ==> !NearBoundary(cfg, After(cfg, FRESH, h), now)
    ensures Ready(cfg, Current(Restored(cfg, epoch, h, restart)), now)
            <==> Ready(cfg, After(cfg, FRESH, h), now)
  {
    RestartKeepsState(cfg, epoch, h, restart);
    if Restored(cfg, epoch, h, restart).None? {
      ExpiredIsReady(cfg, epoch, h, restart, now);
    }
  }

  /** What a process that starts at `restart` finds. */
  function Restored(cfg: Config, epoch: int, h: seq<Call>, restart: int): Option<Circuit>
    requires AfterEpoch(h, epoch) && epoch <= restart
  {
    Reload(NodeAfter(cfg, epoch, h), epoch, restart)
  }

  /** When there is no key any more, the cooldown is over too. */
  lemma ExpiredIsReady(cfg: Config, epoch: int, h: seq<Call>, restart: int, now: int)
    requires AfterEpoch(h, epoch) && Sequential(h, epoch, restart) && epoch <= restart <= now
    requires Restored(cfg, epoch, h, restart).None?
    ensures Ready(cfg, After(cfg, FRESH, h), now)
  {
    var n := NodeAfter(cfg, epoch, h);
    RedisMirrors(cfg, epoch, h, restart);
    if n.stored.Some? {
      var at :| at <= restart && StoredAt(cfg, n, epoch, at);
      assert at + cfg.cooldownSecs * 3 * SECOND <= restart;
    }
  }

  /** Until the next recorded failure, every answer after a restart is the answer
      without it, outside the rounding margin. */
  lemma RestartTransparent(cfg: Config, epoch: int, h: seq<Call>, restart: int, later: seq<Call>, now: int)
    requires AfterEpoch(h, epoch) && Sequential(h, epoch, restart) && epoch <= restart <= now
    requires FailureFree(later) && Sequential(later, restart, now)
    requires Restored(cfg, epoch, h, restart).Some? ==> !NearBoundary(cfg, After(cfg, FRESH, h), now)
    ensures Ready(cfg, After(cfg, Current(Restored(cfg, epoch, h, restart)), later), now)
            <==> Ready(cfg, After(cfg, After(cfg, FRESH, h), later), now)
  {
    RestartKeepsGate(cfg, epoch, h, restart, now);
    FailureFreeAnswers(cfg, After(cfg, FRESH, h), later, restart, now);
    FailureFreeAnswers(cfg, Current(Restored(cfg, epoch, h, restart)), later, restart, now);
  }

  // While the key lives: the next recorded call heals what rounding did.

  predicate Quiet(h: seq<Call>) {
    forall i :: 0 <= i < |h| ==> h[i].Allow?
  }

  /** Two circuits that differ in the opening instant at most. */
  predicate Alike(cfg: Config, a: Circuit, b: Circuit) {
    && a.failures == b.failures && a.opens == b.opens
    && (a.state == b.state || (a.state != Closed && b.state != Closed && a.failures >= Threshold(cfg)))
  }

  lemma {:induction false} RecordingHeals(cfg: Config, a: Circuit, b: Circuit, later: seq<Call>)
    requires Alike(cfg, a, b)
    ensures Alike(cfg, After(cfg, a, later), After(cfg, b, later))
    ensures !Quiet(later) ==> After(cfg, a, later) == After(cfg, b, later)
  {
    if later != [] {
      var before := later[..|later| - 1];
      RecordingHeals(cfg, a, b, before);
      if Quiet(before) && !Quiet(later) {
        assert !later[|later| - 1].Allow? by {
          assert forall i :: 0 <= i < |before| ==> before[i] == later[i];
        }
      }
    }
  }

  /** While the key lives a restart is transparent for good: from the first recorded
      success or failure on, the circuit is the very one of the process that never
      stopped, without any margin. */
  lemma RestartWhileLive(cfg: Config, epoch: int, h: seq<Call>, restart: int, later: seq<Call>)
    requires AfterEpoch(h, epoch) && Sequential(h, epoch, restart) && epoch <= restart
    requires Restored(cfg, epoch, h, restart).Some? && !Quiet(later)
    ensures After(cfg, Current(Restored(cfg, epoch, h, restart)), later)
            == After(cfg, After(cfg, FRESH, h), later)
  {
    RestartKeepsState(cfg, epoch, h, restart);
    HistoryInvariants(cfg, h);
    RecordingHeals(cfg, Current(Restored(cfg, epoch, h, restart)), After(cfg, FRESH, h), later);
  }

  // After the expiry: the streak is forgotten.

  lemma {:induction false} AfterConcat(cfg: Config, c: Circuit, h: seq<Call>, later: seq<Call>)
    ensures After(cfg, c, h + later) == After(cfg, After(cfg, c, h), later)
  {
    if later == [] {
      assert h + later == h;
    } else {
      assert (h + later)[..|h + later| - 1] == h + later[..|later| - 1];
      AfterConcat(cfg, c, h, later[..|later| - 1]);
    }
  }

  /** Runs and last failures of a history continued. */
  lemma {:induction false} RunsConcat(h: seq<Call>, later: seq<Call>, from: int, mid: int, now: int)
    requires Sequential(h, from, mid) && Sequential(later, mid, now)
    ensures Sequential(h + later, from, now)
    ensures LastFailure(h + later) == if LastFailure(later).Some? then LastFailure(later) else LastFailure(h)
    ensures TrailingRun(later) <= TrailingRun(h + later)
  {
    if later == [] {
      assert h + later == h;
      SequentialLater(h, from, mid, now);
    } else {
      var last := later[|later| - 1];
      assert (h + later)[..|h + later| - 1] == h + later[..|later| - 1];
      RunsConcat(h, later[..|later| - 1], from, mid, last.now);
    }
  }

  lemma SequentialLater(h: seq<Call>, from: int, a: int, b: int)
    requires Sequential(h, from, a) && a <= b
    ensures Sequential(h, from, b)
  {
  }

  lemma {:induction false} NoFailureNoRun(h: seq<Call>)
    ensures LastFailure(h).None? <==> FailureFree(h)
    ensures FailureFree(h) ==> TrailingRun(h) == 0
  {
    if h != [] {
      var before := h[..|h| - 1];
      NoFailureNoRun(before);
      assert FailureFree(h) <==> FailureFree(before) && !h[|h| - 1].Failure? by {
        assert forall i :: 0 <= i < |before| ==> before[i] == h[i];
      }
    }
  }

  /** The failures recorded since the restart are below the threshold, with the ones
      before it they are not, and the last one's cooldown is running. */
  predicate StreakMatters(cfg: Config, h: seq<Call>, later: seq<Call>, now: int) {
    && LastFailure(later).Some?
    && TrailingRun(later) < Threshold(cfg) <= TrailingRun(h + later)
    && now < LastFailure(later).value + cfg.cooldownSecs * 1_000_000_000
  }

  /** After the expiry the answers agree exactly where the forgotten streak does not
      matter, over every continuation. */
  lemma RestartAfterExpiry(cfg: Config, epoch: int, h: seq<Call>, restart: int, later: seq<Call>, now: int)
    requires AfterEpoch(h, epoch) && Sequential(h, epoch, restart) && epoch <= restart <= now
    requires Sequential(later, restart, now) && Restored(cfg, epoch, h, restart).None?
    ensures (Ready(cfg, After(cfg, FRESH, later), now)
             <==> Ready(cfg, After(cfg, After(cfg, FRESH, h), later), now))
            <==> !StreakMatters(cfg, h, later, now)
  {
    NoFailureNoRun(later);
    if LastFailure(later).Some? {
      RunsConcat(h, later, epoch, restart, now);
      AfterConcat(cfg, FRESH, h, later);
      AllowFormula(cfg, h + later, epoch, now);
      AllowFormula(cfg, later, restart, now);
    } else {
      RestartTransparent(cfg, epoch, h, restart, later, now);
    }
  }

  /** Restart transparency, exactly: for every continuation, outside the rounding margin
      of a circuit that was reloaded open and has recorded nothing since, the answers
      with and without the restart agree if and only if the key was still there or the
      forgotten streak does not matter. */
  lemma RestartExactly(cfg: Config, epoch: int, h: seq<Call>, restart: int, later: seq<Call>, now: int)
    requires AfterEpoch(h, epoch) && Sequential(h, epoch, restart) && epoch <= restart <= now
    requires Sequential(later, restart, now)
    requires Restored(cfg, epoch, h, restart).Some? && Quiet(later) ==> !NearBoundary(cfg, After(cfg, FRESH, h), now)
    ensures (Ready(cfg, After(cfg, Current(Restored(cfg, epoch, h, restart)), later), now)
             <==> Ready(cfg, After(cfg, After(cfg, FRESH, h), later), now))
            <==> Restored(cfg, epoch, h, restart).Some? || !StreakMatters(cfg, h, later, now)
  {
    if Restored(cfg, epoch, h, restart).None? {
      RestartAfterExpiry(cfg, epoch, h, restart, later, now);
    } else if Quiet(later) {
      RestartTransparent(cfg, epoch, h, restart, later, now);
    } else {
      RestartWhileLive(cfg, epoch, h, restart, later);
    }
  }

  /** For the first failure after the expiry, at f: until its cooldown is over, the
      answers agree exactly if one failure opens the circuit anyway, or would not have
      opened the old one either. */
  lemma FirstFailureAfterExpiry(cfg: Config, epoch: int, h: seq<Call>, restart: int, quiet: seq<Call>, f: Call,
                                now: int)
    requires AfterEpoch(h, epoch) && Sequential(h, epoch, restart) && epoch <= restart <= now
    requires Quiet(quiet) && f.Failure? && Sequential(quiet + [f], restart, now)
    requires Restored(cfg, epoch, h, restart).None? && now < f.now + cfg.cooldownSecs * 1_000_000_000
    ensures (Ready(cfg, After(cfg, FRESH, quiet + [f]), now)
             <==> Ready(cfg, After(cfg, After(cfg, FRESH, h), quiet + [f]), now))
            <==> cfg.threshold <= 1 || TrailingRun(h) + 1 < cfg.threshold
  {
    RestartAfterExpiry(cfg, epoch, h, restart, quiet + [f], now);
    assert (quiet + [f])[..|quiet|] == quiet;
    NoFailureNoRun(quiet);
    QuietKeepsRun(h, quiet);
    assert (h + (quiet + [f]))[..|h| + |quiet|] == h + quiet;
  }

  lemma {:induction false} QuietKeepsRun(h: seq<Call>, quiet: seq<Call>)
    requires Quiet(quiet)
    ensures TrailingRun(h + quiet) == TrailingRun(h)
  {
    if quiet == [] {
      assert h + quiet == h;
    } else {
      assert (h + quiet)[..|h + quiet| - 1] == h + quiet[..|quiet| - 1];
      QuietKeepsRun(h, quiet[..|quiet| - 1]);
    }
  }

  /** An input where it matters: threshold 2, cooldown 1 s, two failures at 0, restart
      at 3 s, one more failure. */
  lemma ExpiryForgetsStreak()
    ensures var cfg := Config(2, 1);
      var h := [Failure(0, 0), Failure(0, 0)];
      var again := [Failure(3 * SECOND, 3 * SECOND)];
      && AfterEpoch(h, 0) && Restored(cfg, 0, h, 3 * SECOND) == None
      && StreakMatters(cfg, h, again, 3 * SECOND)
      && !Ready(cfg, After(cfg, After(cfg, FRESH, h), again), 3 * SECOND)
      && Ready(cfg, After(cfg, FRESH, again), 3 * SECOND)
  {
    var cfg := Config(2, 1);
    var h := [Failure(0, 0), Failure(0, 0)];
    var h1 := [Failure(0, 0)];
    var again := [Failure(3 * SECOND, 3 * SECOND)];
    assert h[..1] == h1 && h1[..0] == [] && again[..0] == [];
    assert After(cfg, FRESH, h1) == Circuit(Closed, 1, 0);
    assert After(cfg, FRESH, h) == Circuit(Open(0), 2, 1);
    assert NodeAfter(cfg, 0, h1).entry == Some(Circuit(Closed, 1, 0));
    assert NodeAfter(cfg, 0, h).stored.value.expiresAt == 3 * SECOND;
    var both := h + again;
    assert both[..2] == h && TrailingRun(h1) == 1 && TrailingRun(h) == 2;
  }

  // ------------------------------------------------------------ the shared map

  /** How a process runs: its configuration, whether it writes to Redis, and whether
      it began with circuits from there. */
  datatype Process = Process(cfg: Config, epoch: int, persistent: bool, loaded: bool)

  /** A node is what its history makes of the initial circuit; and Redis mirrors it. */
  ghost predicate Fits(p: Process, initial: Circuit, n: Node, h: seq<Call>, clock: int) {
    && Sequential(h, p.epoch, clock) && AfterEpoch(h, p.epoch)
    && Current(n.entry) == After(p.cfg, initial, h)
    && (p.persistent && !p.loaded ==> n == NodeAfter(p.cfg, p.epoch, h))
  }

  /** What a call leaves for an endpoint: without Redis, only the entry counts. */
  ghost predicate Stepped(p: Process, before: Node, after: Node, call: Call)
    requires p.epoch <= call.done
  {
    after == if p.persistent then NodeStep(p.cfg, before, p.epoch, call)
             else Node(NodeStep(p.cfg, before, p.epoch, call).entry, before.stored)
  }

  lemma FitsLater(p: Process, initial: Circuit, n: Node, h: seq<Call>, clock: int, later: int)
    requires Fits(p, initial, n, h, clock) && clock <= later
    ensures Fits(p, initial, n, h, later)
  {
  }

  lemma FitsCall(p: Process, initial: Circuit, n: Node, h: seq<Call>, clock: int, call: Call, after: Node)
    requires Fits(p, initial, n, h, clock) && p.epoch <= clock <= call.now <= call.done
    requires Stepped(p, n, after, call)
    ensures Fits(p, initial, after, h + [call], call.done)
  {
    FitsLater(p, initial, n, h, clock, call.now);
    assert (h + [call])[..|h|] == h;
  }

  /** In a process that restored nothing for the endpoint, the answer is that of the
      stateless formula on the endpoint's own history. */
  lemma FitsFormula(p: Process, n: Node, h: seq<Call>, clock: int, now: int)
    requires Fits(p, FRESH, n, h, clock) && clock <= now
    ensures Ready(p.cfg, Current(n.entry), now) <==> Admits(p.cfg, h, now)
  {
    FitsLater(p, FRESH, n, h, clock, now);
    AllowFormula(p.cfg, h, p.epoch, now);
  }

  /** The manager: one map behind one lock, Redis when it is configured, and the
      history of every endpoint since the process started. */
  class Manager {
    const cfg: Config
    const persistent: bool
    const epoch: int
    var circuits: map<Endpoint, Circuit>
    var redis: map<Endpoint, Stored>
    ghost var histories: map<Endpoint, seq<Call>>
    ghost var restored: map<Endpoint, Circuit>
    ghost var loaded: bool
    ghost var clock: int

    ghost function View(e: Endpoint): Node
      reads this
    {
      Node(if e in circuits then Some(circuits[e]) else None, if e in redis then Some(redis[e]) else None)
    }

    ghost function History(e: Endpoint): seq<Call>
      reads this
    {
      if e in histories then histories[e] else []
    }

    /** The circuit that the process started with. */
    ghost function Initial(e: Endpoint): Circuit
      reads this
    {
      if e in restored then restored[e] else FRESH
    }

    /** However calls for different endpoints interleave, each circuit is what the
        endpoint's own calls make of its initial one; and Redis mirrors them. */
    ghost predicate Valid()
      reads this
    {
      epoch <= clock && forall e :: Follows(e)
    }

    ghost predicate Follows(e: Endpoint)
      reads this
    {
      Fits(Here(), Initial(e), View(e), History(e), clock)
    }

    ghost function Here(): Process
      reads this
    {
      Process(cfg, epoch, persistent, loaded)
    }

    constructor (cfg: Config, persistent: bool, epoch: int)
      ensures Valid() && this.cfg == cfg && this.persistent == persistent && this.epoch == epoch == clock
      ensures forall e :: View(e) == ABSENT && History(e) == [] && Initial(e) == FRESH
    {
      this.cfg, this.persistent, this.epoch := cfg, persistent, epoch;
      circuits, redis := map[], map[];
      histories, restored, loaded, clock := map[], map[], false, epoch;
    }

    method PersistCircuit(e: Endpoint, c: Circuit, now: int)
      requires epoch <= now
      modifies this`redis
      ensures redis == if persistent && cfg.cooldownSecs > 0
                       then old(redis)[e := Stored(Persist(c, epoch, now), now + cfg.cooldownSecs * 3_000_000_000)]
                       else old(redis)
    {
      if persistent {
        var ttl := cfg.cooldownSecs * 3;
        if ttl > 0 {
          redis := redis[e := Stored(Persist(c, epoch, now), now + ttl * SECOND)];
        }
      }
    }

    /** The history of e grows by the call that has just changed its node. */
    ghost method Remember(e: Endpoint, call: Call, before: Node)
      requires epoch <= clock <= call.now <= call.done
      requires forall f :: f != e ==> Follows(f)
      requires Fits(Here(), Initial(e), before, History(e), clock) && Stepped(Here(), before, View(e), call)
      modifies this`histories, this`clock
      ensures Valid() && clock == call.done && History(e) == old(History(e)) + [call]
      ensures forall f :: f != e ==> History(f) == old(History(f))
    {
      FitsCall(Here(), Initial(e), before, History(e), clock, call, View(e));
      Advance(e, History(e) + [call], call.done);
    }

    ghost method Advance(e: Endpoint, h: seq<Call>, now: int)
      requires epoch <= clock <= now && Fits(Here(), Initial(e), View(e), h, now)
      requires forall f :: f != e ==> Follows(f)
      modifies this`histories, this`clock
      ensures Valid() && clock == now && History(e) == h
      ensures forall f :: f != e ==> History(f) == old(History(f))
    {
      histories := histories[e := h];
      clock := now;
      AllFollow(e);
    }

    /** Endpoints without a new call still follow, at the later instant. */
    twostate lemma AllFollow(e: Endpoint)
      requires (forall f :: f != e ==> old(Follows(f))) && Follows(e) && old(clock) <= clock
      requires circuits == old(circuits) && redis == old(redis)
      requires restored == old(restored) && loaded == old(loaded)
      requires forall f :: f != e ==> History(f) == old(History(f))
      ensures forall f :: Follows(f)
    {
      forall f | f != e ensures Follows(f) {
        assert old(Follows(f));
        FitsLater(Here(), Initial(f), View(f), History(f), old(clock), clock);
      }
    }

    /** Endpoints whose nodes did not change still follow. */
    twostate lemma OthersFollow(e: Endpoint)
      requires old(Valid()) && forall f :: f != e ==> View(f) == old(View(f))
      requires histories == old(histories) && restored == old(restored) && loaded == old(loaded) && clock == old(clock)
      ensures forall f :: f != e ==> Follows(f)
    {
      forall f | f != e ensures Follows(f) {
        assert old(Follows(f));
      }
    }

    /** The update of allow_request. */
    method Allow(e: Endpoint, now: int, done: int) returns (allowed: bool)
      requires epoch <= now <= done
      modifies this`circuits, this`redis
      ensures allowed == Ready(cfg, Current(old(View(e)).entry), now)
      ensures Stepped(Here(), old(View(e)), View(e), CircuitBreaker.Allow(now, done))
      ensures forall f :: f != e ==> View(f) == old(View(f))
    {
      if e !in circuits {
        circuits := circuits[e := FRESH];
      }
      var circuit := circuits[e];
      match circuit.state
      case Closed => allowed := true;
      case HalfOpen => allowed := true;
      case Open(openedAt) =>
        if ElapsedSecs(openedAt, now) >= cfg.cooldownSecs {
          circuits := circuits[e := circuit.(state := HalfOpen)];
          PersistCircuit(e, circuits[e], done);
          allowed := true;
        } else {
          allowed := false;
        }
    }

    /** The update of record_success. */
    method Succeed(e: Endpoint, now: int, done: int)
      requires epoch <= now <= done
      modifies this`circuits, this`redis
      ensures Stepped(Here(), old(View(e)), View(e), Success(now, done))
      ensures forall f :: f != e ==> View(f) == old(View(f))
    {
      if e in circuits {
        circuits := circuits[e := circuits[e].(state := Closed, failures := 0)];
        PersistCircuit(e, circuits[e], done);
      }
    }

    /** The update of record_failure. */
    method Fail(e: Endpoint, now: int, done: int)
      requires epoch <= now <= done
      modifies this`circuits, this`redis
      ensures Stepped(Here(), old(View(e)), View(e), Failure(now, done))
      ensures forall f :: f != e ==> View(f) == old(View(f))
    {
      if e !in circuits {
        circuits := circuits[e := FRESH];
      }
      var circuit := circuits[e].(failures := circuits[e].failures + 1);
      if circuit.failures >= cfg.threshold {
        circuit := circuit.(state := Open(now), opens := circuit.opens + 1);
      }
      circuits := circuits[e := circuit];
      PersistCircuit(e, circuit, done);
    }

    method AllowRequest(e: Endpoint, now: int, done: int) returns (allowed: bool)
      requires Valid() && clock <= now <= done
      modifies this`circuits, this`redis, this`histories, this`clock
      ensures Valid() && clock == done
      ensures Initial(e) == FRESH ==> (allowed <==> Admits(cfg, old(History(e)), now))
      ensures allowed == Ready(cfg, Current(old(View(e)).entry), now)
      ensures Stepped(Here(), old(View(e)), View(e), CircuitBreaker.Allow(now, done))
      ensures History(e) == old(History(e)) + [CircuitBreaker.Allow(now, done)]
      ensures forall f :: f != e ==> View(f) == old(View(f)) && History(f) == old(History(f))
    {
      AnswersByFormula(e, now);
      assert Follows(e);
      allowed := Allow(e, now, done);
      OthersFollow(e);
      Remember(e, CircuitBreaker.Allow(now, done), old(View(e)));
    }

    /** An endpoint that started fresh answers by its own history. */
    lemma AnswersByFormula(e: Endpoint, now: int)
      requires Valid() && clock <= now
      ensures Initial(e) == FRESH ==> (Ready(cfg, Current(View(e).entry), now) <==> Admits(cfg, History(e), now))
    {
      assert Follows(e);
      if Initial(e) == FRESH {
        FitsFormula(Here(), View(e), History(e), clock, now);
      }
    }

    method RecordSuccess(e: Endpoint, now: int, done: int)
      requires Valid() && clock <= now <= done
      modifies this`circuits, this`redis, this`histories, this`clock
      ensures Valid() && clock == done
      ensures Stepped(Here(), old(View(e)), View(e), Success(now, done))
      ensures History(e) == old(History(e)) + [Success(now, done)]
      ensures forall f :: f != e ==> View(f) == old(View(f)) && History(f) == old(History(f))
    {
      assert Follows(e);
      Succeed(e, now, done);
      OthersFollow(e);
      Remember(e, Success(now, done), old(View(e)));
    }

    method RecordFailure(e: Endpoint, now: int, done: int)
      requires Valid() && clock <= now <= done
      modifies this`circuits, this`redis, this`histories, this`clock
      ensures Valid() && clock == done
      ensures Stepped(Here(), old(View(e)), View(e), Failure(now, done))
      ensures History(e) == old(History(e)) + [Failure(now, done)]
      ensures forall f :: f != e ==> View(f) == old(View(f)) && History(f) == old(History(f))
    {
      assert Follows(e);
      Fail(e, now, done);
      OthersFollow(e);
      Remember(e, Failure(now, done), old(View(e)));
    }

    /** load_from_redis in a new process, at `now`: one GET per key found. */
    method LoadFromRedis(stored: map<Endpoint, Stored>, now: int)
      requires epoch <= now
      modifies this
      ensures Valid() && clock == now && redis == stored && restored == circuits && loaded
      ensures forall e :: History(e) == []
      ensures forall e :: View(e).entry ==
                          Reload(Node(None, if e in stored then Some(stored[e]) else None), epoch, now)
    {
      redis := stored;
      circuits := map[];
      var keys := stored.Keys;
      while keys != {}
        invariant keys <= stored.Keys && redis == stored
        invariant circuits.Keys <= stored.Keys - keys
        invariant forall e :: e in stored && e !in keys ==>
                    View(e).entry == Reload(Node(None, Some(stored[e])), epoch, now)
        decreases |keys|
      {
        var e :| e in keys;
        keys := keys - {e};
        if now < stored[e].expiresAt {
          circuits := circuits[e := Restore(stored[e].value, epoch, now)];
        }
      }
      histories, restored, loaded, clock := map[], circuits, true, now;
    }
  }
}
