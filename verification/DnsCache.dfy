// The bounded DNS cache: time-to-live, eviction of the oldest entry. Which entry
// goes among equally old ones is left open, as it is by HashMap iteration.

module DnsCache {
  import opened Options

  type Host = string
  type Ip = nat

  datatype Entry = Entry(ip: Ip, cachedAt: nat)

  type Cache = map<Host, Entry>

  /** cached_at.elapsed() < ttl. */
  predicate Young(ttl: nat, e: Entry, now: nat) {
    (if now < e.cachedAt then 0 else now - e.cachedAt) < ttl
  }

  function Lookup(ttl: nat, cache: Cache, host: Host, now: nat): Option<Ip> {
    if host in cache && Young(ttl, cache[host], now) then Some(cache[host].ip) else None
  }

  function Kept(ttl: nat, cache: Cache, now: nat): Cache {
    map h | h in cache && Young(ttl, cache[h], now) :: cache[h]
  }

  /** A lookup hits exactly while the entry is younger than the time to live. */
  lemma LookupHits(ttl: nat, cache: Cache, host: Host, now: nat)
    ensures Lookup(ttl, cache, host, now)
            == if host in cache && ttl > 0 && now < cache[host].cachedAt + ttl then Some(cache[host].ip) else None
  {
  }

  /** And a clean-up keeps exactly those entries. */
  lemma CleanupKeeps(ttl: nat, cache: Cache, now: nat)
    ensures forall h :: h in Kept(ttl, cache, now) <==> h in cache && ttl > 0 && now < cache[h].cachedAt + ttl
    ensures forall h :: h in Kept(ttl, cache, now) ==> Kept(ttl, cache, now)[h] == cache[h]
  {
  }

  predicate Oldest(cache: Cache, host: Host) {
    host in cache && forall h :: h in cache ==> cache[host].cachedAt <= cache[h].cachedAt
  }

  /** What insert may leave: with a full cache, one oldest entry goes first, even
      when the host is already cached. */
  ghost predicate Inserted(limit: nat, before: Cache, host: Host, e: Entry, after: Cache) {
    if |before| < limit || before == map[] then after == before[host := e]
    else exists victim :: Oldest(before, victim) && after == (before - {victim})[host := e]
  }

  // ----------------------------------------------------------------- history

  datatype Put = Put(host: Host, ip: Ip, at: nat)

  ghost predicate Ordered(h: seq<Put>, now: nat) {
    && (forall i, j :: 0 <= i < j < |h| ==> h[i].at <= h[j].at)
    && (forall i :: 0 <= i < |h| ==> h[i].at <= now)
  }

  /** The latest insert of a host. */
  function Latest(h: seq<Put>, host: Host): Option<Put> {
    if h == [] then None
    else if h[|h| - 1].host == host then Some(h[|h| - 1])
    else Latest(h[..|h| - 1], host)
  }

  lemma LatestStep(h: seq<Put>, i: Put, host: Host)
    ensures Latest(h + [i], host) == if i.host == host then Some(i) else Latest(h, host)
  {
    assert (h + [i])[..|h|] == h;
  }

  lemma {:induction false} LatestInPast(h: seq<Put>, host: Host, now: nat)
    requires Ordered(h, now)
    ensures Latest(h, host).Some? ==> Latest(h, host).value.at <= now && Latest(h, host).value.host == host
  {
    if h != [] && h[|h| - 1].host != host {
      LatestInPast(h[..|h| - 1], host, now);
    }
  }

  /** The cache agrees with its history: every entry is the latest insert of its
      host, the size is bounded, and a host whose latest insert is strictly later
      than a cached one's is cached too. */
  ghost predicate Agrees(limit: nat, ttl: nat, cache: Cache, h: seq<Put>, now: nat) {
    && Ordered(h, now)
    && |cache| <= (if limit == 0 then 1 else limit)
    && (forall host :: host in cache ==> Latest(h, host) == Some(Put(host, cache[host].ip, cache[host].cachedAt)))
    && UpwardClosed(cache, h)
  }

  ghost predicate UpwardClosed(cache: Cache, h: seq<Put>) {
    forall a, b :: a in cache && Latest(h, b).Some? && Latest(h, b).value.at > cache[a].cachedAt ==> b in cache
  }

  lemma EvictKeepsClosed(limit: nat, ttl: nat, cache: Cache, h: seq<Put>, now: nat, victim: Host)
    requires Agrees(limit, ttl, cache, h, now) && Oldest(cache, victim)
    ensures UpwardClosed(cache - {victim}, h)
  {
    var after := cache - {victim};
    forall a, b | a in after && Latest(h, b).Some? && Latest(h, b).value.at > after[a].cachedAt
      ensures b in after
    {
      assert b in cache && cache[victim].cachedAt <= cache[a].cachedAt;
      assert Latest(h, b) == Some(Put(b, cache[b].ip, cache[b].cachedAt));
    }
  }

  lemma PutKeepsClosed(cache: Cache, h: seq<Put>, now: nat, i: Put)
    requires UpwardClosed(cache, h) && Ordered(h, now) && now <= i.at
    ensures UpwardClosed(cache[i.host := Entry(i.ip, i.at)], h + [i])
  {
    var after := cache[i.host := Entry(i.ip, i.at)];
    forall a, b | a in after && Latest(h + [i], b).Some? && Latest(h + [i], b).value.at > after[a].cachedAt
      ensures b in after
    {
      LatestStep(h, i, b);
      LatestInPast(h, b, now);
    }
  }

  lemma InsertAgrees(limit: nat, ttl: nat, cache: Cache, h: seq<Put>, now: nat, i: Put, after: Cache)
    requires Agrees(limit, ttl, cache, h, now) && now <= i.at
    requires Inserted(limit, cache, i.host, Entry(i.ip, i.at), after)
    ensures Agrees(limit, ttl, after, h + [i], i.at)
  {
    var base := cache;
    if !(|cache| < limit || cache == map[]) {
      var victim :| Oldest(cache, victim) && after == (cache - {victim})[i.host := Entry(i.ip, i.at)];
      EvictKeepsClosed(limit, ttl, cache, h, now, victim);
      base := cache - {victim};
      assert |base| == |cache| - 1;
    }
    PutKeepsClosed(base, h, now, i);
    forall host | host in after
      ensures Latest(h + [i], host) == Some(Put(host, after[host].ip, after[host].cachedAt))
    {
      LatestStep(h, i, host);
    }
    assert |after| <= |base| + 1;
  }

  lemma FewerKept(ttl: nat, cache: Cache, now: nat)
    ensures |Kept(ttl, cache, now)| <= |cache|
  {
    SubsetSize(Kept(ttl, cache, now).Keys, cache.Keys);
  }

  lemma {:induction false} SubsetSize<T>(a: set<T>, b: set<T>)
    requires a <= b
    ensures |a| <= |b|
    decreases |a|
  {
    if a != {} {
      var x :| x in a;
      SubsetSize(a - {x}, b - {x});
    }
  }

  lemma CleanupAgrees(limit: nat, ttl: nat, cache: Cache, h: seq<Put>, before: nat, now: nat)
    requires Agrees(limit, ttl, cache, h, before) && before <= now
    ensures Agrees(limit, ttl, Kept(ttl, cache, now), h, now)
  {
    FewerKept(ttl, cache, now);
    var after := Kept(ttl, cache, now);
    forall a, b | a in after && Latest(h, b).Some? && Latest(h, b).value.at > after[a].cachedAt
      ensures b in after
    {
      assert b in cache;
      assert Latest(h, b) == Some(Put(b, cache[b].ip, cache[b].cachedAt));
    }
  }

  // ------------------------------------------------- cleanup cannot be observed

  /** `clean` is `full` without some entries that are expired at `now` and all
      older than what remains. */
  ghost predicate HidesExpired(ttl: nat, full: Cache, clean: Cache, now: nat) {
    && (forall h :: h in clean ==> h in full && clean[h] == full[h])
    && (forall h :: h in full && h !in clean ==> !Young(ttl, full[h], now))
    && (forall h, k :: h in full && h !in clean && k in clean ==> full[h].cachedAt < clean[k].cachedAt)
  }

  lemma CleanupHides(ttl: nat, cache: Cache, now: nat)
    ensures HidesExpired(ttl, cache, Kept(ttl, cache, now), now)
  {
  }

  lemma HiddenSameAnswers(ttl: nat, full: Cache, clean: Cache, now: nat, host: Host, later: nat)
    requires HidesExpired(ttl, full, clean, now) && now <= later
    ensures Lookup(ttl, full, host, later) == Lookup(ttl, clean, host, later)
  {
  }

  /** A proper sub-cache is smaller, so with entries hidden it is not full. */
  lemma HiddenIsSmaller(full: Cache, clean: Cache, h: Host)
    requires (forall k :: k in clean ==> k in full) && h in full && h !in clean
    ensures |clean| < |full|
  {
    SubsetSize(clean.Keys, full.Keys - {h});
  }

  lemma {:induction false} OldestExists(cache: Cache) returns (host: Host)
    requires cache != map[]
    ensures Oldest(cache, host)
    decreases |cache|
  {
    var h :| h in cache;
    var rest := cache - {h};
    if rest == map[] {
      assert forall k :: k in cache ==> k == h by {
        forall k | k in cache ensures k == h {
          assert k != h ==> k in rest;
        }
      }
      host := h;
    } else {
      assert |rest| < |cache| by {
        HiddenIsSmaller(cache, rest, h);
      }
      var k := OldestExists(rest);
      host := if cache[h].cachedAt <= rest[k].cachedAt then h else k;
      forall j | j in cache ensures cache[host].cachedAt <= cache[j].cachedAt {
        assert j != h ==> j in rest;
      }
    }
  }

  lemma SomeInsert(limit: nat, before: Cache, host: Host, e: Entry) returns (after: Cache)
    ensures Inserted(limit, before, host, e, after)
  {
    if |before| < limit || before == map[] {
      after := before[host := e];
    } else {
      var victim := OldestExists(before);
      after := (before - {victim})[host := e];
    }
  }

  /** With an entry hidden, whatever a full cache evicts is hidden. */
  lemma OldestIsHidden(ttl: nat, full: Cache, clean: Cache, now: nat, victim: Host)
    requires HidesExpired(ttl, full, clean, now) && Oldest(full, victim) && full.Keys - clean.Keys != {}
    ensures victim !in clean
  {
    var hidden :| hidden in full.Keys - clean.Keys;
    assert full[victim].cachedAt <= full[hidden].cachedAt;
  }

  lemma HidesAfterPut(ttl: nat, full: Cache, clean: Cache, now: nat, host: Host, e: Entry, full': Cache)
    requires HidesExpired(ttl, full, clean, now)
    requires forall h :: h in full ==> full[h].cachedAt <= e.cachedAt
    requires host in full' && full'[host] == e
    requires forall h :: h in full' && h != host ==> h in full && full'[h] == full[h]
    requires forall h :: h in clean ==> h in full'
    requires forall h :: h in full && h !in clean ==> full[h].cachedAt < e.cachedAt
    ensures HidesExpired(ttl, full', clean[host := e], now)
  {
  }

  predicate Bounded(limit: nat, cache: Cache) {
    |cache| <= if limit == 0 then 1 else limit
  }

  lemma InsertStaysBounded(limit: nat, before: Cache, host: Host, e: Entry, after: Cache)
    requires Bounded(limit, before) && Inserted(limit, before, host, e, after)
    ensures Bounded(limit, after)
    ensures forall h :: h in after && h != host ==> h in before && after[h] == before[h]
    ensures host in after && after[host] == e
  {
    if !(|before| < limit || before == map[]) {
      var victim :| Oldest(before, victim) && after == (before - {victim})[host := e];
      assert |before - {victim}| == |before| - 1;
    }
  }

  // A continuation: inserts and further clean-ups.

  datatype Op = Insert(put: Put) | CleanUp(at: nat)

  function Instant(op: Op): nat {
    match op
    case Insert(put) => put.at
    case CleanUp(at) => at
  }

  ghost predicate OpStep(limit: nat, ttl: nat, before: Cache, op: Op, after: Cache) {
    match op
    case Insert(put) => Inserted(limit, before, put.host, Entry(put.ip, put.at), after)
    case CleanUp(at) => after == Kept(ttl, before, at)
  }

  /** Nothing in the cache is newer than the instant. */
  ghost predicate NoneNewer(cache: Cache, at: nat) {
    forall h :: h in cache ==> cache[h].cachedAt <= at
  }

  lemma OpKeepsBounds(limit: nat, ttl: nat, before: Cache, op: Op, after: Cache)
    requires Bounded(limit, before) && NoneNewer(before, Instant(op)) && OpStep(limit, ttl, before, op, after)
    ensures Bounded(limit, after) && NoneNewer(after, Instant(op))
  {
    match op
    case Insert(put) => InsertStaysBounded(limit, before, put.host, Entry(put.ip, put.at), after);
    case CleanUp(at) => FewerKept(ttl, before, at);
  }

  /** Two caches that differ in expired entries only, before the same operation. */
  ghost predicate Alike(limit: nat, ttl: nat, full: Cache, clean: Cache, now: nat, op: Op) {
    && ttl >= 1 && HidesExpired(ttl, full, clean, now) && Bounded(limit, full)
    && now <= Instant(op) && NoneNewer(full, Instant(op))
  }

  /** The insert into two caches of which one hides entries: it may leave these two. */
  lemma InsertWhileHiding(limit: nat, ttl: nat, full: Cache, clean: Cache, now: nat, i: Put, full': Cache)
    requires Alike(limit, ttl, full, clean, now, Insert(i)) && full.Keys - clean.Keys != {}
    requires OpStep(limit, ttl, full, Insert(i), full')
    ensures clean != map[] ==> |clean| < limit
    ensures HidesExpired(ttl, full', clean[i.host := Entry(i.ip, i.at)], now)
  {
    var hidden :| hidden in full.Keys - clean.Keys;
    HiddenIsSmaller(full, clean, hidden);
    if !(|full| < limit || full == map[]) {
      var victim :| Oldest(full, victim) && full' == (full - {victim})[i.host := Entry(i.ip, i.at)];
      OldestIsHidden(ttl, full, clean, now, victim);
    }
    HidesAfterPut(ttl, full, clean, now, i.host, Entry(i.ip, i.at), full');
  }

  lemma NothingHidden(ttl: nat, full: Cache, clean: Cache, now: nat)
    requires HidesExpired(ttl, full, clean, now) && full.Keys - clean.Keys == {}
    ensures full == clean
  {
    assert forall h :: h in full ==> h !in full.Keys - clean.Keys;
  }

  /** Whatever the full cache does, the cleaned one can do too ... */
  lemma CleanFollowsStep(limit: nat, ttl: nat, full: Cache, clean: Cache, now: nat, op: Op, full': Cache)
    returns (clean': Cache)
    requires Alike(limit, ttl, full, clean, now, op) && OpStep(limit, ttl, full, op, full')
    ensures OpStep(limit, ttl, clean, op, clean') && HidesExpired(ttl, full', clean', now)
  {
    if full.Keys - clean.Keys == {} {
      NothingHidden(ttl, full, clean, now);
      clean' := full';
    } else if op.Insert? {
      InsertWhileHiding(limit, ttl, full, clean, now, op.put, full');
      clean' := clean[op.put.host := Entry(op.put.ip, op.put.at)];
    } else {
      clean' := Kept(ttl, clean, op.at);
      assert clean' == full';
    }
  }

  /** ... and the other way round: cleaning up makes nothing new possible. */
  lemma FullFollowsStep(limit: nat, ttl: nat, full: Cache, clean: Cache, now: nat, op: Op, clean': Cache)
    returns (full': Cache)
    requires Alike(limit, ttl, full, clean, now, op) && OpStep(limit, ttl, clean, op, clean')
    ensures OpStep(limit, ttl, full, op, full') && HidesExpired(ttl, full', clean', now)
  {
    if full.Keys - clean.Keys == {} {
      NothingHidden(ttl, full, clean, now);
      full' := clean';
    } else if op.Insert? {
      full' := SomeInsert(limit, full, op.put.host, Entry(op.put.ip, op.put.at));
      InsertWhileHiding(limit, ttl, full, clean, now, op.put, full');
    } else {
      full' := Kept(ttl, full, op.at);
      assert clean' == full';
    }
  }

  // Whole continuations.

  /** caches[i] is what the first i operations may leave. */
  ghost predicate IsRun(limit: nat, ttl: nat, caches: seq<Cache>, ops: seq<Op>) {
    && |caches| == |ops| + 1
    && forall i :: 0 <= i < |ops| ==> OpStep(limit, ttl, caches[i], ops[i], caches[i + 1])
  }

  ghost predicate InOrder(ops: seq<Op>, now: nat) {
    && (forall i :: 0 <= i < |ops| ==> now <= Instant(ops[i]))
    && (forall i, j :: 0 <= i < j < |ops| ==> Instant(ops[i]) <= Instant(ops[j]))
  }

  ghost predicate SameAnswers(ttl: nat, a: seq<Cache>, b: seq<Cache>, now: nat) {
    && |a| == |b|
    && forall i, host, later :: 0 <= i < |a| && now <= later ==>
         Lookup(ttl, a[i], host, later) == Lookup(ttl, b[i], host, later)
  }

  lemma RunCons(limit: nat, ttl: nat, first: Cache, rest: seq<Cache>, ops: seq<Op>)
    requires ops != [] && IsRun(limit, ttl, rest, ops[1..]) && OpStep(limit, ttl, first, ops[0], rest[0])
    ensures IsRun(limit, ttl, [first] + rest, ops)
  {
    var all := [first] + rest;
    forall k | 0 <= k < |ops|
      ensures OpStep(limit, ttl, all[k], ops[k], all[k + 1])
    {
      assert k > 0 ==> all[k] == rest[k - 1] && all[k + 1] == rest[k] && ops[k] == ops[1..][k - 1];
    }
  }

  lemma RunTail(limit: nat, ttl: nat, caches: seq<Cache>, ops: seq<Op>)
    requires ops != [] && IsRun(limit, ttl, caches, ops)
    ensures IsRun(limit, ttl, caches[1..], ops[1..]) && OpStep(limit, ttl, caches[0], ops[0], caches[1])
  {
    forall k | 0 <= k < |ops[1..]|
      ensures OpStep(limit, ttl, caches[1..][k], ops[1..][k], caches[1..][k + 1])
    {
      assert ops[1..][k] == ops[k + 1] && caches[1..][k] == caches[k + 1] && caches[1..][k + 1] == caches[k + 2];
    }
  }

  lemma AnswersCons(ttl: nat, a: seq<Cache>, b: seq<Cache>, now: nat)
    requires a != [] && |a| == |b| && SameAnswers(ttl, a[1..], b[1..], now)
    requires forall host, later :: now <= later ==> Lookup(ttl, a[0], host, later) == Lookup(ttl, b[0], host, later)
    ensures SameAnswers(ttl, a, b, now)
  {
    forall k, host, later | 0 <= k < |a| && now <= later
      ensures Lookup(ttl, a[k], host, later) == Lookup(ttl, b[k], host, later)
    {
      assert k > 0 ==> a[k] == a[1..][k - 1] && b[k] == b[1..][k - 1];
    }
  }

  /** Every run from the one cache is matched by a run from the other one with the
      same answers; `cleanFollows` says which of the two has the expired entries. */
  lemma {:induction false} RunFollows(limit: nat, ttl: nat, run: seq<Cache>, other: Cache, ops: seq<Op>, now: nat,
                                      at: nat, cleanFollows: bool)
    returns (follow: seq<Cache>)
    requires IsRun(limit, ttl, run, ops) && InOrder(ops, at) && now <= at && ttl >= 1
    requires var full, clean := if cleanFollows then run[0] else other, if cleanFollows then other else run[0];
      HidesExpired(ttl, full, clean, now) && Bounded(limit, full) && NoneNewer(full, at)
    ensures IsRun(limit, ttl, follow, ops) && follow[0] == other
    ensures SameAnswers(ttl, run, follow, now)
    decreases |ops|
  {
    var full, clean := if cleanFollows then run[0] else other, if cleanFollows then other else run[0];
    follow := [other];
    if ops != [] {
      RunTail(limit, ttl, run, ops);
      var next: Cache;
      if cleanFollows {
        next := CleanFollowsStep(limit, ttl, full, clean, now, ops[0], run[1]);
        OpKeepsBounds(limit, ttl, full, ops[0], run[1]);
      } else {
        next := FullFollowsStep(limit, ttl, full, clean, now, ops[0], run[1]);
        OpKeepsBounds(limit, ttl, full, ops[0], next);
      }
      var rest := RunFollows(limit, ttl, run[1..], next, ops[1..], now, Instant(ops[0]), cleanFollows);
      RunCons(limit, ttl, other, rest, ops);
      follow := [other] + rest;
      assert follow[1..] == rest;
    }
    forall host, later | now <= later
      ensures Lookup(ttl, run[0], host, later) == Lookup(ttl, follow[0], host, later)
    {
      HiddenSameAnswers(ttl, full, clean, now, host, later);
    }
    AnswersCons(ttl, run, follow, now);
  }

  lemma {:induction false} FollowAny(limit: nat, ttl: nat, cache: Cache, ops: seq<Op>) returns (follow: seq<Cache>)
    ensures IsRun(limit, ttl, follow, ops) && follow[0] == cache
    decreases |ops|
  {
    follow := [cache];
    if ops != [] {
      var next := Kept(ttl, cache, Instant(ops[0]));
      if ops[0].Insert? {
        next := SomeInsert(limit, cache, ops[0].put.host, Entry(ops[0].put.ip, ops[0].put.at));
      }
      var rest := FollowAny(limit, ttl, next, ops[1..]);
      RunCons(limit, ttl, cache, rest, ops);
      follow := [cache] + rest;
    }
  }

  /** A run from `from` and one from `to` that answer every lookup alike. */
  ghost predicate Matched(limit: nat, ttl: nat, run: seq<Cache>, to: Cache, ops: seq<Op>, now: nat) {
    exists follow :: IsRun(limit, ttl, follow, ops) && follow[0] == to && SameAnswers(ttl, run, follow, now)
  }

  /** A clean-up cannot be observed. Whatever inserts and clean-ups follow, every
      behaviour of the cache that was not cleaned is one of the cleaned cache, and
      every behaviour of the cleaned cache is one of the other: same present and
      future answers. */
  lemma CleanupUnobservable(limit: nat, ttl: nat, cache: Cache, h: seq<Put>, now: nat, ops: seq<Op>)
    requires Agrees(limit, ttl, cache, h, now) && InOrder(ops, now)
    ensures forall full :: IsRun(limit, ttl, full, ops) && full[0] == cache ==>
              Matched(limit, ttl, full, Kept(ttl, cache, now), ops, now)
    ensures forall clean :: IsRun(limit, ttl, clean, ops) && clean[0] == Kept(ttl, cache, now) ==>
              Matched(limit, ttl, clean, cache, ops, now)
  {
    CleanupHides(ttl, cache, now);
    assert NoneNewer(cache, now) by {
      forall host | host in cache ensures cache[host].cachedAt <= now {
        LatestInPast(h, host, now);
      }
    }
    forall full | IsRun(limit, ttl, full, ops) && full[0] == cache
      ensures Matched(limit, ttl, full, Kept(ttl, cache, now), ops, now)
    {
      var follow := Follower(limit, ttl, full, Kept(ttl, cache, now), ops, now, true);
    }
    forall clean | IsRun(limit, ttl, clean, ops) && clean[0] == Kept(ttl, cache, now)
      ensures Matched(limit, ttl, clean, cache, ops, now)
    {
      var follow := Follower(limit, ttl, clean, cache, ops, now, false);
    }
  }

  /** As RunFollows, also when entries never live at all. */
  lemma Follower(limit: nat, ttl: nat, run: seq<Cache>, other: Cache, ops: seq<Op>, now: nat, cleanFollows: bool)
    returns (follow: seq<Cache>)
    requires IsRun(limit, ttl, run, ops) && InOrder(ops, now)
    requires var full, clean := if cleanFollows then run[0] else other, if cleanFollows then other else run[0];
      HidesExpired(ttl, full, clean, now) && Bounded(limit, full) && NoneNewer(full, now)
    ensures IsRun(limit, ttl, follow, ops) && follow[0] == other && SameAnswers(ttl, run, follow, now)
  {
    if ttl == 0 {
      follow := FollowAny(limit, ttl, other, ops);
    } else {
      follow := RunFollows(limit, ttl, run, other, ops, now, now, cleanFollows);
    }
  }

  // ------------------------------------------------------------------ the cache

  class HostCache {
    const ttl: nat
    const maxEntries: nat
    var entries: Cache
    ghost var history: seq<Put>
    ghost var clock: nat

    ghost predicate Valid()
      reads this
    {
      Agrees(maxEntries, ttl, entries, history, clock)
    }

    constructor (ttl: nat, maxEntries: nat)
      ensures Valid() && history == [] && clock == 0 && entries == map[]
      ensures this.ttl == ttl && this.maxEntries == maxEntries
    {
      this.ttl, this.maxEntries := ttl, maxEntries;
      entries, history, clock := map[], [], 0;
    }

    /** A hit is the latest insert of the host, and younger than the ttl. */
    method Get(host: Host, now: nat) returns (ip: Option<Ip>)
      requires Valid() && clock <= now
      ensures ip == Lookup(ttl, entries, host, now)
      ensures ip == if host in entries && ttl > 0 && now < entries[host].cachedAt + ttl then Some(entries[host].ip)
                    else None
      ensures ip.Some? ==>
                var i := Latest(history, host);
                i.Some? && i.value.ip == ip.value && now < i.value.at + ttl
    {
      ip := None;
      if host in entries {
        var entry := entries[host];
        assert Latest(history, host) == Some(Put(host, entry.ip, entry.cachedAt));
        if (if now < entry.cachedAt then 0 else now - entry.cachedAt) < ttl {
          ip := Some(entry.ip);
        }
      }
    }

    method Insert(host: Host, ip: Ip, now: nat)
      requires Valid() && clock <= now
      modifies this
      ensures Valid() && clock == now && history == old(history) + [Put(host, ip, now)]
      ensures Inserted(maxEntries, old(entries), host, Entry(ip, now), entries)
      ensures entries[host] == Entry(ip, now)
      ensures forall h :: h in entries && h != host ==> h in old(entries) && entries[h] == old(entries)[h]
      ensures |old(entries)| < maxEntries ==> entries == old(entries)[host := Entry(ip, now)]
      ensures forall h, k :: h in old(entries) && h !in entries && k in old(entries) ==>
                old(entries)[h].cachedAt <= old(entries)[k].cachedAt
      ensures host in entries && |entries| <= if maxEntries == 0 then 1 else maxEntries
    {
      ghost var before := entries;
      if |entries| >= maxEntries {
        EvictOldest();
      }
      entries := entries[host := Entry(ip, now)];
      ghost var i := Put(host, ip, now);
      InsertAgrees(maxEntries, ttl, before, history, clock, i, entries);
      history, clock := history + [i], now;
    }

    method EvictOldest()
      modifies this`entries
      ensures old(entries) == map[] ==> entries == map[]
      ensures old(entries) != map[] ==>
                exists victim :: Oldest(old(entries), victim) && entries == old(entries) - {victim}
    {
      if entries == map[] {
        return;
      }
      var keys := entries.Keys;
      var oldest :| oldest in keys;
      keys := keys - {oldest};
      while keys != {}
        invariant keys <= entries.Keys && oldest in entries
        invariant forall h :: h in entries && h !in keys ==> entries[oldest].cachedAt <= entries[h].cachedAt
        decreases |keys|
      {
        var h :| h in keys;
        if entries[h].cachedAt < entries[oldest].cachedAt {
          oldest := h;
        }
        keys := keys - {h};
      }
      assert Oldest(entries, oldest);
      entries := entries - {oldest};
    }

    method Cleanup(now: nat)
      requires Valid() && clock <= now
      modifies this
      ensures Valid() && clock == now && history == old(history)
      ensures entries == Kept(ttl, old(entries), now)
      ensures forall h :: h in entries <==> h in old(entries) && ttl > 0 && now < old(entries)[h].cachedAt + ttl
      ensures forall h :: h in entries ==> entries[h] == old(entries)[h]
    {
      CleanupAgrees(maxEntries, ttl, entries, history, clock, now);
      entries := map h | h in entries && Young(ttl, entries[h], now) :: entries[h];
      assert entries == Kept(ttl, old(entries), now);
      clock := now;
    }
  }
}
