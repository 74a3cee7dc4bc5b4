// The two-level cache in front of the team lookup: 10 seconds in memory over 60
// seconds in Redis. Times are milliseconds; calls are atomic.

module TeamCache {
  import opened Options

  type Team = nat
  type Customer = nat

  /** TeamTrackingInfo: whom to charge, and the limits that apply. */
  datatype Info = Info(trackingId: Customer, plan: string, limit: int, overage: bool, overageEmail: bool)

  const MEMORY_TTL: nat := 10_000
  const REDIS_TTL: nat := 60_000
  const MAX_ENTRIES: nat := 1000

  datatype Timed = Timed(info: Info, expiry: nat)

  /** The teams table over time: from `at` on it holds `teams`. */
  datatype Change = Change(at: nat, teams: map<Team, Info>)

  predicate Ordered(timeline: seq<Change>, now: nat) {
    && timeline != []
    && (forall i, j :: 0 <= i < j < |timeline| ==> timeline[i].at <= timeline[j].at)
    && (forall i :: 0 <= i < |timeline| ==> timeline[i].at <= now)
  }

  /** At moment t the database held v for the team (at the moment of a change,
      both the old and the new value count). */
  ghost predicate HeldAt(timeline: seq<Change>, team: Team, v: Option<Info>, t: nat) {
    exists i :: 0 <= i < |timeline| && Holds(timeline, i, team, v, t)
  }

  predicate Holds(timeline: seq<Change>, i: nat, team: Team, v: Option<Info>, t: nat)
    requires i < |timeline|
  {
    && timeline[i].at <= t && (i + 1 < |timeline| ==> t <= timeline[i + 1].at)
    && v == if team in timeline[i].teams then Some(timeline[i].teams[team]) else None
  }

  /** A lookup that found no team and fell back to the calling customer. */
  datatype Fallback = Fallback(team: Team, own: Info, at: nat)

  /** Where a value for a team may come from, as of moment t: the database, or the
      limits of a customer whose own lookup failed. */
  ghost predicate Sourced(timeline: seq<Change>, fallbacks: seq<Fallback>, team: Team, v: Info, t: nat) {
    HeldAt(timeline, team, Some(v), t) || Fallback(team, v, t) in fallbacks
  }

  /** The value has a source less than `age` milliseconds old. */
  ghost predicate FreshWithin(timeline: seq<Change>, fallbacks: seq<Fallback>, team: Team, v: Info,
                              now: nat, age: nat)
  {
    exists t: nat :: t <= now < t + age && Sourced(timeline, fallbacks, team, v, t)
  }

  /** The value has a source less than 70 seconds old. */
  ghost predicate Fresh(timeline: seq<Change>, fallbacks: seq<Fallback>, team: Team, v: Info, now: nat) {
    FreshWithin(timeline, fallbacks, team, v, now, 70_000)
  }

  /** If no lookup of this team fell back in the last 70 seconds, whatever happened
      before or to other teams, the database held exactly this value for the team at
      some moment less than 70 seconds ago. */
  lemma FreshFromDatabase(timeline: seq<Change>, fallbacks: seq<Fallback>, team: Team, v: Info, now: nat)
    requires Fresh(timeline, fallbacks, team, v, now)
    requires forall f :: f in fallbacks && f.team == team && f.at <= now ==> f.at + 70_000 <= now
    ensures exists t: nat :: t <= now < t + 70_000 && HeldAt(timeline, team, Some(v), t)
  {
    var t: nat :| t <= now < t + 70_000 && Sourced(timeline, fallbacks, team, v, t);
    assert Fallback(team, v, t) !in fallbacks;
    assert HeldAt(timeline, team, Some(v), t);
  }

  /** A cached value with its source and the time it still may be served. */
  ghost predicate Backed(timeline: seq<Change>, fallbacks: seq<Fallback>, team: Team, e: Timed, age: nat, now: nat) {
    exists t: nat :: t <= now && e.expiry <= t + age && Sourced(timeline, fallbacks, team, e.info, t)
  }

  lemma SourcedGrows(timeline: seq<Change>, fallbacks: seq<Fallback>, change: seq<Change>, more: seq<Fallback>,
                     team: Team, v: Info, t: nat, now: nat)
    requires Sourced(timeline, fallbacks, team, v, t) && t <= now
    requires forall i :: 0 <= i < |change| ==> now <= change[i].at
    ensures Sourced(timeline + change, fallbacks + more, team, v, t)
  {
    if HeldAt(timeline, team, Some(v), t) {
      var i :| 0 <= i < |timeline| && Holds(timeline, i, team, Some(v), t);
      assert Holds(timeline + change, i, team, Some(v), t);
    }
  }

  lemma BackedGrows(timeline: seq<Change>, fallbacks: seq<Fallback>, change: seq<Change>, more: seq<Fallback>,
                    team: Team, e: Timed, age: nat, now: nat, later: nat)
    requires Backed(timeline, fallbacks, team, e, age, now) && now <= later
    requires forall i :: 0 <= i < |change| ==> now <= change[i].at
    ensures Backed(timeline + change, fallbacks + more, team, e, age, later)
  {
    var t: nat :| t <= now && e.expiry <= t + age && Sourced(timeline, fallbacks, team, e.info, t);
    SourcedGrows(timeline, fallbacks, change, more, team, e.info, t, now);
  }

  /** A whole level of the cache, each value servable for at most `age` after its source. */
  ghost predicate AllBacked(timeline: seq<Change>, fallbacks: seq<Fallback>, level: map<Team, Timed>,
                            age: nat, now: nat)
  {
    forall t :: t in level ==> Backed(timeline, fallbacks, t, level[t], age, now)
  }

  lemma AllBackedGrows(timeline: seq<Change>, fallbacks: seq<Fallback>, change: seq<Change>, more: seq<Fallback>,
                       level: map<Team, Timed>, age: nat, now: nat, later: nat)
    requires AllBacked(timeline, fallbacks, level, age, now) && now <= later
    requires forall i :: 0 <= i < |change| ==> now <= change[i].at
    ensures AllBacked(timeline + change, fallbacks + more, level, age, later)
  {
    forall t | t in level ensures Backed(timeline + change, fallbacks + more, t, level[t], age, later) {
      BackedGrows(timeline, fallbacks, change, more, t, level[t], age, now, later);
    }
  }

  lemma AllBackedLater(timeline: seq<Change>, fallbacks: seq<Fallback>, level: map<Team, Timed>,
                       age: nat, now: nat, later: nat)
    requires AllBacked(timeline, fallbacks, level, age, now) && now <= later
    ensures AllBacked(timeline, fallbacks, level, age, later)
  {
    AllBackedGrows(timeline, fallbacks, [], [], level, age, now, later);
    assert timeline + [] == timeline && fallbacks + [] == fallbacks;
  }

  // -------------------------------------------------------------- one lookup

  datatype Levels = Levels(memory: map<Team, Timed>, redis: map<Team, Timed>)

  /** What works during a call: the GET, the SETEX, the SQL query. */
  datatype Io = Io(redisReads: bool, redisWrites: bool, queryWorks: bool)

  datatype Reply = Reply(info: Info, levels: Levels, fellBack: bool)

  predicate Live(level: map<Team, Timed>, team: Team, now: nat) {
    team in level && now < level[team].expiry
  }

  function Remember(memory: map<Team, Timed>, team: Team, info: Info, now: nat): map<Team, Timed> {
    (if |memory| >= MAX_ENTRIES then (map t | t in memory && now < memory[t].expiry :: memory[t]) else memory)
    [team := Timed(info, now + MEMORY_TTL)]
  }

  function ResolveTeam(hasRedis: bool, l: Levels, teams: map<Team, Info>, own: Info, team: Team, now: nat, io: Io)
    : Reply
  {
    if Live(l.memory, team, now) then Reply(l.memory[team].info, l, false)
    else if hasRedis && io.redisReads && Live(l.redis, team, now) then
      var info := l.redis[team].info;
      Reply(info, l.(memory := Remember(l.memory, team, info, now)), false)
    else
      var found := io.queryWorks && team in teams;
      var info := if found then teams[team] else own;
      var redis := if hasRedis && io.redisWrites then l.redis[team := Timed(info, now + REDIS_TTL)] else l.redis;
      Reply(info, Levels(Remember(l.memory, team, info, now), redis), !found)
  }

  /** Where the 70 seconds stop being about the database: a failed lookup caches
      the calling customer's own limits under the team, in both levels. */
  predicate FallsBack(l: Levels, teams: map<Team, Info>, team: Team, now: nat, io: Io) {
    !Live(l.memory, team, now) && !Live(l.redis, team, now) && (!io.queryWorks || team !in teams)
  }

  /** For ten seconds every other customer of the team is served them from memory,
      even if the team exists by then ... */
  lemma FallbackIsShared(hasRedis: bool, l: Levels, before: map<Team, Info>, after: map<Team, Info>,
                         a: Info, b: Info, team: Team, now: nat, later: nat, io: Io, io': Io)
    requires FallsBack(l, before, team, now, io)
    requires now <= later < now + 10_000
    ensures var first := ResolveTeam(hasRedis, l, before, a, team, now, io);
      && first.fellBack && first.info == a
      && ResolveTeam(hasRedis, first.levels, after, b, team, later, io').info == a
  {
  }

  /** ... and with a working Redis for 60 seconds, at the end of which a lookup
      promotes them into memory for ten more: so for up to 70 seconds. */
  lemma FallbackLastsSeventySeconds(l: Levels, before: map<Team, Info>, after: map<Team, Info>, a: Info, b: Info,
                                    team: Team, now: nat, hit: nat, later: nat, io: Io, io': Io, io'': Io)
    requires FallsBack(l, before, team, now, io) && io.redisWrites && io'.redisReads
    requires now + 10_000 <= hit < now + 60_000 && hit <= later < hit + 10_000
    ensures var first := ResolveTeam(true, l, before, a, team, now, io);
      var second := ResolveTeam(true, first.levels, after, b, team, hit, io');
      && first.info == a && second.info == a
      && ResolveTeam(true, second.levels, after, b, team, later, io'').info == a
  {
  }

  /** A value put into memory stays backed for the age of the level. */
  lemma RememberBacked(timeline: seq<Change>, fallbacks: seq<Fallback>, memory: map<Team, Timed>,
                       team: Team, info: Info, age: nat, now: nat, t: nat)
    requires AllBacked(timeline, fallbacks, memory, age, now)
    requires t <= now && now + 10_000 <= t + age && Sourced(timeline, fallbacks, team, info, t)
    ensures AllBacked(timeline, fallbacks, Remember(memory, team, info, now), age, now)
  {
    assert Backed(timeline, fallbacks, team, Timed(info, now + MEMORY_TTL), age, now);
  }

  lemma StoreBacked(timeline: seq<Change>, fallbacks: seq<Fallback>, redis: map<Team, Timed>,
                    team: Team, info: Info, now: nat)
    requires AllBacked(timeline, fallbacks, redis, 60_000, now) && Sourced(timeline, fallbacks, team, info, now)
    ensures AllBacked(timeline, fallbacks, redis[team := Timed(info, now + REDIS_TTL)], 60_000, now)
  {
    assert Backed(timeline, fallbacks, team, Timed(info, now + REDIS_TTL), 60_000, now);
  }

  lemma ServeBacked(timeline: seq<Change>, fallbacks: seq<Fallback>, level: map<Team, Timed>,
                    age: nat, team: Team, now: nat)
    returns (t: nat)
    requires AllBacked(timeline, fallbacks, level, age, now) && Live(level, team, now)
    ensures t <= now < t + age && Sourced(timeline, fallbacks, team, level[team].info, t)
  {
    assert Backed(timeline, fallbacks, team, level[team], age, now);
    t :| t <= now && level[team].expiry <= t + age && Sourced(timeline, fallbacks, team, level[team].info, t);
  }

  /** How old the source of a value in memory can be when it expires. */
  function MemoryAge(hasRedis: bool): nat {
    if hasRedis then 70_000 else 10_000
  }

  /** How old the source of an answer can be, given whether memory had it. */
  function AnswerAge(hasRedis: bool, fromMemory: bool): nat {
    if !hasRedis then 10_000 else if fromMemory then 70_000 else 60_000
  }

  lemma FreshNow(timeline: seq<Change>, fallbacks: seq<Fallback>, team: Team, v: Info, now: nat, age: nat)
    requires Sourced(timeline, fallbacks, team, v, now) && age > 0
    ensures FreshWithin(timeline, fallbacks, team, v, now, age)
  {
    assert now <= now < now + age && Sourced(timeline, fallbacks, team, v, now);
  }

  lemma FreshWidens(timeline: seq<Change>, fallbacks: seq<Fallback>, team: Team, v: Info, now: nat, a: nat, b: nat)
    requires FreshWithin(timeline, fallbacks, team, v, now, a) && a <= b
    ensures FreshWithin(timeline, fallbacks, team, v, now, b)
  {
    var t: nat :| t <= now < t + a && Sourced(timeline, fallbacks, team, v, t);
    assert t <= now < t + b && Sourced(timeline, fallbacks, team, v, t);
  }

  // -------------------------------------------- lifetimes, in milliseconds

  /** Neither level can answer: the database is asked, or the caller's limits are taken;
      and that value is stored. */
  predicate Misses(hasRedis: bool, l: Levels, team: Team, now: nat, io: Io) {
    !Live(l.memory, team, now) && !(hasRedis && io.redisReads && Live(l.redis, team, now))
  }

  lemma MissStores(hasRedis: bool, l: Levels, teams: map<Team, Info>, own: Info, team: Team, now: nat, io: Io)
    requires Misses(hasRedis, l, team, now, io)
    ensures var r := ResolveTeam(hasRedis, l, teams, own, team, now, io);
      && r.info == (if io.queryWorks && team in teams then teams[team] else own)
      && (r.fellBack <==> !io.queryWorks || team !in teams)
      && team in r.levels.memory && r.levels.memory[team] == Timed(r.info, now + 10_000)
      && (hasRedis && io.redisWrites ==> r.levels.redis == l.redis[team := Timed(r.info, now + 60_000)])
      && (!hasRedis || !io.redisWrites ==> r.levels.redis == l.redis)
  {
  }

  /** A value stored at `now` is served at every moment of the next 10 seconds, and with a
      Redis that works of the next 60 seconds, whatever the database then holds and
      whoever asks. */
  lemma ServesWhileLive(hasRedis: bool, l: Levels, before: map<Team, Info>, after: map<Team, Info>,
                        a: Info, b: Info, team: Team, now: nat, later: nat, io: Io, io': Io)
    requires Misses(hasRedis, l, team, now, io) && now <= later
    ensures var first := ResolveTeam(hasRedis, l, before, a, team, now, io);
      var second := ResolveTeam(hasRedis, first.levels, after, b, team, later, io');
      && (later < now + 10_000 ==> second.info == first.info && second.levels == first.levels)
      && (hasRedis && io.redisWrites && io'.redisReads && later < now + 60_000 ==> second.info == first.info)
  {
  }

  /** And no longer: without Redis the database is asked again from 10 seconds on. */
  lemma AsksAgain(l: Levels, before: map<Team, Info>, after: map<Team, Info>,
                  a: Info, b: Info, team: Team, now: nat, later: nat, io: Io, io': Io)
    requires Misses(false, l, team, now, io) && now + 10_000 <= later && io'.queryWorks && team in after
    ensures var first := ResolveTeam(false, l, before, a, team, now, io);
      ResolveTeam(false, first.levels, after, b, team, later, io').info == after[team]
  {
  }

  /** Lookups of other teams in between neither lose nor change a live value. */
  lemma OthersKeep(hasRedis: bool, l: Levels, teams: map<Team, Info>, own: Info, other: Team, team: Team,
                   now: nat, io: Io)
    requires other != team
    ensures var r := ResolveTeam(hasRedis, l, teams, own, other, now, io);
      && (Live(l.memory, team, now) ==> team in r.levels.memory && r.levels.memory[team] == l.memory[team])
      && (team in l.redis ==> team in r.levels.redis && r.levels.redis[team] == l.redis[team])
      && (team in r.levels.memory ==> team in l.memory && r.levels.memory[team] == l.memory[team])
  {
  }

  class Resolver {
    const hasRedis: bool
    var memory: map<Team, Timed>
    var redis: map<Team, Timed>
    var teams: map<Team, Info>
    ghost var timeline: seq<Change>
    ghost var fallbacks: seq<Fallback>
    ghost var clock: nat

    ghost predicate Valid()
      reads this
    {
      && Ordered(timeline, clock) && timeline[|timeline| - 1].teams == teams
      && AllBacked(timeline, fallbacks, memory, MemoryAge(hasRedis), clock)
      && AllBacked(timeline, fallbacks, redis, 60_000, clock)
    }

    constructor (teams: map<Team, Info>, hasRedis: bool)
      ensures Valid() && timeline == [Change(0, teams)] && fallbacks == [] && clock == 0
      ensures this.hasRedis == hasRedis
    {
      this.hasRedis, this.teams := hasRedis, teams;
      memory, redis := map[], map[];
      timeline, fallbacks, clock := [Change(0, teams)], [], 0;
    }

    /** The rest of the system changes the database. */
    method ChangeDatabase(teams: map<Team, Info>, now: nat)
      requires Valid() && clock <= now
      modifies this
      ensures Valid() && clock == now
      ensures timeline == old(timeline) + [Change(now, teams)] && fallbacks == old(fallbacks)
    {
      ghost var change := [Change(now, teams)];
      AllBackedGrows(timeline, fallbacks, change, [], memory, MemoryAge(hasRedis), clock, now);
      AllBackedGrows(timeline, fallbacks, change, [], redis, 60_000, clock, now);
      assert fallbacks + [] == fallbacks;
      this.teams := teams;
      timeline, clock := timeline + change, now;
    }

    /** The team's value is live for ten seconds from now; no live entry of another
        team is lost or changed. */
    method InsertMemory(team: Team, info: Info, now: nat)
      modifies this`memory
      ensures memory == Remember(old(memory), team, info, now)
      ensures team in memory && memory[team] == Timed(info, now + 10_000)
      ensures |old(memory)| < 1000 ==> memory == old(memory)[team := Timed(info, now + 10_000)]
      ensures |old(memory)| >= 1000 ==> forall t :: t in memory && t != team ==> now < memory[t].expiry
      ensures forall t :: t in old(memory) && t != team && now < old(memory)[t].expiry ==>
                t in memory && memory[t] == old(memory)[t]
      ensures forall t :: t in memory && t != team ==> t in old(memory) && memory[t] == old(memory)[t]
    {
      if |memory| >= MAX_ENTRIES {
        memory := map t | t in memory && now < memory[t].expiry :: memory[t];
      }
      memory := memory[team := Timed(info, now + MEMORY_TTL)];
    }

    /** Cache miss: query the database, or fall back to the caller's own limits. */
    method Query(own: Info, tid: Team, now: nat, works: bool) returns (info: Info)
      requires Valid() && clock == now
      modifies this`fallbacks
      ensures Valid() && Sourced(timeline, fallbacks, tid, info, now)
      ensures info == if works && tid in teams then teams[tid] else own
      ensures fallbacks == old(fallbacks) + if works && tid in teams then [] else [Fallback(tid, own, now)]
    {
      if works && tid in teams {
        info := teams[tid];
        assert Holds(timeline, |timeline| - 1, tid, Some(info), now);
      } else {
        info := own;
        ghost var more := [Fallback(tid, own, now)];
        AllBackedGrows(timeline, fallbacks, [], more, memory, MemoryAge(hasRedis), clock, now);
        AllBackedGrows(timeline, fallbacks, [], more, redis, 60_000, clock, now);
        assert timeline + [] == timeline;
        fallbacks := fallbacks + more;
        assert more[0] in fallbacks;
      }
    }

    /** SETEX with 60 seconds, if Redis is there and takes it. */
    method StoreInRedis(tid: Team, info: Info, now: nat, works: bool)
      requires Valid() && clock == now && Sourced(timeline, fallbacks, tid, info, now)
      modifies this`redis
      ensures Valid()
      ensures redis == if hasRedis && works then old(redis)[tid := Timed(info, now + 60_000)] else old(redis)
    {
      StoreBacked(timeline, fallbacks, redis, tid, info, now);
      if hasRedis && works {
        redis := redis[tid := Timed(info, now + REDIS_TTL)];
      }
    }

    method StoreInMemory(tid: Team, info: Info, now: nat)
      requires Valid() && clock == now && Sourced(timeline, fallbacks, tid, info, now)
      modifies this`memory
      ensures Valid() && memory == Remember(old(memory), tid, info, now)
    {
      RememberBacked(timeline, fallbacks, memory, tid, info, MemoryAge(hasRedis), now, now);
      InsertMemory(tid, info, now);
    }

    /** The miss path: query, then populate both levels. */
    method QueryAndStore(own: Info, tid: Team, now: nat, io: Io) returns (info: Info)
      requires Valid() && clock == now
      modifies this`fallbacks, this`memory, this`redis
      ensures Valid() && Sourced(timeline, fallbacks, tid, info, now)
      ensures info == if io.queryWorks && tid in teams then teams[tid] else own
      ensures fallbacks == old(fallbacks) + if io.queryWorks && tid in teams then [] else [Fallback(tid, own, now)]
      ensures memory == Remember(old(memory), tid, info, now)
      ensures redis == if hasRedis && io.redisWrites then old(redis)[tid := Timed(info, now + 60_000)]
                       else old(redis)
    {
      info := Query(own, tid, now, io.queryWorks);
      StoreInRedis(tid, info, now, io.redisWrites);
      StoreInMemory(tid, info, now);
    }

    ghost method Tick(now: nat)
      requires Valid() && clock <= now
      modifies this`clock
      ensures Valid() && clock == now
    {
      AllBackedLater(timeline, fallbacks, memory, MemoryAge(hasRedis), clock, now);
      AllBackedLater(timeline, fallbacks, redis, 60_000, clock, now);
      clock := now;
    }

    /** Serve a live value from memory. */
    method Recall(tid: Team, now: nat) returns (info: Info)
      requires Valid() && clock == now && Live(memory, tid, now)
      ensures info == memory[tid].info && FreshWithin(timeline, fallbacks, tid, info, now, MemoryAge(hasRedis))
    {
      ghost var t := ServeBacked(timeline, fallbacks, memory, MemoryAge(hasRedis), tid, now);
      info := memory[tid].info;
    }

    /** Copy a live Redis value into memory. */
    method Promote(tid: Team, now: nat) returns (info: Info)
      requires Valid() && clock == now && hasRedis && Live(redis, tid, now)
      modifies this`memory
      ensures Valid() && info == redis[tid].info && FreshWithin(timeline, fallbacks, tid, info, now, 60_000)
      ensures memory == Remember(old(memory), tid, info, now)
    {
      info := redis[tid].info;
      ghost var t := ServeBacked(timeline, fallbacks, redis, 60_000, tid, now);
      RememberBacked(timeline, fallbacks, memory, tid, info, 70_000, now, t);
      InsertMemory(tid, info, now);
    }

    /** The lookup for a caller with a team: whatever level answers, the value has a
        source less than 70 seconds old. */
    method Lookup(own: Info, tid: Team, now: nat, io: Io) returns (info: Info)
      requires Valid() && clock == now
      modifies this`memory, this`redis, this`fallbacks
      ensures Valid() && FreshWithin(timeline, fallbacks, tid, info, now,
                                     AnswerAge(hasRedis, Live(old(memory), tid, now)))
      ensures var r := ResolveTeam(hasRedis, Levels(old(memory), old(redis)), teams, own, tid, now, io);
        && info == r.info && memory == r.levels.memory && redis == r.levels.redis
        && fallbacks == old(fallbacks) + (if r.fellBack then [Fallback(tid, own, now)] else [])
    {
      assert fallbacks + [] == fallbacks;
      // 1. memory
      if tid in memory && now < memory[tid].expiry {
        info := Recall(tid, now);
        return;
      }
      // 2. Redis
      if hasRedis && io.redisReads && tid in redis && now < redis[tid].expiry {
        info := Promote(tid, now);
        return;
      }
      // 3. the database
      info := QueryAndStore(own, tid, now, io);
      FreshNow(timeline, fallbacks, tid, info, now, AnswerAge(hasRedis, false));
    }

    /** resolve_team_tracking for a caller with own limits `own`. */
    method Resolve(own: Info, team: Option<Team>, now: nat, io: Io) returns (info: Info)
      requires Valid() && clock <= now
      modifies this
      ensures Valid() && clock == now && timeline == old(timeline) && teams == old(teams)
      ensures team.None? ==>
                info == own && memory == old(memory) && redis == old(redis) && fallbacks == old(fallbacks)
      ensures team.Some? ==>
                var r := ResolveTeam(hasRedis, Levels(old(memory), old(redis)), teams, own, team.value, now, io);
                && info == r.info && memory == r.levels.memory && redis == r.levels.redis
                && fallbacks == old(fallbacks) + (if r.fellBack then [Fallback(team.value, own, now)] else [])
      ensures team.Some? ==> Fresh(timeline, fallbacks, team.value, info, now)
      ensures team.Some? && !hasRedis ==> FreshWithin(timeline, fallbacks, team.value, info, now, 10_000)
      ensures team.Some? && !Live(old(memory), team.value, now) ==>
                FreshWithin(timeline, fallbacks, team.value, info, now, 60_000)
    {
      Tick(now);
      if team.None? {
        return own;
      }
      info := Lookup(own, team.value, now, io);
      FreshWidens(timeline, fallbacks, team.value, info, now,
                  AnswerAge(hasRedis, Live(old(memory), team.value, now)), 70_000);
      if !Live(old(memory), team.value, now) {
        FreshWidens(timeline, fallbacks, team.value, info, now, AnswerAge(hasRedis, false), 60_000);
      }
    }
  }
}
