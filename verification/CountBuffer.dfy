// The buffered webhook counter. The flush reads, removes and writes back one map
// entry at a time while increments keep arriving, so it is modelled one map
// operation per step, with a ledger of where every increment went.

module CountBuffer {
  type Customer = nat

  function At(m: map<Customer, int>, c: Customer): int {
    if c in m then m[c] else 0
  }

  function Add(m: map<Customer, int>, c: Customer, n: int): map<Customer, int> {
    m[c := At(m, c) + n]
  }

  datatype Entry = Entry(customer: Customer, count: int)

  /** Where the one flusher stands. `removed` and `restored` count entries done. */
  datatype Phase =
    | Idle
    | Reading(entries: seq<Entry>)
    | Removing(entries: seq<Entry>, removed: nat)
    | Updating(entries: seq<Entry>)
    | Restoring(entries: seq<Entry>, restored: nat)

  /** `late` is the ghost ledger of the current flush: increments that landed on a
      key after its read and before its removal. `lost` accumulates them at the
      removal; `unmatched` is what the UPDATE found no customer row for, and `doubled`
      what it credited although the flusher was told that it failed. */
  datatype System = System(
    pending: map<Customer, int>,
    db: map<Customer, int>,
    phase: Phase,
    total: map<Customer, int>,
    late: map<Customer, int>,
    lost: map<Customer, int>,
    unmatched: map<Customer, int>,
    doubled: map<Customer, int>)

  /** An UPDATE is applied and reported so, or neither, or applied while its reply is
      lost, which the flusher sees as an error. */
  datatype Outcome = Credited | Rejected | ReplyLost

  datatype Step =
    | Increment(c: Customer, n: int)
    | Begin
    | Read(c: Customer)
    | EndRead
    | Remove
    | Update(outcome: Outcome)
    | Restore

  function Find(entries: seq<Entry>, c: Customer): int {
    if entries == [] then 0
    else Find(entries[..|entries| - 1], c)
         + if entries[|entries| - 1].customer == c then entries[|entries| - 1].count else 0
  }

  predicate Has(entries: seq<Entry>, c: Customer) {
    exists i :: 0 <= i < |entries| && entries[i].customer == c
  }

  /** A key that has been read by this flush and not yet removed. */
  predicate Exposed(phase: Phase, c: Customer) {
    match phase
    case Reading(entries) => Has(entries, c)
    case Removing(entries, removed) => removed <= |entries| && Has(entries[removed..], c)
    case _ => false
  }

  predicate Enabled(s: System, step: Step) {
    match step
    case Increment(_, _) => true
    case Begin => s.phase.Idle? && s.pending != map[]
    case Read(c) => s.phase.Reading? && c in s.pending && !Has(s.phase.entries, c)
    case EndRead => s.phase.Reading?
    case Remove => s.phase.Removing? && s.phase.removed < |s.phase.entries|
    case Update(_) => s.phase.Updating?
    case Restore => s.phase.Restoring? && s.phase.restored < |s.phase.entries|
  }

  /** UPDATE customers ... FROM unnest: only existing customers are credited. */
  function Credit(db: map<Customer, int>, entries: seq<Entry>): map<Customer, int> {
    map c | c in db :: db[c] + Find(entries, c)
  }

  /** The next entry to remove, or the UPDATE. */
  function AfterRemove(entries: seq<Entry>, removed: nat): Phase {
    if removed + 1 == |entries| then Updating(entries) else Removing(entries, removed + 1)
  }

  function AfterUpdate(s: System, outcome: Outcome): System
    requires s.phase.Updating?
  {
    var entries := s.phase.entries;
    match outcome
    case Credited =>
      s.(db := Credit(s.db, entries), phase := Idle, unmatched := Missed(s.unmatched, s.db, entries))
    case Rejected => s.(phase := Restoring(entries, 0))
    case ReplyLost =>
      s.(db := Credit(s.db, entries), phase := Restoring(entries, 0), doubled := Matched(s.doubled, s.db, entries))
  }

  function Apply(s: System, step: Step): System
    requires Enabled(s, step)
  {
    match step
    case Increment(c, n) =>
      s.(pending := Add(s.pending, c, n), total := Add(s.total, c, n),
         late := if Exposed(s.phase, c) then Add(s.late, c, n) else s.late)
    case Begin => s.(phase := Reading([]), late := map[])
    case Read(c) => s.(phase := Reading(s.phase.entries + [Entry(c, s.pending[c])]))
    case EndRead =>
      s.(phase := if s.phase.entries == [] then Idle else Removing(s.phase.entries, 0))
    case Remove =>
      var c := s.phase.entries[s.phase.removed].customer;
      s.(pending := s.pending - {c},
         lost := Add(s.lost, c, At(s.late, c)),
         phase := AfterRemove(s.phase.entries, s.phase.removed))
    case Update(outcome) => AfterUpdate(s, outcome)
    case Restore =>
      var e := s.phase.entries[s.phase.restored];
      var next := s.phase.restored + 1;
      s.(pending := Add(s.pending, e.customer, e.count),
         phase := if next == |s.phase.entries| then Idle else Restoring(s.phase.entries, next))
  }

  /** Counts of the entries whose customer has no row. */
  function Missed(unmatched: map<Customer, int>, db: map<Customer, int>, entries: seq<Entry>): map<Customer, int> {
    map c | c in unmatched.Keys + Customers(entries)
      :: At(unmatched, c) + if c in db then 0 else Find(entries, c)
  }

  /** Counts of the entries whose customer has a row. */
  function Matched(doubled: map<Customer, int>, db: map<Customer, int>, entries: seq<Entry>): map<Customer, int> {
    map c | c in doubled.Keys + Customers(entries)
      :: At(doubled, c) + if c in db then Find(entries, c) else 0
  }

  function Customers(entries: seq<Entry>): set<Customer> {
    set i | 0 <= i < |entries| :: entries[i].customer
  }

  // ------------------------------------------------------------- conservation

  /** Read from the map, not in it any more, not yet in the database. */
  function InFlight(phase: Phase, c: Customer): int {
    match phase
    case Idle => 0
    case Reading(_) => 0
    case Removing(entries, removed) => if removed <= |entries| then Find(entries[..removed], c) else 0
    case Updating(entries) => Find(entries, c)
    case Restoring(entries, restored) => if restored <= |entries| then Find(entries[restored..], c) else 0
  }

  predicate Distinct(entries: seq<Entry>) {
    forall i, j :: 0 <= i < j < |entries| ==> entries[i].customer != entries[j].customer
  }

  /** The entries of the flush, wherever it stands. */
  function Entries(phase: Phase): seq<Entry> {
    match phase
    case Idle => []
    case Reading(entries) => entries
    case Removing(entries, _) => entries
    case Updating(entries) => entries
    case Restoring(entries, _) => entries
  }

  /** Every entry read and not yet removed is still in the map, with its value at
      the read plus what arrived late. */
  ghost predicate Consistent(s: System) {
    && Distinct(Entries(s.phase))
    && (s.phase.Removing? ==> s.phase.removed < |s.phase.entries|)
    && (s.phase.Restoring? ==> s.phase.restored < |s.phase.entries|)
    && (forall c :: Exposed(s.phase, c) ==>
          c in s.pending && s.pending[c] == Find(Entries(s.phase), c) + At(s.late, c))
    && (s.phase.Reading? ==> forall c :: !Has(s.phase.entries, c) ==> At(s.late, c) == 0)
  }

  /** Nothing disappears but what arrived in the gap, and nothing is counted twice but
      what a lost reply restored. */
  predicate Conserved(s: System, c: Customer) {
    At(s.total, c) + At(s.doubled, c)
    == At(s.db, c) + At(s.pending, c) + InFlight(s.phase, c) + At(s.lost, c) + At(s.unmatched, c)
  }

  ghost predicate Ledger(s: System) {
    Consistent(s) && forall c :: Conserved(s, c)
  }

  lemma FindAppend(a: seq<Entry>, e: Entry, c: Customer)
    ensures Find(a + [e], c) == Find(a, c) + if e.customer == c then e.count else 0
  {
    assert (a + [e])[..|a|] == a;
  }

  lemma {:induction false} FindConcat(a: seq<Entry>, b: seq<Entry>, c: Customer)
    ensures Find(a + b, c) == Find(a, c) + Find(b, c)
  {
    if b == [] {
      assert a + b == a;
    } else {
      assert (a + b)[..|a + b| - 1] == a + b[..|b| - 1];
      FindConcat(a, b[..|b| - 1], c);
    }
  }

  lemma {:induction false} FindAbsent(a: seq<Entry>, c: Customer)
    requires !Has(a, c)
    ensures Find(a, c) == 0
  {
    if a != [] {
      assert !Has(a[..|a| - 1], c);
      FindAbsent(a[..|a| - 1], c);
    }
  }

  lemma FindDistinct(a: seq<Entry>, i: nat)
    requires Distinct(a) && i < |a|
    ensures Find(a, a[i].customer) == a[i].count
    ensures Find(a[..i], a[i].customer) == 0
  {
    var c := a[i].customer;
    FindAbsent(a[..i], c);
    FindAbsent(a[i + 1..], c);
    FindAround(a, i, c);
  }

  lemma FindAround(a: seq<Entry>, i: nat, c: Customer)
    requires i < |a|
    ensures Find(a, c) == Find(a[..i], c) + (if a[i].customer == c then a[i].count else 0) + Find(a[i + 1..], c)
  {
    assert a == (a[..i] + [a[i]]) + a[i + 1..];
    FindConcat(a[..i] + [a[i]], a[i + 1..], c);
    FindAppend(a[..i], a[i], c);
  }

  // ------------------------------------------------------- every step keeps it

  lemma IncrementKeeps(s: System, c: Customer, n: int)
    requires Ledger(s)
    ensures Ledger(Apply(s, Increment(c, n)))
  {
    var s' := Apply(s, Increment(c, n));
    forall k ensures Conserved(s', k) {
      assert Conserved(s, k);
    }
  }

  lemma ReadKeeps(s: System, c: Customer)
    requires Ledger(s) && Enabled(s, Read(c))
    ensures Ledger(Apply(s, Read(c)))
  {
    var s' := Apply(s, Read(c));
    var e := Entry(c, s.pending[c]);
    FindAbsent(s.phase.entries, c);
    forall k | Exposed(s'.phase, k)
      ensures k in s'.pending && s'.pending[k] == Find(Entries(s'.phase), k) + At(s'.late, k)
    {
      FindAppend(s.phase.entries, e, k);
      assert k != c ==> Exposed(s.phase, k);
    }
    forall k | !Has(s'.phase.entries, k) ensures At(s'.late, k) == 0 {
      assert forall i :: 0 <= i < |s.phase.entries| ==> s'.phase.entries[i] == s.phase.entries[i];
      assert !Has(s.phase.entries, k);
    }
    forall k ensures Conserved(s', k) {
      assert Conserved(s, k);
    }
  }

  lemma EndReadKeeps(s: System)
    requires Ledger(s) && Enabled(s, EndRead)
    ensures Ledger(Apply(s, EndRead))
  {
    var s' := Apply(s, EndRead);
    if s.phase.entries != [] {
      assert s.phase.entries[0..] == s.phase.entries;
    }
    forall k ensures Conserved(s', k) {
      assert Conserved(s, k);
    }
  }

  lemma RemoveShifts(entries: seq<Entry>, r: nat, k: Customer)
    requires Distinct(entries) && r < |entries|
    ensures Find(entries[..r + 1], k)
            == Find(entries[..r], k) + if k == entries[r].customer then entries[r].count else 0
    ensures Has(entries[r..], k) <==> k == entries[r].customer || Has(entries[r + 1..], k)
    ensures k == entries[r].customer ==> !Has(entries[r + 1..], k)
  {
    assert entries[..r + 1] == entries[..r] + [entries[r]];
    FindAppend(entries[..r], entries[r], k);
    assert entries[r..] == [entries[r]] + entries[r + 1..];
    if Has(entries[r..], k) {
      var i :| 0 <= i < |entries[r..]| && entries[r..][i].customer == k;
      assert i > 0 ==> entries[r + 1..][i - 1].customer == k;
    }
    if Has(entries[r + 1..], k) {
      var i :| 0 <= i < |entries[r + 1..]| && entries[r + 1..][i].customer == k;
      assert entries[r..][i + 1].customer == k;
    }
    assert k == entries[r].customer ==> entries[r..][0].customer == k;
  }

  /** The entry goes into flight. */
  lemma RemoveFlies(entries: seq<Entry>, r: nat, k: Customer)
    requires Distinct(entries) && r < |entries|
    ensures InFlight(AfterRemove(entries, r), k)
            == InFlight(Removing(entries, r), k) + if k == entries[r].customer then entries[r].count else 0
  {
    RemoveShifts(entries, r, k);
    if r + 1 == |entries| {
      assert entries[..r + 1] == entries;
    }
  }

  /** And what the map loses is that entry and what arrived late. */
  lemma RemoveTakes(s: System)
    requires Consistent(s) && Enabled(s, Remove)
    ensures var e := s.phase.entries[s.phase.removed];
      At(s.pending, e.customer) == e.count + At(s.late, e.customer)
  {
    var entries, r := s.phase.entries, s.phase.removed;
    FindDistinct(entries, r);
    assert entries[r..][0].customer == entries[r].customer;
    assert Exposed(s.phase, entries[r].customer);
  }

  lemma RemoveBalances(s: System, k: Customer)
    requires Consistent(s) && Enabled(s, Remove) && Conserved(s, k)
    ensures Conserved(Apply(s, Remove), k)
  {
    RemoveFlies(s.phase.entries, s.phase.removed, k);
    RemoveTakes(s);
  }

  lemma RemoveStaysConsistent(s: System)
    requires Consistent(s) && Enabled(s, Remove)
    ensures Consistent(Apply(s, Remove))
  {
    var s' := Apply(s, Remove);
    forall k | Exposed(s'.phase, k)
      ensures k in s'.pending && s'.pending[k] == Find(Entries(s'.phase), k) + At(s'.late, k)
    {
      RemoveShifts(s.phase.entries, s.phase.removed, k);
      assert Exposed(s.phase, k) && k != s.phase.entries[s.phase.removed].customer;
    }
  }

  lemma RemoveKeeps(s: System)
    requires Ledger(s) && Enabled(s, Remove)
    ensures Ledger(Apply(s, Remove))
  {
    RemoveStaysConsistent(s);
    forall k ensures Conserved(Apply(s, Remove), k) {
      assert Conserved(s, k);
      RemoveBalances(s, k);
    }
  }

  lemma UpdateKeeps(s: System, outcome: Outcome)
    requires Ledger(s) && Enabled(s, Update(outcome)) && s.phase.entries != []
    ensures Ledger(Apply(s, Update(outcome)))
  {
    assert s.phase.entries[0..] == s.phase.entries;
    forall k ensures Conserved(AfterUpdate(s, outcome), k) {
      assert Conserved(s, k);
      UpdateBalances(s, outcome, k);
    }
  }

  lemma UpdateBalances(s: System, outcome: Outcome, k: Customer)
    requires s.phase.Updating?
    ensures var s' := AfterUpdate(s, outcome);
      && At(s'.db, k) + At(s'.unmatched, k) + InFlight(s'.phase, k) - At(s'.doubled, k)
         == At(s.db, k) + At(s.unmatched, k) + InFlight(s.phase, k) - At(s.doubled, k)
      && At(s'.doubled, k) == At(s.doubled, k) + DoubledBy(s, Update(outcome), k)
  {
    var entries := s.phase.entries;
    assert entries[0..] == entries;
    NotListed(entries, k);
  }

  /** What one step credits to c and restores as well. */
  function DoubledBy(s: System, step: Step, c: Customer): int {
    if step == Update(ReplyLost) && s.phase.Updating? && c in s.db then Find(s.phase.entries, c) else 0
  }

  lemma NotListed(entries: seq<Entry>, k: Customer)
    ensures k !in Customers(entries) ==> Find(entries, k) == 0
  {
    if k !in Customers(entries) {
      assert !Has(entries, k);
      FindAbsent(entries, k);
    }
  }

  lemma RestoreShifts(entries: seq<Entry>, r: nat, k: Customer)
    requires r < |entries|
    ensures Find(entries[r..], k)
            == Find(entries[r + 1..], k) + if k == entries[r].customer then entries[r].count else 0
  {
    assert entries[r..] == [entries[r]] + entries[r + 1..];
    FindConcat([entries[r]], entries[r + 1..], k);
    FindAppend([], entries[r], k);
    assert [] + [entries[r]] == [entries[r]];
  }

  lemma RestoreKeeps(s: System)
    requires Ledger(s) && Enabled(s, Restore)
    ensures Ledger(Apply(s, Restore))
  {
    var s' := Apply(s, Restore);
    var entries, r := s.phase.entries, s.phase.restored;
    assert r + 1 == |entries| ==> entries[r + 1..] == [];
    forall k ensures Conserved(s', k) {
      assert Conserved(s, k);
      RestoreShifts(entries, r, k);
    }
  }

  lemma BeginKeeps(s: System)
    requires Ledger(s) && Enabled(s, Begin)
    ensures Ledger(Apply(s, Begin))
  {
    forall k ensures Conserved(Apply(s, Begin), k) {
      assert Conserved(s, k);
    }
  }

  /** The flush never reaches its UPDATE with nothing to write. */
  ghost predicate Sound(s: System) {
    Ledger(s) && (s.phase.Updating? ==> s.phase.entries != [])
  }

  lemma StepKeeps(s: System, step: Step)
    requires Sound(s) && Enabled(s, step)
    ensures Sound(Apply(s, step))
  {
    match step
    case Increment(c, n) => IncrementKeeps(s, c, n);
    case Begin => BeginKeeps(s);
    case Read(c) => ReadKeeps(s, c);
    case EndRead => EndReadKeeps(s);
    case Remove => RemoveKeeps(s);
    case Update(outcome) => UpdateKeeps(s, outcome);
    case Restore => RestoreKeeps(s);
  }

  // ---------------------------------------------------------------- whole runs

  /** A server that starts with the counts the customers table holds. */
  function Start(db: map<Customer, int>): System {
    System(map[], db, Idle, db, map[], map[], map[], map[])
  }

  predicate CanRun(s: System, steps: seq<Step>)
    decreases |steps|
  {
    steps == [] || (Enabled(s, steps[0]) && CanRun(Apply(s, steps[0]), steps[1..]))
  }

  function After(s: System, steps: seq<Step>): System
    requires CanRun(s, steps)
    decreases |steps|
  {
    if steps == [] then s else After(Apply(s, steps[0]), steps[1..])
  }

  /** The sum of the increments of c in this run. */
  function Incremented(steps: seq<Step>, c: Customer): int {
    if steps == [] then 0
    else (if steps[0].Increment? && steps[0].c == c then steps[0].n else 0) + Incremented(steps[1..], c)
  }

  /** The sum of those that land on c between its read and its removal. */
  function InGap(s: System, steps: seq<Step>, c: Customer): int
    requires CanRun(s, steps)
    decreases |steps|
  {
    if steps == [] then 0
    else
      (if steps[0].Increment? && steps[0].c == c && Exposed(s.phase, c) then steps[0].n else 0)
      + InGap(Apply(s, steps[0]), steps[1..], c)
  }

  /** The sum over the run. */
  function DoubledIn(s: System, steps: seq<Step>, c: Customer): int
    requires CanRun(s, steps)
    decreases |steps|
  {
    if steps == [] then 0 else DoubledBy(s, steps[0], c) + DoubledIn(Apply(s, steps[0]), steps[1..], c)
  }

  /** What the gap has swallowed so far: already dropped, or about to be. */
  function Swallowed(s: System, c: Customer): int {
    At(s.lost, c) + if Exposed(s.phase, c) then At(s.late, c) else 0
  }

  lemma ReadExposes(s: System, k: Customer, c: Customer)
    requires Enabled(s, Read(k))
    ensures Exposed(Apply(s, Read(k)).phase, c) <==> Exposed(s.phase, c) || c == k
  {
    var entries := s.phase.entries;
    var longer := Apply(s, Read(k)).phase.entries;
    assert longer[|entries|].customer == k;
    assert forall i :: 0 <= i < |entries| ==> longer[i] == entries[i];
  }

  lemma RemoveSwallows(s: System, c: Customer)
    requires Sound(s) && Enabled(s, Remove)
    ensures Swallowed(Apply(s, Remove), c) == Swallowed(s, c)
  {
    RemoveShifts(s.phase.entries, s.phase.removed, c);
  }

  lemma UpdateSwallows(s: System, outcome: Outcome, c: Customer)
    requires Enabled(s, Update(outcome))
    ensures Swallowed(AfterUpdate(s, outcome), c) == Swallowed(s, c)
  {
  }

  lemma EndReadSwallows(s: System, c: Customer)
    requires Enabled(s, EndRead)
    ensures Swallowed(Apply(s, EndRead), c) == Swallowed(s, c)
  {
    assert s.phase.entries[0..] == s.phase.entries;
  }

  lemma ReadSwallows(s: System, k: Customer, c: Customer)
    requires Sound(s) && Enabled(s, Read(k))
    ensures Swallowed(Apply(s, Read(k)), c) == Swallowed(s, c)
  {
    ReadExposes(s, k, c);
  }

  lemma StepSwallows(s: System, step: Step, c: Customer)
    requires Sound(s) && Enabled(s, step)
    ensures Swallowed(Apply(s, step), c)
            == Swallowed(s, c) + if step.Increment? && step.c == c && Exposed(s.phase, c) then step.n else 0
  {
    match step
    case Read(k) => ReadSwallows(s, k, c);
    case EndRead => EndReadSwallows(s, c);
    case Remove => RemoveSwallows(s, c);
    case Update(outcome) => UpdateSwallows(s, outcome, c);
    case _ =>
  }

  lemma StepAdds(s: System, step: Step, c: Customer)
    requires Enabled(s, step)
    ensures At(Apply(s, step).total, c) == At(s.total, c) + if step.Increment? && step.c == c then step.n else 0
    ensures At(Apply(s, step).doubled, c) == At(s.doubled, c) + DoubledBy(s, step, c)
  {
    if step.Update? {
      UpdateBalances(s, step.outcome, c);
    }
  }

  lemma {:induction false} RunKeeps(s: System, steps: seq<Step>, c: Customer)
    requires Sound(s) && CanRun(s, steps)
    ensures Sound(After(s, steps))
    ensures Swallowed(After(s, steps), c) == Swallowed(s, c) + InGap(s, steps, c)
    ensures At(After(s, steps).total, c) == At(s.total, c) + Incremented(steps, c)
    ensures At(After(s, steps).doubled, c) == At(s.doubled, c) + DoubledIn(s, steps, c)
    decreases |steps|
  {
    if steps != [] {
      StepKeeps(s, steps[0]);
      StepSwallows(s, steps[0], c);
      StepAdds(s, steps[0], c);
      RunKeeps(Apply(s, steps[0]), steps[1..], c);
    }
  }

  lemma StartIsSound(db: map<Customer, int>)
    ensures Sound(Start(db))
  {
    assert forall c :: Conserved(Start(db), c);
  }

  lemma StepMatches(s: System, step: Step, c: Customer)
    requires Enabled(s, step) && c in s.db && At(s.unmatched, c) == 0
    ensures c in Apply(s, step).db && At(Apply(s, step).unmatched, c) == 0
  {
    if step.Update? {
      UpdateMatches(s, step.outcome, c);
    }
  }

  lemma UpdateMatches(s: System, outcome: Outcome, c: Customer)
    requires s.phase.Updating? && c in s.db && At(s.unmatched, c) == 0
    ensures c in AfterUpdate(s, outcome).db && At(AfterUpdate(s, outcome).unmatched, c) == 0
  {
  }

  /** Only customers without a row go unmatched. */
  lemma {:induction false} RowsAreMatched(s: System, steps: seq<Step>, c: Customer)
    requires CanRun(s, steps) && c in s.db && At(s.unmatched, c) == 0
    ensures c in After(s, steps).db && At(After(s, steps).unmatched, c) == 0
    decreases |steps|
  {
    if steps != [] {
      StepMatches(s, steps[0], c);
      RowsAreMatched(Apply(s, steps[0]), steps[1..], c);
    }
  }

  /** Exact accounting, in every interleaving: the initial count, every increment and
      every doubled credit is in the database, in the buffer, in flight, credited to no
      one because the customer row is missing, or was in the gap. */
  lemma ExactAccount(db: map<Customer, int>, steps: seq<Step>, c: Customer)
    requires CanRun(Start(db), steps)
    ensures var s := After(Start(db), steps);
      At(db, c) + Incremented(steps, c) + DoubledIn(Start(db), steps, c)
      == At(s.db, c) + At(s.pending, c) + InFlight(s.phase, c) + At(s.unmatched, c) + At(s.lost, c)
    ensures c in db ==> At(After(Start(db), steps).unmatched, c) == 0
  {
    StartIsSound(db);
    RunKeeps(Start(db), steps, c);
    if c in db {
      RowsAreMatched(Start(db), steps, c);
    }
    assert Conserved(After(Start(db), steps), c);
  }

  /** Between flushes the loss is exactly what landed in the gap, and so the count is
      conserved, failed updates or not, exactly if that equals what lost replies have
      doubled: with no lost reply, exactly if nothing is in the gap. */
  lemma LostIsTheGap(db: map<Customer, int>, steps: seq<Step>, c: Customer)
    requires CanRun(Start(db), steps) && After(Start(db), steps).phase.Idle?
    ensures var s := After(Start(db), steps);
      && At(s.lost, c) == InGap(Start(db), steps, c)
      && (At(db, c) + Incremented(steps, c) == At(s.db, c) + At(s.pending, c) + At(s.unmatched, c)
          <==> InGap(Start(db), steps, c) == DoubledIn(Start(db), steps, c))
  {
    StartIsSound(db);
    RunKeeps(Start(db), steps, c);
    ExactAccount(db, steps, c);
  }

  lemma {:induction false} NothingDoubled(s: System, steps: seq<Step>, c: Customer)
    requires CanRun(s, steps) && Update(ReplyLost) !in steps
    ensures DoubledIn(s, steps, c) == 0
    decreases |steps|
  {
    if steps != [] {
      assert steps[0] in steps;
      NothingDoubled(Apply(s, steps[0]), steps[1..], c);
    }
  }

  // ------------------------------------------------------------- the real code

  class Buffer {
    var pending: map<Customer, int>
    var customers: map<Customer, int>
    ghost var buffered: seq<Entry>

    /** The map holds, per customer, the sum of the increments since the last flush
        that reached the database. */
    ghost predicate Valid()
      reads this
    {
      forall c :: At(pending, c) == Find(buffered, c)
    }

    constructor (customers: map<Customer, int>)
      ensures Valid() && pending == map[] && this.customers == customers && buffered == []
    {
      pending, this.customers, buffered := map[], customers, [];
    }

    method Increment(c: Customer, count: int)
      requires Valid()
      modifies this`pending, this`buffered
      ensures Valid() && buffered == old(buffered) + [Entry(c, count)]
      ensures pending == Add(old(pending), c, count)
      ensures c in pending && pending[c] == (if c in old(pending) then old(pending)[c] else 0) + count
      ensures forall k :: k != c ==> (k in pending <==> k in old(pending))
      ensures forall k :: k != c && k in pending ==> pending[k] == old(pending)[k]
    {
      Put(c, count);
      forall k ensures Find(buffered + [Entry(c, count)], k) == At(pending, k) {
        FindAppend(buffered, Entry(c, count), k);
        assert At(old(pending), k) == Find(buffered, k);
      }
      buffered := buffered + [Entry(c, count)];
    }

    /** and_modify, or_insert. */
    method Put(c: Customer, count: int)
      modifies this`pending
      ensures pending == Add(old(pending), c, count)
    {
      if c in pending {
        pending := pending[c := pending[c] + count];
      } else {
        pending := pending[c := count];
      }
    }

    /** The sum of the customer's increments since the last flush that succeeded. */
    method PendingCount(c: Customer) returns (count: int)
      requires Valid()
      ensures count == Find(buffered, c)
    {
      assert At(pending, c) == Find(buffered, c);
      count := if c in pending then pending[c] else 0;
    }

    /** The iteration that collects one entry per key. */
    method ReadEntries() returns (entries: seq<Entry>)
      ensures Lists(entries, pending)
    {
      entries := [];
      var keys := pending.Keys;
      while keys != {}
        invariant keys <= pending.Keys
        invariant Distinct(entries)
        invariant forall c :: Has(entries, c) <==> c in pending.Keys - keys
        invariant forall i :: 0 <= i < |entries| ==>
                    entries[i].customer in pending && entries[i].count == pending[entries[i].customer]
        decreases |keys|
      {
        var c :| c in keys;
        HasAppend(entries, Entry(c, pending[c]));
        entries := entries + [Entry(c, pending[c])];
        keys := keys - {c};
      }
    }

    method RemoveEntries(entries: seq<Entry>)
      requires Lists(entries, pending)
      modifies this`pending
      ensures pending == map[]
    {
      ghost var before := pending;
      var i := 0;
      while i < |entries|
        invariant 0 <= i <= |entries|
        invariant forall c :: c in pending <==> Has(entries[i..], c)
      {
        RemoveAll(entries, i);
        pending := pending - {entries[i].customer};
        i := i + 1;
      }
      assert forall c :: c !in pending;
    }

    method RestoreEntries(entries: seq<Entry>, ghost before: map<Customer, int>)
      requires pending == map[] && Lists(entries, before)
      modifies this`pending
      ensures pending == before
    {
      var i := 0;
      while i < |entries|
        invariant 0 <= i <= |entries|
        invariant forall c :: c in pending <==> Has(entries[..i], c)
        invariant forall c :: c in pending ==> c in before && pending[c] == before[c]
      {
        RestoreOne(entries, i);
        Put(entries[i].customer, entries[i].count);
        i := i + 1;
      }
      assert entries[..i] == entries;
    }

    /** The flush when nothing else touches the buffer: an applied UPDATE adds every
        buffered count to its customer's row; unless it is reported as applied,
        everything is back in the buffer. */
    method Flush(outcome: Outcome)
      requires Valid()
      modifies this
      ensures Valid() && buffered == if outcome.Credited? then [] else old(buffered)
      ensures pending == if outcome.Credited? then map[] else old(pending)
      ensures customers.Keys == old(customers).Keys
      ensures forall c :: c in customers ==>
                customers[c] == old(customers)[c] + if outcome.Rejected? then 0 else At(old(pending), c)
    {
      if pending == map[] {
        buffered := if outcome.Credited? then [] else buffered;
        return;
      }
      var entries := ReadEntries();
      RemoveEntries(entries);
      if !outcome.Rejected? {
        forall c ensures Find(entries, c) == At(old(pending), c) {
          ReadAll(entries, old(pending), c);
        }
        customers := Credit(customers, entries);
      }
      if outcome.Credited? {
        buffered := [];
      } else {
        RestoreEntries(entries, old(pending));
      }
    }
  }

  /** The entries list the map, each key once. */
  ghost predicate Lists(entries: seq<Entry>, pending: map<Customer, int>) {
    && Distinct(entries)
    && (forall c :: Has(entries, c) <==> c in pending)
    && (forall i :: 0 <= i < |entries| ==>
          entries[i].customer in pending && entries[i].count == pending[entries[i].customer])
  }

  lemma HasAppend(entries: seq<Entry>, e: Entry)
    requires Distinct(entries) && !Has(entries, e.customer)
    ensures Distinct(entries + [e])
    ensures forall c :: Has(entries + [e], c) <==> Has(entries, c) || c == e.customer
  {
    var longer := entries + [e];
    assert longer[|entries|] == e;
    assert forall i :: 0 <= i < |entries| ==> longer[i] == entries[i];
  }

  lemma ReadAll(entries: seq<Entry>, pending: map<Customer, int>, c: Customer)
    requires Lists(entries, pending)
    ensures Find(entries, c) == At(pending, c)
  {
    if Has(entries, c) {
      var i :| 0 <= i < |entries| && entries[i].customer == c;
      FindDistinct(entries, i);
    } else {
      FindAbsent(entries, c);
    }
  }

  lemma RemoveAll(entries: seq<Entry>, i: nat)
    requires Distinct(entries) && i < |entries|
    ensures forall c :: Has(entries[i + 1..], c) <==> Has(entries[i..], c) && c != entries[i].customer
  {
    forall c ensures Has(entries[i + 1..], c) <==> Has(entries[i..], c) && c != entries[i].customer {
      RemoveShifts(entries, i, c);
    }
  }

  lemma RestoreOne(entries: seq<Entry>, i: nat)
    requires Distinct(entries) && i < |entries|
    ensures forall c :: Has(entries[..i + 1], c) <==> Has(entries[..i], c) || c == entries[i].customer
    ensures !Has(entries[..i], entries[i].customer)
  {
    assert entries[..i + 1][i] == entries[i];
    assert forall j :: 0 <= j < i ==> entries[..i + 1][j] == entries[..i][j];
  }
}
