/** The migration engine as a state machine: the database's schema, the tracking
    table, and what its operations do to both (migrations/migrator.go,
    migrations/tracker.go). */
module MigrationRuns {
  import opened Digraphs
  import opened StringOrder
  import opened MigrationOrder
  import opened SqlText

  /** `valid` is the verdict of MigrationValidator.Validate. */
  datatype Migration = Migration(version: string, source: string, checksum: string, valid: bool)
  datatype Id = Id(version: string, source: string)
  datatype Source = Source(name: string, migrations: seq<Migration>)
  datatype Status = Applied | Failed
  datatype Row = Row(status: Status, checksum: string)

  /** The user's part of the database. */
  type Schema = map<string, string>

  /** What became of one transaction: committed, refused by the migration, or
      lost because it could not begin or commit. */
  datatype Outcome = Committed(schema: Schema) | Refused | Lost

  /** An executor may answer differently at every attempt, counted by `moment`. */
  type Executor = (Migration, Schema, nat) -> Outcome

  datatype Config = Config(sources: seq<Source>, deps: Graph, up: Executor, down: Executor)

  /** A committed transaction. */
  datatype Effect = Did(m: Migration, before: Schema, after: Schema) | Undid(m: Migration, before: Schema, after: Schema)

  /** `journal` lists the committed transactions; the program does not see it. */
  datatype State = State(schema: Schema, rows: map<Id, Row>, moment: nat, journal: seq<Effect>)

  function IdOf(m: Migration): Id {
    Id(m.version, m.source)
  }

  function AllOf(sources: seq<Source>): seq<Migration> {
    if sources == [] then [] else AllOf(sources[..|sources| - 1]) + sources[|sources| - 1].migrations
  }

  function SourceNames(sources: seq<Source>): set<string> {
    set s | s in sources :: s.name
  }

  /** The graph the resolver holds once the migrations are loaded. */
  function SourceGraph(c: Config): Graph {
    map n | n in SourceNames(c.sources) + c.deps.Keys :: Targets(c.deps, n)
  }

  predicate DistinctIds(ms: seq<Migration>) {
    forall i, j :: 0 <= i < j < |ms| ==> IdOf(ms[i]) != IdOf(ms[j])
  }

  /** Migrations carry their source's name, and ids are distinct. */
  predicate WellFormed(c: Config) {
    && (forall s, m :: s in c.sources && m in s.migrations ==> m.source == s.name && ':' !in m.version)
    && DistinctIds(AllOf(c.sources))
  }

  predicate IsApplied(rows: map<Id, Row>, id: Id) {
    id in rows && rows[id].status == Applied
  }

  predicate Dirty(rows: map<Id, Row>) {
    exists id :: id in rows && rows[id].status == Failed
  }

  // --------------------------------------------------- one migration

  /** executeMigration: run, commit, record. A failed run is rolled back and
      upserts a failed row; recording is a plain insert. */
  function ExecuteUp(up: Executor, m: Migration, st: State): (State, bool) {
    var id, next := IdOf(m), st.moment + 1;
    match up(m, st.schema, st.moment)
    case Committed(after) =>
      var done := st.(schema := after, moment := next, journal := st.journal + [Did(m, st.schema, after)]);
      if id in st.rows then (done, false) else (done.(rows := st.rows[id := Row(Applied, m.checksum)]), true)
    case Refused =>
      (st.(moment := next, rows := st.rows[id := Row(Failed, if id in st.rows then st.rows[id].checksum else m.checksum)]), false)
    case Lost => (st.(moment := next), false)
  }

  /** executeDown: run, commit, delete the row. */
  function ExecuteDown(down: Executor, m: Migration, st: State): (State, bool) {
    var next := st.moment + 1;
    match down(m, st.schema, st.moment)
    case Committed(after) =>
      (State(after, st.rows - {IdOf(m)}, next, st.journal + [Undid(m, st.schema, after)]), true)
    case Refused => (st.(moment := next), false)
    case Lost => (st.(moment := next), false)
  }

  /** executeSequential with stop on error. */
  function RunUps(up: Executor, ms: seq<Migration>, st: State): (State, bool)
    decreases |ms|
  {
    if ms == [] then (st, true)
    else
      var (next, ok) := ExecuteUp(up, ms[0], st);
      if ok then RunUps(up, ms[1..], next) else (next, false)
  }

  /** DownTo's loop: from the last of the list to the first. */
  function RunDowns(down: Executor, ms: seq<Migration>, st: State): (State, bool)
    decreases |ms|
  {
    if ms == [] then (st, true)
    else
      var (next, ok) := ExecuteDown(down, ms[|ms| - 1], st);
      if ok then RunDowns(down, ms[..|ms| - 1], next) else (next, false)
  }

  // --------------------------------------------------- what an operation works on

  function FilterPending(ms: seq<Migration>, rows: map<Id, Row>): seq<Migration> {
    if ms == [] then []
    else FilterPending(ms[..|ms| - 1], rows) + if IsApplied(rows, IdOf(ms[|ms| - 1])) then [] else [ms[|ms| - 1]]
  }

  /** Position of a source in the order; 0 when it is not there. */
  function Priority(order: seq<string>, source: string): nat {
    if source !in order then 0 else PositionIn(order, source)
  }

  function PositionIn(order: seq<string>, source: string): (i: nat)
    requires source in order
    ensures i < |order| && order[i] == source && source !in order[..i]
  {
    if order[0] == source then 0
    else
      var i := PositionIn(order[1..], source);
      assert order[..i + 1] == [order[0]] + order[1..][..i];
      i + 1
  }

  /** The order of OrderMigrations: source priority, then version. */
  predicate NotAfter(order: seq<string>, a: Migration, b: Migration) {
    Priority(order, a.source) < Priority(order, b.source) ||
    (Priority(order, a.source) == Priority(order, b.source) && StringLeq(a.version, b.version))
  }

  predicate InOrder(order: seq<string>, ms: seq<Migration>) {
    forall i, j :: 0 <= i < j < |ms| ==> NotAfter(order, ms[i], ms[j])
  }

  /** What Pending returns: the migrations without an applied row, ordered. */
  ghost predicate IsPending(c: Config, st: State, p: seq<Migration>) {
    && multiset(p) == multiset(FilterPending(AllOf(c.sources), st.rows))
    && exists order :: IsOrder(SourceGraph(c), order) && InOrder(order, p)
  }

  function UpToVersion(p: seq<Migration>, version: string): seq<Migration> {
    if p == [] then []
    else UpToVersion(p[..|p| - 1], version) + if StringLeq(p[|p| - 1].version, version) then [p[|p| - 1]] else []
  }

  predicate ByVersion(ms: seq<Migration>) {
    forall i, j :: 0 <= i < j < |ms| ==> StringLeq(ms[i].version, ms[j].version)
  }

  predicate Newer(a: string, b: string) {
    StringLeq(b, a) && a != b
  }

  /** What DownTo reverts: the applied migrations with a newer version, oldest
      first, each found in the sources. */
  ghost predicate IsRevertList(c: Config, st: State, version: string, r: seq<Migration>) {
    && ByVersion(r) && DistinctIds(r)
    && (forall m :: m in r ==> m in AllOf(c.sources) && IsApplied(st.rows, IdOf(m)) && Newer(m.version, version))
    && (forall id :: IsApplied(st.rows, id) && Newer(id.version, version) ==> exists m :: m in r && IdOf(m) == id)
  }

  ghost predicate IsMostRecent(rows: map<Id, Row>, id: Id) {
    IsApplied(rows, id) && forall other :: IsApplied(rows, other) ==> StringLeq(other.version, id.version)
  }

  ghost predicate ChecksumsMatch(c: Config, rows: map<Id, Row>) {
    forall m :: m in AllOf(c.sources) && IsApplied(rows, IdOf(m)) ==> rows[IdOf(m)].checksum == m.checksum
  }

  predicate BatchValid(ms: seq<Migration>) {
    (forall m :: m in ms ==> m.valid) && DistinctIds(ms)
  }

  // --------------------------------------------------- operations

  /** The number at these places of a text of digits. */
  function NumberAt(s: string, i: nat, j: nat): nat
    requires i <= j <= |s| && AllDigits(s)
  {
    Number(s[i..j])
  }

  predicate IsLeap(year: nat) {
    year % 4 == 0 && (year % 100 != 0 || year % 400 == 0)
  }

  function DaysIn(year: nat, month: nat): nat {
    if month == 2 then if IsLeap(year) then 29 else 28
    else if month in {4, 6, 9, 11} then 30 else 31
  }

  /** ValidateTimestamp: 14 or 17 digits that are a date and a time of day. */
  predicate IsTimestamp(version: string) {
    && (|version| == 14 || |version| == 17) && AllDigits(version)
    && 1 <= NumberAt(version, 4, 6) <= 12
    && 1 <= NumberAt(version, 6, 8) <= DaysIn(NumberAt(version, 0, 4), NumberAt(version, 4, 6))
    && NumberAt(version, 8, 10) < 24 && NumberAt(version, 10, 12) < 60 && NumberAt(version, 12, 14) < 60
  }

  /** Every fourth year, but of full centuries only every fourth. */
  lemma LeapMeans(century: nat, year: nat)
    requires year < 100
    ensures IsLeap(100 * century + year) <==> if year == 0 then century % 4 == 0 else year % 4 == 0
  {
    var y := 100 * century + year;
    assert y % 4 == year % 4 && y % 100 == year;
    if year == 0 { assert y == 400 * (century / 4) + 100 * (century % 4); }
  }

  /** Days of a month, told one by one. */
  lemma DaysMean(y: nat, m: nat, d: nat)
    requires 1 <= m <= 12
    ensures d <= DaysIn(y, m) <==>
            d <= 28 || (d == 29 && m == 2 && IsLeap(y)) || (d <= 30 && m != 2) || (d == 31 && m in {1, 3, 5, 7, 8, 10, 12})
  {}

  /** Which texts are time stamps: digits for year, month, day, hour, minute and
      second, and perhaps three more. */
  lemma TimestampMeans(v: string)
    requires |v| >= 14 && AllDigits(v)
    ensures
      var y, m, d := NumberAt(v, 0, 4), NumberAt(v, 4, 6), NumberAt(v, 6, 8);
      IsTimestamp(v) <==>
        && |v| in {14, 17} && 1 <= m <= 12 && d >= 1
        && (d <= 28 || (d == 29 && m == 2 && IsLeap(y)) || (d <= 30 && m != 2) || (d == 31 && m in {1, 3, 5, 7, 8, 10, 12}))
        && NumberAt(v, 8, 10) <= 23 && NumberAt(v, 10, 12) <= 59 && NumberAt(v, 12, 14) <= 59
  {
    if 1 <= NumberAt(v, 4, 6) <= 12 { DaysMean(NumberAt(v, 0, 4), NumberAt(v, 4, 6), NumberAt(v, 6, 8)); }
  }

  datatype Op = Up | UpOne | UpTo(version: string) | Down | DownTo(version: string)

  /** Nothing to do, or a check refuses: dirty table, cyclic sources, all applied. */
  ghost predicate Blocked(c: Config, st: State) {
    Dirty(st.rows) || !Acyclic(SourceGraph(c)) || FilterPending(AllOf(c.sources), st.rows) == []
  }

  ghost predicate UpStep(c: Config, st: State, st': State) {
    if Blocked(c, st) || !BatchValid(AllOf(c.sources)) || !ChecksumsMatch(c, st.rows) then st' == st
    else exists p :: IsPending(c, st, p) && st' == RunUps(c.up, p, st).0
  }

  ghost predicate UpOneStep(c: Config, st: State, st': State) {
    if Blocked(c, st) then st' == st
    else exists p :: IsPending(c, st, p) && p != [] && st' == ExecuteUp(c.up, p[0], st).0
  }

  ghost predicate UpToStep(c: Config, version: string, st: State, st': State) {
    if Blocked(c, st) || !IsTimestamp(version) then st' == st
    else exists p :: IsPending(c, st, p) && st' == RunUps(c.up, UpToVersion(p, version), st).0
  }

  ghost predicate DownStep(c: Config, st: State, st': State) {
    if NoneApplied(st.rows) then st' == st
    else exists id :: IsMostRecent(st.rows, id) && if Listed(c, id) then RevertsId(c, id, st, st') else st' == st
  }

  ghost predicate NoneApplied(rows: map<Id, Row>) {
    forall id :: !IsApplied(rows, id)
  }

  /** findMigration finds a migration. */
  ghost predicate Listed(c: Config, id: Id) {
    exists m :: m in AllOf(c.sources) && IdOf(m) == id
  }

  ghost predicate RevertsId(c: Config, id: Id, st: State, st': State) {
    exists m :: m in AllOf(c.sources) && IdOf(m) == id && st' == ExecuteDown(c.down, m, st).0
  }

  ghost predicate DownToStep(c: Config, version: string, st: State, st': State) {
    if !IsTimestamp(version) || !AllListed(c, st.rows, version) then st' == st
    else exists r :: IsRevertList(c, st, version, r) && st' == RunDowns(c.down, r, st).0
  }

  ghost predicate AllListed(c: Config, rows: map<Id, Row>, version: string) {
    forall id :: IsApplied(rows, id) && Newer(id.version, version) ==> Listed(c, id)
  }

  ghost predicate Step(c: Config, op: Op, st: State, st': State) {
    match op
    case Up => UpStep(c, st, st')
    case UpOne => UpOneStep(c, st, st')
    case UpTo(version) => UpToStep(c, version, st, st')
    case Down => DownStep(c, st, st')
    case DownTo(version) => DownToStep(c, version, st, st')
  }

  /** A run: every state follows from the one before by its operation. */
  ghost predicate Run(c: Config, ops: seq<Op>, states: seq<State>) {
    |states| == |ops| + 1 && forall i :: 0 <= i < |ops| ==> Step(c, ops[i], states[i], states[i + 1])
  }

  // --------------------------------------------------- effects and rows

  /** The committed and not reverted transactions, oldest first. */
  function Open(journal: seq<Effect>): seq<Effect> {
    if journal == [] then []
    else
      var e, earlier := journal[|journal| - 1], Open(journal[..|journal| - 1]);
      if e.Did? then earlier + [e] else Without(earlier, IdOf(e.m))
  }

  function Without(es: seq<Effect>, id: Id): seq<Effect> {
    if es == [] then []
    else Without(es[..|es| - 1], id) + if IdOf(es[|es| - 1].m) == id then [] else [es[|es| - 1]]
  }

  predicate IsOpen(journal: seq<Effect>, id: Id) {
    exists e :: e in Open(journal) && IdOf(e.m) == id
  }

  /** The journal leads from one schema to the other, and no migration is done
      twice without being undone, or undone without being done. */
  predicate History(initial: Schema, journal: seq<Effect>, schema: Schema) {
    if journal == [] then schema == initial
    else
      var e, earlier := journal[|journal| - 1], journal[..|journal| - 1];
      e.after == schema && History(initial, earlier, e.before) && (e.Did? <==> !IsOpen(earlier, IdOf(e.m)))
  }

  /** The applied rows are exactly the migrations with an open effect. */
  ghost predicate Consistent(c: Config, initial: Schema, st: State) {
    && History(initial, st.journal, st.schema)
    && (forall id :: IsApplied(st.rows, id) <==> IsOpen(st.journal, id))
    && (forall id :: id in st.rows ==> exists m :: m in AllOf(c.sources) && IdOf(m) == id)
    && ChecksumsMatch(c, st.rows)
  }

  lemma {:induction false} WithoutMembers(es: seq<Effect>, id: Id)
    ensures forall e :: e in Without(es, id) <==> e in es && IdOf(e.m) != id
  {
    if es != [] {
      WithoutMembers(es[..|es| - 1], id);
      assert es == es[..|es| - 1] + [es[|es| - 1]];
    }
  }

  lemma OpenAfter(journal: seq<Effect>, e: Effect, id: Id)
    ensures IsOpen(journal + [e], id) <==> if id == IdOf(e.m) then e.Did? else IsOpen(journal, id)
  {
    assert (journal + [e])[..|journal|] == journal;
    var before, after := Open(journal), Open(journal + [e]);
    WithoutMembers(before, IdOf(e.m));
    if e.Did? {
      assert after == before + [e];
      assert forall x :: x in after <==> x in before || x == e;
    }
  }

  lemma HistoryAfter(initial: Schema, journal: seq<Effect>, e: Effect)
    requires History(initial, journal, e.before) && (e.Did? <==> !IsOpen(journal, IdOf(e.m)))
    ensures History(initial, journal + [e], e.after)
  {
    assert (journal + [e])[..|journal|] == journal;
  }

  lemma UpKeepsConsistent(c: Config, initial: Schema, m: Migration, st: State)
    requires Consistent(c, initial, st) && WellFormed(c) && m in AllOf(c.sources) && IdOf(m) !in st.rows
    ensures Consistent(c, initial, ExecuteUp(c.up, m, st).0)
    ensures ExecuteUp(c.up, m, st).0.rows.Keys <= st.rows.Keys + {IdOf(m)}
  {
    match c.up(m, st.schema, st.moment)
    case Committed(after) =>
      var e := Did(m, st.schema, after);
      HistoryAfter(initial, st.journal, e);
      forall id ensures IsApplied(st.rows[IdOf(m) := Row(Applied, m.checksum)], id) <==> IsOpen(st.journal + [e], id) {
        OpenAfter(st.journal, e, id);
      }
      UniqueId(c, m);
    case Refused =>
    case Lost =>
  }

  lemma UniqueId(c: Config, m: Migration)
    requires WellFormed(c) && m in AllOf(c.sources)
    ensures forall other :: other in AllOf(c.sources) && IdOf(other) == IdOf(m) ==> other == m
  {
    var all := AllOf(c.sources);
    forall other | other in all && IdOf(other) == IdOf(m) ensures other == m {
      var i :| 0 <= i < |all| && all[i] == m;
      var j :| 0 <= j < |all| && all[j] == other;
    }
  }

  lemma DownKeepsConsistent(c: Config, initial: Schema, m: Migration, st: State)
    requires Consistent(c, initial, st) && IsApplied(st.rows, IdOf(m))
    ensures
      var after := ExecuteDown(c.down, m, st).0;
      Consistent(c, initial, after) && (after.rows == st.rows || after.rows == st.rows - {IdOf(m)})
  {
    match c.down(m, st.schema, st.moment)
    case Committed(after) =>
      var e := Undid(m, st.schema, after);
      HistoryAfter(initial, st.journal, e);
      forall id ensures IsApplied(st.rows - {IdOf(m)}, id) <==> IsOpen(st.journal + [e], id) {
        OpenAfter(st.journal, e, id);
      }
    case Refused =>
    case Lost =>
  }

  lemma {:induction false} RunUpsKeepConsistent(c: Config, initial: Schema, ms: seq<Migration>, st: State)
    requires Consistent(c, initial, st) && WellFormed(c) && DistinctIds(ms)
    requires forall m :: m in ms ==> m in AllOf(c.sources) && IdOf(m) !in st.rows
    ensures Consistent(c, initial, RunUps(c.up, ms, st).0)
    decreases |ms|
  {
    if ms != [] {
      UpKeepsConsistent(c, initial, ms[0], st);
      var (next, ok) := ExecuteUp(c.up, ms[0], st);
      if ok {
        forall m | m in ms[1..] ensures m in AllOf(c.sources) && IdOf(m) !in next.rows {
          var j :| 0 <= j < |ms[1..]| && ms[1..][j] == m;
          assert ms[j + 1] == m && IdOf(ms[0]) != IdOf(ms[j + 1]);
        }
        RunUpsKeepConsistent(c, initial, ms[1..], next);
      }
    }
  }

  lemma StillApplied(ms: seq<Migration>, rows: map<Id, Row>, after: map<Id, Row>)
    requires ms != [] && DistinctIds(ms) && forall m :: m in ms ==> IsApplied(rows, IdOf(m))
    requires after == rows || after == rows - {IdOf(ms[|ms| - 1])}
    ensures DistinctIds(ms[..|ms| - 1]) && forall m :: m in ms[..|ms| - 1] ==> IsApplied(after, IdOf(m))
  {
    var last := |ms| - 1;
    forall m | m in ms[..last] ensures IsApplied(after, IdOf(m)) {
      var j :| 0 <= j < last && ms[j] == m;
      assert IdOf(ms[j]) != IdOf(ms[last]);
    }
  }

  lemma {:induction false} RunDownsKeepConsistent(c: Config, initial: Schema, ms: seq<Migration>, st: State)
    requires Consistent(c, initial, st) && DistinctIds(ms)
    requires forall m :: m in ms ==> IsApplied(st.rows, IdOf(m))
    ensures Consistent(c, initial, RunDowns(c.down, ms, st).0)
    decreases |ms|
  {
    if ms != [] {
      var last := |ms| - 1;
      DownKeepsConsistent(c, initial, ms[last], st);
      var (next, ok) := ExecuteDown(c.down, ms[last], st);
      if ok {
        StillApplied(ms, st.rows, next.rows);
        RunDownsKeepConsistent(c, initial, ms[..last], next);
      }
    }
  }

  // --------------------------------------------------- pending migrations

  lemma {:induction false} FilterPendingMembers(ms: seq<Migration>, rows: map<Id, Row>)
    ensures forall m :: m in FilterPending(ms, rows) <==> m in ms && !IsApplied(rows, IdOf(m))
    ensures DistinctIds(ms) ==> DistinctIds(FilterPending(ms, rows))
  {
    if ms != [] {
      var k := |ms| - 1;
      FilterPendingMembers(ms[..k], rows);
      LastMember(ms);
      if DistinctIds(ms) {
        DistinctPrefix(ms, k);
        DistinctWithLast(ms, FilterPending(ms[..k], rows));
      }
    }
  }

  lemma LastMember(ms: seq<Migration>)
    requires ms != []
    ensures forall m :: m in ms <==> m in ms[..|ms| - 1] || m == ms[|ms| - 1]
  {
    assert ms == ms[..|ms| - 1] + [ms[|ms| - 1]];
  }

  lemma DistinctPrefix(ms: seq<Migration>, k: nat)
    requires DistinctIds(ms) && k <= |ms|
    ensures DistinctIds(ms[..k])
  {}

  lemma DistinctWithLast(ms: seq<Migration>, p: seq<Migration>)
    requires ms != [] && DistinctIds(ms) && DistinctIds(p) && forall m :: m in p ==> m in ms[..|ms| - 1]
    ensures DistinctIds(p + [ms[|ms| - 1]])
  {
    var k := |ms| - 1;
    forall i | 0 <= i < |p| ensures IdOf(p[i]) != IdOf(ms[k]) {
      assert p[i] in p;
      var j :| 0 <= j < k && ms[..k][j] == p[i];
      assert ms[j] == p[i];
    }
  }

  lemma {:induction false} TwiceInMultiset(ms: seq<Migration>, i: nat, j: nat)
    requires i < j < |ms| && ms[i] == ms[j]
    ensures multiset(ms)[ms[i]] >= 2
  {
    assert ms == ms[..j] + ms[j..];
    assert ms[i] in ms[..j] && ms[j] in ms[j..];
  }

  lemma {:induction false} OnceInMultiset(ms: seq<Migration>, m: Migration)
    requires DistinctIds(ms)
    ensures multiset(ms)[m] <= 1
  {
    if ms != [] {
      assert ms == [ms[0]] + ms[1..];
      assert DistinctIds(ms[1..]);
      OnceInMultiset(ms[1..], m);
      if m == ms[0] {
        assert m !in ms[1..];
      }
    }
  }

  lemma PermutationKeepsDistinct(a: seq<Migration>, b: seq<Migration>)
    requires multiset(a) == multiset(b) && DistinctIds(a)
    ensures DistinctIds(b) && forall m :: m in b <==> m in a
  {
    forall m ensures m in b <==> m in a { assert m in b <==> m in multiset(b); }
    forall i, j | 0 <= i < j < |b| ensures IdOf(b[i]) != IdOf(b[j]) {
      if b[i] == b[j] {
        TwiceInMultiset(b, i, j);
        OnceInMultiset(a, b[i]);
      }
      assert b[i] in a && b[j] in a;
      var k :| 0 <= k < |a| && a[k] == b[i];
      var l :| 0 <= l < |a| && a[l] == b[j];
    }
  }

  /** What is pending: distinct, not applied, and in a clean table without row. */
  lemma PendingFacts(c: Config, st: State, p: seq<Migration>)
    requires DistinctIds(AllOf(c.sources)) && IsPending(c, st, p)
    ensures DistinctIds(p) && forall m :: m in p <==> m in AllOf(c.sources) && !IsApplied(st.rows, IdOf(m))
    ensures !Dirty(st.rows) ==> forall m :: m in p ==> IdOf(m) !in st.rows
  {
    FilterPendingMembers(AllOf(c.sources), st.rows);
    PermutationKeepsDistinct(FilterPending(AllOf(c.sources), st.rows), p);
    if !Dirty(st.rows) {
      assert forall id :: id in st.rows ==> IsApplied(st.rows, id);
    }
  }

  lemma {:induction false} UpToVersionFacts(p: seq<Migration>, version: string)
    ensures forall m :: m in UpToVersion(p, version) <==> m in p && StringLeq(m.version, version)
    ensures DistinctIds(p) ==> DistinctIds(UpToVersion(p, version))
  {
    if p != [] {
      var k := |p| - 1;
      UpToVersionFacts(p[..k], version);
      LastMember(p);
      if DistinctIds(p) {
        DistinctPrefix(p, k);
        DistinctWithLast(p, UpToVersion(p[..k], version));
      }
    }
  }

  // --------------------------------------------------- main results: every run

  /** Every operation keeps rows and effects together. */
  lemma StepKeepsConsistent(c: Config, initial: Schema, op: Op, st: State, st': State)
    requires WellFormed(c) && Consistent(c, initial, st) && Step(c, op, st, st')
    ensures Consistent(c, initial, st')
  {
    if st' == st { return; }
    match op
    case Up =>
      var p :| IsPending(c, st, p) && st' == RunUps(c.up, p, st).0;
      PendingFacts(c, st, p);
      RunUpsKeepConsistent(c, initial, p, st);
    case UpOne =>
      var p :| IsPending(c, st, p) && p != [] && st' == ExecuteUp(c.up, p[0], st).0;
      PendingFacts(c, st, p);
      UpKeepsConsistent(c, initial, p[0], st);
    case UpTo(version) =>
      var p :| IsPending(c, st, p) && st' == RunUps(c.up, UpToVersion(p, version), st).0;
      PendingFacts(c, st, p);
      UpToVersionFacts(p, version);
      RunUpsKeepConsistent(c, initial, UpToVersion(p, version), st);
    case Down =>
      var m :| m in AllOf(c.sources) && IsApplied(st.rows, IdOf(m)) && st' == ExecuteDown(c.down, m, st).0;
      DownKeepsConsistent(c, initial, m, st);
    case DownTo(version) =>
      var r :| IsRevertList(c, st, version, r) && st' == RunDowns(c.down, r, st).0;
      RunDownsKeepConsistent(c, initial, r, st);
  }

  /** Over every run from a consistent state, in every state: the applied rows
      are exactly the migrations whose effect is committed and not reverted. */
  lemma {:induction false} RunsStayConsistent(c: Config, initial: Schema, ops: seq<Op>, states: seq<State>, k: nat)
    requires WellFormed(c) && Run(c, ops, states) && Consistent(c, initial, states[0]) && k <= |ops|
    ensures Consistent(c, initial, states[k])
  {
    if k > 0 {
      RunsStayConsistent(c, initial, ops, states, k - 1);
      StepKeepsConsistent(c, initial, ops[k - 1], states[k - 1], states[k]);
    }
  }

  /** A new database is consistent. */
  lemma EmptyIsConsistent(c: Config, initial: Schema, moment: nat)
    ensures Consistent(c, initial, State(initial, map[], moment, []))
  {}

  /** While a failed row exists, Up, UpOne and UpTo change nothing. */
  lemma DirtyBlocks(c: Config, op: Op, st: State, st': State)
    requires Dirty(st.rows) && (op.Up? || op.UpOne? || op.UpTo?) && Step(c, op, st, st')
    ensures st' == st
  {}

  /** The first k migrations were done and recorded; the next one, if it ran at
      all, left no effect, and a failed row exactly when it was refused. */
  ghost predicate DoneUpTo(up: Executor, ms: seq<Migration>, st: State, k: nat) {
    k <= |ms| && RunUps(up, ms[..k], st).1 && RunUps(up, ms[..k], st).0.rows == st.rows + RecordsOf(ms[..k])
    && LeavesAtMostAFailure(up, ms, k, RunUps(up, ms[..k], st).0, RunUps(up, ms, st).0)
    && (k == |ms| <==> RunUps(up, ms, st).1)
  }

  predicate LeavesAtMostAFailure(up: Executor, ms: seq<Migration>, k: nat, last: State, end: State) {
    && end.schema == last.schema && end.journal == last.journal
    && end.rows == if k < |ms| && up(ms[k], last.schema, last.moment).Refused? then last.rows[IdOf(ms[k]) := Row(Failed, ms[k].checksum)] else last.rows
  }

  lemma DoneOneMore(up: Executor, ms: seq<Migration>, st: State, next: State, k: nat)
    requires ms != [] && IdOf(ms[0]) !in st.rows && ExecuteUp(up, ms[0], st) == (next, true)
    requires DoneUpTo(up, ms[1..], next, k)
    ensures DoneUpTo(up, ms, st, k + 1)
  {
    assert ms[..k + 1][0] == ms[0] && ms[..k + 1][1..] == ms[1..][..k];
    assert next.rows == st.rows[IdOf(ms[0]) := Row(Applied, ms[0].checksum)];
    RecordsFirst(st.rows, ms[0], ms[1..][..k]);
    assert ms[..k + 1] == [ms[0]] + ms[1..][..k];
  }

  lemma RecordsFirst(rows: map<Id, Row>, m: Migration, ms: seq<Migration>)
    ensures rows[IdOf(m) := Row(Applied, m.checksum)] + RecordsOf(ms) == rows + RecordsOf([m] + ms)
  {
    assert ([m] + ms)[1..] == ms;
  }

  lemma DoneNone(up: Executor, ms: seq<Migration>, st: State)
    requires ms != [] && IdOf(ms[0]) !in st.rows && !ExecuteUp(up, ms[0], st).1
    ensures DoneUpTo(up, ms, st, 0)
  {
    assert ms[..0] == [];
    assert st.rows + RecordsOf([]) == st.rows;
  }

  /** A run of ups leaves the effects of a first part of the list, all recorded,
      and one failed row exactly when the next migration was refused. */
  lemma {:induction false} StoppedRunLeavesOneFailure(up: Executor, ms: seq<Migration>, st: State) returns (k: nat)
    requires DistinctIds(ms) && forall m :: m in ms ==> IdOf(m) !in st.rows
    ensures DoneUpTo(up, ms, st, k)
    decreases |ms|
  {
    k := 0;
    if ms == [] {
      assert st.rows + RecordsOf([]) == st.rows;
    } else {
      var (next, ok) := ExecuteUp(up, ms[0], st);
      if ok {
        forall m | m in ms[1..] ensures IdOf(m) !in next.rows {
          var j :| 0 <= j < |ms[1..]| && ms[1..][j] == m;
          assert ms[j + 1] == m && IdOf(ms[0]) != IdOf(ms[j + 1]);
        }
        k := StoppedRunLeavesOneFailure(up, ms[1..], next);
        DoneOneMore(up, ms, st, next, k);
        k := k + 1;
      } else {
        DoneNone(up, ms, st);
      }
    }
  }

  function RecordsOf(ms: seq<Migration>): map<Id, Row> {
    if ms == [] then map[] else map[IdOf(ms[0]) := Row(Applied, ms[0].checksum)] + RecordsOf(ms[1..])
  }

  lemma {:induction false} RecordsHold(ms: seq<Migration>, id: Id)
    ensures id in RecordsOf(ms) <==> exists i :: 0 <= i < |ms| && IdOf(ms[i]) == id
    ensures id in RecordsOf(ms) ==> RecordsOf(ms)[id].status == Applied
  {
    if ms != [] {
      RecordsHold(ms[1..], id);
      if i :| 0 <= i < |ms[1..]| && IdOf(ms[1..][i]) == id { assert IdOf(ms[i + 1]) == id; }
      if i :| 0 <= i < |ms| && IdOf(ms[i]) == id {
        if i > 0 { assert IdOf(ms[1..][i - 1]) == id; }
      }
    }
  }

  /** When Up ends without error every migration of the sources is applied. */
  lemma CompletedUpAppliesAll(c: Config, st: State, p: seq<Migration>)
    requires DistinctIds(AllOf(c.sources)) && IsPending(c, st, p) && !Dirty(st.rows) && RunUps(c.up, p, st).1
    ensures forall m :: m in AllOf(c.sources) ==> IsApplied(RunUps(c.up, p, st).0.rows, IdOf(m))
  {
    PendingFacts(c, st, p);
    var k := StoppedRunLeavesOneFailure(c.up, p, st);
    assert p[..|p|] == p;
    forall m | m in AllOf(c.sources) ensures IsApplied(RunUps(c.up, p, st).0.rows, IdOf(m)) {
      RecordsHold(p, IdOf(m));
      if !IsApplied(st.rows, IdOf(m)) {
        assert m in p;
        var i :| 0 <= i < |p| && p[i] == m;
        assert IdOf(p[i]) == IdOf(m);
      }
    }
  }

  /** When DownTo ends without error nothing newer than its target is applied. */
  lemma {:induction false} CompletedDownsRemove(down: Executor, ms: seq<Migration>, st: State)
    requires RunDowns(down, ms, st).1
    ensures RunDowns(down, ms, st).0.rows.Keys == st.rows.Keys - set m | m in ms :: IdOf(m)
    ensures forall id :: id in RunDowns(down, ms, st).0.rows ==> RunDowns(down, ms, st).0.rows[id] == st.rows[id]
    decreases |ms|
  {
    if ms != [] {
      var (next, ok) := ExecuteDown(down, ms[|ms| - 1], st);
      LastMember(ms);
      CompletedDownsRemove(down, ms[..|ms| - 1], next);
    }
  }
}
