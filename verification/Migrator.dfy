/** The migrator and its tracking table as objects, proved against the state
    machine of MigrationRuns (migrations/migrator.go, migrations/tracker.go). */
module Migrators {
  import opened Digraphs
  import opened StringOrder
  import opened MigrationOrder
  import opened MigrationRuns

  datatype MigrationStatus = MigrationStatus(id: Id, row: Row)

  datatype Error =
    | Success | InvalidVersion | DirtyDatabase | NoMigrations | InvalidBatch | ChecksumMismatch
    | NoPending | CircularDependency | MigrationFailed | NotFound | NothingToRevert

  // --------------------------------------------------- keys

  /** The key of the maps that match rows with migrations. */
  function KeyOf(id: Id): string {
    id.version + ":" + id.source
  }

  predicate PlainId(id: Id) {
    ':' !in id.version
  }

  lemma KeyInjective(a: Id, b: Id)
    requires PlainId(a) && PlainId(b) && KeyOf(a) == KeyOf(b)
    ensures a == b
  {
    VersionIsBeforeColon(a.version, ":" + a.source);
    VersionIsBeforeColon(b.version, ":" + b.source);
    assert a.version + (":" + a.source) == KeyOf(a) && b.version + (":" + b.source) == KeyOf(b);
    assert KeyOf(a)[|a.version| + 1..] == a.source && KeyOf(b)[|b.version| + 1..] == b.source;
  }

  function BeforeColon(s: string): string {
    if s == "" || s[0] == ':' then "" else [s[0]] + BeforeColon(s[1..])
  }

  lemma {:induction false} VersionIsBeforeColon(version: string, rest: string)
    requires ':' !in version && rest != "" && rest[0] == ':'
    ensures BeforeColon(version + rest) == version
  {
    if version == "" {
      assert version + rest == rest;
    } else {
      assert (version + rest)[0] == version[0] && (version + rest)[1..] == version[1..] + rest;
      VersionIsBeforeColon(version[1..], rest);
    }
  }

  ghost predicate PlainIds(rows: map<Id, Row>) {
    forall id :: id in rows ==> PlainId(id)
  }

  predicate PlainVersions(ms: seq<Migration>) {
    forall m :: m in ms ==> PlainId(IdOf(m))
  }

  // --------------------------------------------------- the tracking table

  /** All rows, each once, by version; rows of one version in any order. */
  ghost predicate ListsRows(rows: map<Id, Row>, statuses: seq<MigrationStatus>) {
    && (forall i :: 0 <= i < |statuses| ==> statuses[i].id in rows && rows[statuses[i].id] == statuses[i].row)
    && (forall id :: id in rows ==> exists i :: 0 <= i < |statuses| && statuses[i].id == id)
    && OldestFirst(statuses)
  }

  predicate OldestFirst(statuses: seq<MigrationStatus>) {
    forall i, j :: 0 <= i < j < |statuses| ==>
      statuses[i].id != statuses[j].id && StringLeq(statuses[i].id.version, statuses[j].id.version)
  }

  lemma {:induction false} OldestExists(ids: set<Id>) returns (oldest: Id)
    requires ids != {}
    ensures oldest in ids && forall other :: other in ids ==> StringLeq(oldest.version, other.version)
    decreases |ids|
  {
    oldest :| oldest in ids;
    LeqTotal(oldest.version, oldest.version);
    var rest := ids - {oldest};
    if rest != {} {
      var second := OldestExists(rest);
      LeqTotal(oldest.version, second.version);
      if StringLeq(oldest.version, second.version) {
        forall other | other in ids ensures StringLeq(oldest.version, other.version) {
          if other in rest { LeqTransitive(oldest.version, second.version, other.version); }
        }
      } else {
        oldest := second;
      }
    }
  }

  lemma ListsOneMore(rows: map<Id, Row>, statuses: seq<MigrationStatus>, id: Id, row: Row)
    requires ListsRows(rows, statuses) && id !in rows
    requires forall i :: 0 <= i < |statuses| ==> StringLeq(statuses[i].id.version, id.version)
    ensures ListsRows(rows[id := row], statuses + [MigrationStatus(id, row)])
  {
    var more, table := statuses + [MigrationStatus(id, row)], rows[id := row];
    forall x | x in table ensures exists i :: 0 <= i < |more| && more[i].id == x {
      if x == id {
        assert more[|statuses|].id == x;
      } else {
        var i :| 0 <= i < |statuses| && statuses[i].id == x;
        assert more[i].id == x;
      }
    }
  }

  /** The lookup table of VerifyChecksums. */
  function IndexByKey(statuses: seq<MigrationStatus>): map<string, Row> {
    if statuses == [] then map[]
    else
      var last := statuses[|statuses| - 1];
      IndexByKey(statuses[..|statuses| - 1])[KeyOf(last.id) := last.row]
  }

  predicate PlainStatuses(statuses: seq<MigrationStatus>) {
    forall i :: 0 <= i < |statuses| ==> PlainId(statuses[i].id)
  }

  lemma {:induction false} IndexFinds(statuses: seq<MigrationStatus>, id: Id)
    requires PlainStatuses(statuses) && OldestFirst(statuses) && PlainId(id)
    ensures
      var byKey := IndexByKey(statuses);
      && (KeyOf(id) in byKey <==> exists i :: 0 <= i < |statuses| && statuses[i].id == id)
      && (forall i :: 0 <= i < |statuses| && statuses[i].id == id ==> byKey[KeyOf(id)] == statuses[i].row)
  {
    if statuses != [] {
      var k := |statuses| - 1;
      IndexFinds(statuses[..k], id);
      if KeyOf(statuses[k].id) == KeyOf(id) { KeyInjective(statuses[k].id, id); }
      forall i | 0 <= i < k && statuses[i].id == id ensures statuses[..k][i].id == id && statuses[i].id != statuses[k].id {}
      if i :| 0 <= i < k && statuses[..k][i].id == id { assert statuses[i].id == id; }
    }
  }

  class MigrationTracker {
    var rows: map<Id, Row>

    constructor ()
      ensures rows == map[]
    {
      rows := map[];
    }

    /** A plain insert: refused when the key is taken. */
    method RecordMigration(m: Migration) returns (ok: bool)
      modifies this
      ensures ok == (IdOf(m) !in old(rows))
      ensures rows == if ok then old(rows)[IdOf(m) := Row(Applied, m.checksum)] else old(rows)
    {
      if IdOf(m) in rows {
        return false;
      }
      rows := rows[IdOf(m) := Row(Applied, m.checksum)];
      return true;
    }

    /** An upsert: on a conflict the row keeps its checksum. */
    method RecordFailedMigration(m: Migration)
      modifies this
      ensures rows == old(rows)[IdOf(m) := Row(Failed, if IdOf(m) in old(rows) then old(rows)[IdOf(m)].checksum else m.checksum)]
    {
      rows := rows[IdOf(m) := Row(Failed, if IdOf(m) in rows then rows[IdOf(m)].checksum else m.checksum)];
    }

    method RemoveMigration(id: Id)
      modifies this
      ensures rows == old(rows) - {id}
    {
      rows := rows - {id};
    }

    method CheckForDirtyDatabase() returns (clean: bool)
      ensures clean <==> !Dirty(rows)
    {
      var failed := set id | id in rows && rows[id].status == Failed;
      clean := failed == {};
      if !clean {
        ghost var id :| id in failed;
      } else {
        assert forall id :: id in rows && rows[id].status == Failed ==> id in failed;
      }
    }

    method GetAppliedMigrations() returns (statuses: seq<MigrationStatus>)
      ensures ListsRows(rows, statuses)
    {
      statuses := [];
      var left := rows.Keys;
      while left != {}
        invariant left <= rows.Keys && ListsRows(rows - left, statuses)
        invariant forall i, id :: 0 <= i < |statuses| && id in left ==> StringLeq(statuses[i].id.version, id.version)
      {
        ghost var oldest := OldestExists(left);
        var id :| id in left && forall other :: other in left ==> StringLeq(id.version, other.version);
        ListsOneMore(rows - left, statuses, id, rows[id]);
        assert rows - (left - {id}) == (rows - left)[id := rows[id]];
        left := left - {id};
        statuses := statuses + [MigrationStatus(id, rows[id])];
      }
      assert rows - {} == rows;
    }

    /** Applied rows carry their migration's checksum. */
    method VerifyChecksums(ms: seq<Migration>) returns (ok: bool)
      requires PlainIds(rows) && PlainVersions(ms)
      ensures ok <==> forall m :: m in ms ==> ChecksumMatches(rows, m)
    {
      var statuses := GetAppliedMigrations();
      var byKey := IndexStatuses(statuses);
      for i := 0 to |ms|
        invariant forall j :: 0 <= j < i ==> ChecksumMatches(rows, ms[j])
      {
        LookupRow(rows, statuses, ms[i]);
        var matches := RowMatches(byKey, ms[i]);
        if !matches {
          assert ms[i] in ms && !ChecksumMatches(rows, ms[i]);
          return false;
        }
      }
      return true;
    }
  }

  method IndexStatuses(statuses: seq<MigrationStatus>) returns (byKey: map<string, Row>)
    ensures byKey == IndexByKey(statuses)
  {
    byKey := map[];
    for i := 0 to |statuses|
      invariant byKey == IndexByKey(statuses[..i])
    {
      assert statuses[..i + 1][..i] == statuses[..i];
      byKey := byKey[KeyOf(statuses[i].id) := statuses[i].row];
    }
    assert statuses[..|statuses|] == statuses;
  }

  method RowMatches(byKey: map<string, Row>, m: Migration) returns (ok: bool)
    ensures ok <==> (KeyOf(IdOf(m)) in byKey && byKey[KeyOf(IdOf(m))].status == Applied ==> byKey[KeyOf(IdOf(m))].checksum == m.checksum)
  {
    var key := KeyOf(IdOf(m));
    if key in byKey && byKey[key].status == Applied {
      if byKey[key].checksum != m.checksum {
        return false;
      }
    }
    return true;
  }

  predicate ChecksumMatches(rows: map<Id, Row>, m: Migration) {
    IsApplied(rows, IdOf(m)) ==> rows[IdOf(m)].checksum == m.checksum
  }

  lemma LookupRow(rows: map<Id, Row>, statuses: seq<MigrationStatus>, m: Migration)
    requires ListsRows(rows, statuses) && PlainIds(rows) && PlainId(IdOf(m))
    ensures
      var byKey := IndexByKey(statuses);
      && (KeyOf(IdOf(m)) in byKey <==> IdOf(m) in rows)
      && (IdOf(m) in rows ==> byKey[KeyOf(IdOf(m))] == rows[IdOf(m)])
  {
    IndexFinds(statuses, IdOf(m));
    if IdOf(m) in rows {
      var i :| 0 <= i < |statuses| && statuses[i].id == IdOf(m);
    }
  }

  // --------------------------------------------------- what is pending, in order

  /** filterPending: a set of keys, then a loop. */
  method FilterPendingMigrations(ghost rows: map<Id, Row>, all: seq<Migration>, statuses: seq<MigrationStatus>) returns (pending: seq<Migration>)
    requires ListsRows(rows, statuses) && PlainIds(rows) && PlainVersions(all)
    ensures pending == FilterPending(all, rows)
  {
    var applied := {};
    for i := 0 to |statuses|
      invariant forall key :: key in applied <==> exists j :: 0 <= j < i && statuses[j].row.status == Applied && KeyOf(statuses[j].id) == key
    {
      if statuses[i].row.status == Applied {
        applied := applied + {KeyOf(statuses[i].id)};
      }
    }
    pending := [];
    for i := 0 to |all|
      invariant pending == FilterPending(all[..i], rows)
    {
      assert all[..i + 1][..i] == all[..i];
      AppliedKey(rows, statuses, applied, all[i]);
      if KeyOf(IdOf(all[i])) !in applied {
        pending := pending + [all[i]];
      }
    }
    assert all[..|all|] == all;
  }

  lemma AppliedKey(rows: map<Id, Row>, statuses: seq<MigrationStatus>, applied: set<string>, m: Migration)
    requires ListsRows(rows, statuses) && PlainIds(rows) && PlainId(IdOf(m))
    requires forall key :: key in applied <==> exists j :: 0 <= j < |statuses| && statuses[j].row.status == Applied && KeyOf(statuses[j].id) == key
    ensures KeyOf(IdOf(m)) in applied <==> IsApplied(rows, IdOf(m))
  {
    if KeyOf(IdOf(m)) in applied {
      var j :| 0 <= j < |statuses| && statuses[j].row.status == Applied && KeyOf(statuses[j].id) == KeyOf(IdOf(m));
      KeyInjective(statuses[j].id, IdOf(m));
    }
    if IsApplied(rows, IdOf(m)) {
      var i :| 0 <= i < |statuses| && statuses[i].id == IdOf(m);
    }
  }

  /** The positions of the sources in the resolved order. */
  method SourcePriority(order: seq<string>) returns (priority: map<string, nat>)
    requires Distinct(order)
    ensures forall n :: Priority(order, n) == if n in priority then priority[n] else 0
  {
    priority := map[];
    for i := 0 to |order|
      invariant forall n :: n in priority <==> n in order[..i]
      invariant forall j :: 0 <= j < i ==> priority[order[j]] == j
    {
      priority := priority[order[i] := i];
    }
    assert order[..|order|] == order;
    forall n ensures Priority(order, n) == if n in priority then priority[n] else 0 {
      if n in order { assert order[PositionIn(order, n)] == n; }
    }
  }

  predicate Sooner(priority: map<string, nat>, a: Migration, b: Migration) {
    var p, q := if a.source in priority then priority[a.source] else 0, if b.source in priority then priority[b.source] else 0;
    p < q || (p == q && StringLeq(a.version, b.version))
  }

  lemma SoonerTransitive(priority: map<string, nat>, a: Migration, b: Migration, c: Migration)
    requires Sooner(priority, a, b) && Sooner(priority, b, c)
    ensures Sooner(priority, a, c)
  {
    if StringLeq(a.version, b.version) && StringLeq(b.version, c.version) { LeqTransitive(a.version, b.version, c.version); }
  }

  lemma {:induction false} SoonestExists(priority: map<string, nat>, ms: seq<Migration>) returns (k: nat)
    requires ms != []
    ensures k < |ms| && forall j :: 0 <= j < |ms| ==> Sooner(priority, ms[k], ms[j])
  {
    k := 0;
    LeqTotal(ms[0].version, ms[0].version);
    if |ms| > 1 {
      var i := SoonestExists(priority, ms[1..]);
      assert ms[1..][i] == ms[i + 1];
      LeqTotal(ms[0].version, ms[i + 1].version);
      if Sooner(priority, ms[0], ms[i + 1]) {
        forall j | 0 <= j < |ms| ensures Sooner(priority, ms[0], ms[j]) {
          if j > 0 {
            assert ms[1..][j - 1] == ms[j];
            SoonerTransitive(priority, ms[0], ms[i + 1], ms[j]);
          }
        }
      } else {
        k := i + 1;
        forall j | 0 <= j < |ms| ensures Sooner(priority, ms[k], ms[j]) {
          if j > 0 { assert ms[1..][j - 1] == ms[j]; }
        }
      }
    }
  }

  predicate InSoonerOrder(priority: map<string, nat>, ms: seq<Migration>) {
    forall i, j :: 0 <= i < j < |ms| ==> Sooner(priority, ms[i], ms[j])
  }

  predicate AllSooner(priority: map<string, nat>, ms: seq<Migration>, rest: seq<Migration>) {
    forall i, j :: 0 <= i < |ms| && 0 <= j < |rest| ==> Sooner(priority, ms[i], rest[j])
  }

  /** sort.Slice: some sorted permutation, equals in any order. */
  method SortMigrations(ms: seq<Migration>, priority: map<string, nat>) returns (sorted: seq<Migration>)
    ensures multiset(sorted) == multiset(ms) && InSoonerOrder(priority, sorted)
  {
    sorted := [];
    var rest := ms;
    while rest != []
      invariant multiset(sorted) + multiset(rest) == multiset(ms)
      invariant InSoonerOrder(priority, sorted) && AllSooner(priority, sorted, rest)
      decreases |rest|
    {
      ghost var soonest := SoonestExists(priority, rest);
      var k :| 0 <= k < |rest| && forall j :: 0 <= j < |rest| ==> Sooner(priority, rest[k], rest[j]);
      TakeOut(rest, k);
      TakeSoonest(priority, sorted, rest, k);
      sorted := sorted + [rest[k]];
      rest := rest[..k] + rest[k + 1..];
    }
  }

  lemma TakeOut(rest: seq<Migration>, k: nat)
    requires k < |rest|
    ensures multiset(rest) == multiset(rest[..k] + rest[k + 1..]) + multiset{rest[k]}
  {
    assert rest == rest[..k] + [rest[k]] + rest[k + 1..];
  }

  lemma TakeSoonest(priority: map<string, nat>, sorted: seq<Migration>, rest: seq<Migration>, k: nat)
    requires k < |rest| && InSoonerOrder(priority, sorted) && AllSooner(priority, sorted, rest)
    requires forall j :: 0 <= j < |rest| ==> Sooner(priority, rest[k], rest[j])
    ensures InSoonerOrder(priority, sorted + [rest[k]])
    ensures AllSooner(priority, sorted + [rest[k]], rest[..k] + rest[k + 1..])
  {
    var left := rest[..k] + rest[k + 1..];
    assert forall j :: 0 <= j < |left| ==> left[j] == rest[if j < k then j else j + 1];
  }

  /** OrderMigrations refuses exactly when the sources are cyclic. */
  method OrderMigrations(resolver: DependencyResolver, ms: seq<Migration>) returns (ok: bool, sorted: seq<Migration>)
    ensures ok <==> Acyclic(resolver.sources)
    ensures ok ==> multiset(sorted) == multiset(ms) && exists order :: IsOrder(resolver.sources, order) && InOrder(order, sorted)
  {
    sorted := [];
    var order, cycle;
    ok, order, cycle := resolver.Resolve();
    if ok {
      var priority := SourcePriority(order);
      sorted := SortMigrations(ms, priority);
      forall i, j | 0 <= i < j < |sorted| ensures NotAfter(order, sorted[i], sorted[j]) {
        assert Sooner(priority, sorted[i], sorted[j]);
      }
      assert InOrder(order, sorted);
    }
  }

  // --------------------------------------------------- the migrator

  /** The first check that stops Up. */
  ghost function UpCheck(c: Config, st: State): Error {
    if Dirty(st.rows) then DirtyDatabase
    else if AllOf(c.sources) == [] then NoMigrations
    else if !BatchValid(AllOf(c.sources)) then InvalidBatch
    else if !ChecksumsMatch(c, st.rows) then ChecksumMismatch
    else if FilterPending(AllOf(c.sources), st.rows) == [] then NoPending
    else if !Acyclic(SourceGraph(c)) then CircularDependency
    else Success
  }

  /** The first check that stops UpOne, and UpTo up to its version filter. */
  ghost function PendingCheck(c: Config, st: State): Error {
    if Dirty(st.rows) then DirtyDatabase
    else if !Acyclic(SourceGraph(c)) then CircularDependency
    else if FilterPending(AllOf(c.sources), st.rows) == [] then NoPending
    else Success
  }

  class Migrator {
    const sources: seq<Source>
    var sourceDeps: Graph
    const up: Executor
    const down: Executor
    const tracker: MigrationTracker
    const resolver: DependencyResolver
    var schema: Schema
    var moment: nat
    ghost var journal: seq<Effect>

    constructor (sources: seq<Source>, up: Executor, down: Executor, schema: Schema)
      requires PlainVersions(AllOf(sources)) && forall s, m :: s in sources && m in s.migrations ==> m.source == s.name
      ensures Valid() && this.sources == sources && this.up == up && this.down == down && sourceDeps == map[]
      ensures View() == State(schema, map[], 0, [])
    {
      this.sources, this.up, this.down, this.schema := sources, up, down, schema;
      sourceDeps, moment, journal := map[], 0, [];
      tracker := new MigrationTracker();
      resolver := new DependencyResolver();
    }

    ghost function Cfg(): Config
      reads this
    {
      Config(sources, sourceDeps, up, down)
    }

    ghost function View(): State
      reads this, tracker
    {
      State(schema, tracker.rows, moment, journal)
    }

    ghost predicate Valid()
      reads this, tracker, resolver
    {
      && PlainVersions(AllOf(sources)) && (forall s, m :: s in sources && m in s.migrations ==> m.source == s.name)
      && PlainIds(tracker.rows)
      && sourceDeps.Keys <= resolver.sources.Keys <= SourceGraph(Cfg()).Keys
      && (forall n :: n in resolver.sources ==> resolver.sources[n] == SourceGraph(Cfg())[n])
    }

    method SetSourceDependencies(source: string, dependencies: seq<string>)
      requires Valid()
      modifies this, resolver
      ensures Valid() && View() == old(View()) && sourceDeps == old(sourceDeps)[source := dependencies]
    {
      sourceDeps := sourceDeps[source := dependencies];
      resolver.AddSource(source, dependencies);
    }

    /** A loaded source is made known to the resolver. */
    method Register(source: Source)
      requires Valid() && source in sources
      modifies resolver
      ensures Valid() && resolver.sources.Keys == old(resolver.sources.Keys) + {source.name}
    {
      var deps := if source.name in sourceDeps then sourceDeps[source.name] else [];
      resolver.AddSource(source.name, deps);
    }

    method LoadAllMigrations() returns (all: seq<Migration>)
      requires Valid()
      modifies resolver
      ensures Valid() && all == AllOf(sources) && resolver.sources == SourceGraph(Cfg())
    {
      all := [];
      for i := 0 to |sources|
        invariant Valid() && all == AllOf(sources[..i])
        invariant forall j :: 0 <= j < i ==> sources[j].name in resolver.sources
      {
        assert sources[..i + 1][..i] == sources[..i];
        all := all + sources[i].migrations;
        Register(sources[i]);
      }
      assert sources[..|sources|] == sources;
      AllRegistered();
    }

    lemma AllRegistered()
      requires Valid() && forall j :: 0 <= j < |sources| ==> sources[j].name in resolver.sources
      ensures resolver.sources == SourceGraph(Cfg())
    {
      assert resolver.sources.Keys == SourceGraph(Cfg()).Keys;
    }

    /** Pending: the migrations without applied row, in order; fails on cycles. */
    method Pending() returns (ok: bool, pending: seq<Migration>)
      requires Valid()
      modifies resolver
      ensures Valid() && (ok <==> Acyclic(SourceGraph(Cfg()))) && (ok ==> IsPending(Cfg(), View(), pending))
    {
      var all := LoadAllMigrations();
      var statuses := tracker.GetAppliedMigrations();
      pending := FilterPendingMigrations(tracker.rows, all, statuses);
      ok, pending := OrderMigrations(resolver, pending);
    }

    method ExecuteMigration(m: Migration) returns (ok: bool)
      requires Valid() && PlainId(IdOf(m))
      modifies this, tracker
      ensures Valid() && Cfg() == old(Cfg()) && (View(), ok) == ExecuteUp(up, m, old(View()))
    {
      var outcome := up(m, schema, moment);
      moment := moment + 1;
      if outcome.Lost? {
        return false;
      }
      if outcome.Refused? {
        tracker.RecordFailedMigration(m);
        return false;
      }
      journal := journal + [Did(m, schema, outcome.schema)];
      schema := outcome.schema;
      ok := tracker.RecordMigration(m);
    }

    method ExecuteDownMigration(m: Migration) returns (ok: bool)
      requires Valid()
      modifies this, tracker
      ensures Valid() && Cfg() == old(Cfg()) && (View(), ok) == ExecuteDown(down, m, old(View()))
    {
      var outcome := down(m, schema, moment);
      moment := moment + 1;
      if !outcome.Committed? {
        return false;
      }
      journal := journal + [Undid(m, schema, outcome.schema)];
      schema := outcome.schema;
      tracker.RemoveMigration(IdOf(m));
      return true;
    }

    /** executeSequential with stop on error. */
    method ExecuteSequential(ms: seq<Migration>) returns (ok: bool)
      requires Valid() && PlainVersions(ms)
      modifies this, tracker
      ensures Valid() && Cfg() == old(Cfg()) && (View(), ok) == RunUps(up, ms, old(View()))
    {
      for i := 0 to |ms|
        invariant Valid() && Cfg() == old(Cfg())
        invariant RunUps(up, ms[i..], View()) == RunUps(up, ms, old(View()))
      {
        assert ms[i..][0] == ms[i] && ms[i..][1..] == ms[i + 1..];
        var done := ExecuteMigration(ms[i]);
        if !done {
          return false;
        }
      }
      return true;
    }

    /** ValidateBatch: every migration valid, no key twice. */
    method ValidateBatch(ms: seq<Migration>) returns (ok: bool)
      requires PlainVersions(ms)
      ensures ok <==> BatchValid(ms)
    {
      var seen := {};
      for i := 0 to |ms|
        invariant forall key :: key in seen <==> exists j :: 0 <= j < i && KeyOf(IdOf(ms[j])) == key
        invariant forall j :: 0 <= j < i ==> ms[j].valid
        invariant forall j, k :: 0 <= j < k < i ==> IdOf(ms[j]) != IdOf(ms[k])
      {
        if !ms[i].valid {
          return false;
        }
        var key := KeyOf(IdOf(ms[i]));
        if key in seen {
          ghost var j :| 0 <= j < i && KeyOf(IdOf(ms[j])) == key;
          KeyInjective(IdOf(ms[j]), IdOf(ms[i]));
          return false;
        }
        seen := seen + {key};
      }
      return true;
    }

    method FindMigration(id: Id) returns (found: bool, m: Migration)
      requires Valid()
      ensures found <==> Listed(Cfg(), id)
      ensures found ==> m in AllOf(sources) && IdOf(m) == id
    {
      m := Migration("", "", "", false);
      for i := 0 to |sources|
        invariant forall x :: x in AllOf(sources[..i]) ==> IdOf(x) != id
      {
        assert sources[..i + 1][..i] == sources[..i];
        if sources[i].name == id.source {
          var migrations := sources[i].migrations;
          for j := 0 to |migrations|
            invariant forall k :: 0 <= k < j ==> migrations[k].version != id.version
          {
            if migrations[j].version == id.version {
              m := migrations[j];
              SourceInAll(sources, i, m);
              return true, m;
            }
          }
        }
      }
      assert sources[..|sources|] == sources;
      return false, m;
    }

    /** What Up did, with its answer. */
    ghost predicate UpAnswered(before: State, after: State, err: Error)
      reads this
    {
      if UpCheck(Cfg(), before) != Success then err == UpCheck(Cfg(), before) && after == before
      else exists p :: IsPending(Cfg(), before, p) && (after, err == Success) == RunUps(up, p, before) && (err == Success || err == MigrationFailed)
    }

    /** Up with stop on error. */
    method Up() returns (err: Error)
      requires Valid()
      modifies this, tracker, resolver
      ensures Valid() && Cfg() == old(Cfg())
      ensures UpAnswered(old(View()), View(), err) && UpStep(Cfg(), old(View()), View())
      ensures err == Success ==> forall m :: m in AllOf(sources) ==> IsApplied(tracker.rows, IdOf(m))
    {
      var clean := tracker.CheckForDirtyDatabase();
      if !clean {
        return DirtyDatabase;
      }
      var all := LoadAllMigrations();
      if |all| == 0 {
        return NoMigrations;
      }
      var valid := ValidateBatch(all);
      if !valid {
        return InvalidBatch;
      }
      var match_ := tracker.VerifyChecksums(all);
      if !match_ {
        return ChecksumMismatch;
      }
      var statuses := tracker.GetAppliedMigrations();
      var pending := FilterPendingMigrations(tracker.rows, all, statuses);
      if |pending| == 0 {
        return NoPending;
      }
      var acyclic, ordered := OrderMigrations(resolver, pending);
      if !acyclic {
        return CircularDependency;
      }
      PendingArePlain(Cfg(), View(), ordered);
      ghost var before := View();
      var ok := ExecuteSequential(ordered);
      if !ok {
        return MigrationFailed;
      }
      CompletedUpAppliesAll(Cfg(), before, ordered);
      return Success;
    }

    ghost predicate UpOneAnswered(before: State, after: State, err: Error)
      reads this
    {
      if PendingCheck(Cfg(), before) != Success then err == PendingCheck(Cfg(), before) && after == before
      else exists p :: IsPending(Cfg(), before, p) && p != [] && (after, err == Success) == ExecuteUp(up, p[0], before) && (err == Success || err == MigrationFailed)
    }

    method UpOne() returns (err: Error)
      requires Valid()
      modifies this, tracker, resolver
      ensures Valid() && Cfg() == old(Cfg())
      ensures UpOneAnswered(old(View()), View(), err) && UpOneStep(Cfg(), old(View()), View())
    {
      var clean := tracker.CheckForDirtyDatabase();
      if !clean {
        return DirtyDatabase;
      }
      var acyclic, pending := Pending();
      if !acyclic {
        return CircularDependency;
      }
      PendingArePlain(Cfg(), View(), pending);
      if |pending| == 0 {
        return NoPending;
      }
      var ok := ExecuteMigration(pending[0]);
      return if ok then Success else MigrationFailed;
    }

    ghost predicate UpToAnswered(version: string, before: State, after: State, err: Error)
      reads this
    {
      if !IsTimestamp(version) then err == InvalidVersion && after == before
      else if Dirty(before.rows) || !Acyclic(SourceGraph(Cfg())) then err == PendingCheck(Cfg(), before) && after == before
      else exists p :: IsPending(Cfg(), before, p) && var part := UpToVersion(p, version);
        if part == [] then err == NoPending && after == before
        else (after, err == Success) == RunUps(up, part, before) && (err == Success || err == MigrationFailed)
    }

    method UpTo(version: string) returns (err: Error)
      requires Valid()
      modifies this, tracker, resolver
      ensures Valid() && Cfg() == old(Cfg())
      ensures UpToAnswered(version, old(View()), View(), err) && UpToStep(Cfg(), version, old(View()), View())
    {
      if !IsTimestamp(version) {
        return InvalidVersion;
      }
      var clean := tracker.CheckForDirtyDatabase();
      if !clean {
        return DirtyDatabase;
      }
      var acyclic, pending := Pending();
      if !acyclic {
        return CircularDependency;
      }
      PendingArePlain(Cfg(), View(), pending);
      var toApply := SelectUpTo(pending, version);
      if |toApply| == 0 {
        return NoPending;
      }
      UpToVersionFacts(pending, version);
      var ok := ExecuteSequential(toApply);
      return if ok then Success else MigrationFailed;
    }

    method RevertAll(ms: seq<Migration>) returns (ok: bool)
      requires Valid()
      modifies this, tracker
      ensures Valid() && Cfg() == old(Cfg()) && (View(), ok) == RunDowns(down, ms, old(View()))
    {
      var i := |ms| - 1;
      assert ms[..|ms|] == ms;
      while i >= 0
        invariant -1 <= i < |ms| && Valid() && Cfg() == old(Cfg())
        invariant RunDowns(down, ms[..i + 1], View()) == RunDowns(down, ms, old(View()))
      {
        assert ms[..i + 1][..i] == ms[..i];
        var done := ExecuteDownMigration(ms[i]);
        if !done {
          return false;
        }
        i := i - 1;
      }
      return true;
    }

    method Down() returns (err: Error)
      requires Valid()
      modifies this, tracker
      ensures Valid() && Cfg() == old(Cfg()) && DownStep(Cfg(), old(View()), View())
      ensures DownAnswers(Cfg(), old(View()), View(), err)
    {
      var applied := tracker.GetAppliedMigrations();
      var mostRecent := MostRecentStatus(applied);
      if mostRecent == -1 {
        NoneListed(tracker.rows, applied);
        return NothingToRevert;
      }
      MostRecentOfListed(tracker.rows, applied, mostRecent);
      var found, m := FindMigration(applied[mostRecent].id);
      if !found {
        MissingIsDownStep(Cfg(), View(), applied[mostRecent].id);
        return NotFound;
      }
      ghost var before := View();
      assert IsLatest(Cfg(), before, m);
      var ok := ExecuteDownMigration(m);
      return if ok then Success else MigrationFailed;
    }

    /** What DownTo collects; fails when a migration is not in the sources. */
    method CollectReverts(version: string) returns (ok: bool, toRevert: seq<Migration>)
      requires Valid()
      ensures ok <==> AllListed(Cfg(), tracker.rows, version)
      ensures ok ==> IsRevertList(Cfg(), View(), version, toRevert)
    {
      var applied := tracker.GetAppliedMigrations();
      toRevert := [];
      for i := 0 to |applied|
        invariant Collected(Cfg(), WantedIds(applied[..i], version), toRevert)
      {
        assert applied[..i + 1][..i] == applied[..i];
        if applied[i].row.status == Applied && Newer(applied[i].id.version, version) {
          var found, m := FindMigration(applied[i].id);
          if !found {
            assert IsApplied(tracker.rows, applied[i].id);
            return false, toRevert;
          }
          toRevert := toRevert + [m];
        }
      }
      assert applied[..|applied|] == applied;
      CollectedAll(Cfg(), View(), applied, version, toRevert);
      return true, toRevert;
    }

    method DownTo(version: string) returns (err: Error)
      requires Valid()
      modifies this, tracker
      ensures Valid() && Cfg() == old(Cfg()) && DownToStep(Cfg(), version, old(View()), View())
      ensures DownToAnswers(Cfg(), version, old(View()), View(), err)
      ensures err == Success || err == NothingToRevert ==> forall id :: IsApplied(tracker.rows, id) ==> !Newer(id.version, version)
    {
      if !IsTimestamp(version) {
        return InvalidVersion;
      }
      var found, toRevert := CollectReverts(version);
      if !found {
        return NotFound;
      }
      if |toRevert| == 0 {
        return NothingToRevert;
      }
      ghost var before := View();
      var ok := RevertAll(toRevert);
      if !ok {
        return MigrationFailed;
      }
      CompletedDownsRemove(down, toRevert, before);
      return Success;
    }
  }

  method SelectUpTo(pending: seq<Migration>, version: string) returns (toApply: seq<Migration>)
    ensures toApply == UpToVersion(pending, version)
  {
    toApply := [];
    for i := 0 to |pending|
      invariant toApply == UpToVersion(pending[..i], version)
    {
      assert pending[..i + 1][..i] == pending[..i];
      if StringLeq(pending[i].version, version) {
        toApply := toApply + [pending[i]];
      }
    }
    assert pending[..|pending|] == pending;
  }

  /** Down's search for the newest applied row; -1 when there is none. */
  method MostRecentStatus(applied: seq<MigrationStatus>) returns (mostRecent: int)
    ensures -1 <= mostRecent < |applied| && (mostRecent >= 0 ==> applied[mostRecent].row.status == Applied)
    ensures forall j :: 0 <= j < |applied| && applied[j].row.status == Applied ==>
      mostRecent >= 0 && StringLeq(applied[j].id.version, applied[mostRecent].id.version)
  {
    mostRecent := -1;
    for i := 0 to |applied|
      invariant -1 <= mostRecent < i && (mostRecent >= 0 ==> applied[mostRecent].row.status == Applied)
      invariant forall j :: 0 <= j < i && applied[j].row.status == Applied ==>
        mostRecent >= 0 && StringLeq(applied[j].id.version, applied[mostRecent].id.version)
    {
      LeqTotal(applied[i].id.version, applied[i].id.version);
      if applied[i].row.status == Applied && (mostRecent == -1 || Newer(applied[i].id.version, applied[mostRecent].id.version)) {
        NewerThanAll(applied, i, mostRecent);
        mostRecent := i;
      } else if applied[i].row.status == Applied {
        LeqTotal(applied[i].id.version, applied[mostRecent].id.version);
      }
    }
  }

  lemma NewerThanAll(applied: seq<MigrationStatus>, i: nat, mostRecent: int)
    requires i < |applied| && -1 <= mostRecent < i
    requires forall j :: 0 <= j < i && applied[j].row.status == Applied ==>
      mostRecent >= 0 && StringLeq(applied[j].id.version, applied[mostRecent].id.version)
    requires mostRecent >= 0 ==> Newer(applied[i].id.version, applied[mostRecent].id.version)
    ensures forall j :: 0 <= j < i && applied[j].row.status == Applied ==> StringLeq(applied[j].id.version, applied[i].id.version)
  {
    forall j | 0 <= j < i && applied[j].row.status == Applied ensures StringLeq(applied[j].id.version, applied[i].id.version) {
      LeqTransitive(applied[j].id.version, applied[mostRecent].id.version, applied[i].id.version);
    }
  }

  /** A migration whose row is the newest applied one. */
  ghost predicate IsLatest(c: Config, st: State, m: Migration) {
    m in AllOf(c.sources) && IsMostRecent(st.rows, IdOf(m))
  }

  /** When Down gives which answer, and what it does then. */
  ghost predicate DownAnswers(c: Config, st: State, st': State, err: Error) {
    match err
    case NothingToRevert => NoneApplied(st.rows) && st' == st
    case NotFound => st' == st && exists id :: IsMostRecent(st.rows, id) && !Listed(c, id)
    case Success => exists m :: IsLatest(c, st, m) && ExecuteDown(c.down, m, st) == (st', true)
    case MigrationFailed => exists m :: IsLatest(c, st, m) && ExecuteDown(c.down, m, st) == (st', false)
    case _ => false
  }

  /** When DownTo gives which answer, and what it does then. */
  ghost predicate DownToAnswers(c: Config, version: string, st: State, st': State, err: Error) {
    match err
    case InvalidVersion => !IsTimestamp(version) && st' == st
    case NotFound => IsTimestamp(version) && !AllListed(c, st.rows, version) && st' == st
    case NothingToRevert => IsTimestamp(version) && st' == st && forall id :: IsApplied(st.rows, id) ==> !Newer(id.version, version)
    case Success => IsTimestamp(version) && RevertsNewer(c, version, st, st', true)
    case MigrationFailed => IsTimestamp(version) && RevertsNewer(c, version, st, st', false)
    case _ => false
  }

  ghost predicate RevertsNewer(c: Config, version: string, st: State, st': State, ok: bool) {
    exists r :: r != [] && IsRevertList(c, st, version, r) && RunDowns(c.down, r, st) == (st', ok)
  }

  lemma MissingIsDownStep(c: Config, st: State, id: Id)
    requires IsMostRecent(st.rows, id) && !Listed(c, id)
    ensures DownStep(c, st, st)
  {}

  lemma {:induction false} SourceInAll(sources: seq<Source>, i: nat, m: Migration)
    requires i < |sources| && m in sources[i].migrations
    ensures m in AllOf(sources)
  {
    var k := |sources| - 1;
    if i < k { SourceInAll(sources[..k], i, m); }
  }

  lemma PendingArePlain(c: Config, st: State, p: seq<Migration>)
    requires PlainVersions(AllOf(c.sources)) && IsPending(c, st, p)
    ensures PlainVersions(p) && (p == [] <==> FilterPending(AllOf(c.sources), st.rows) == [])
  {
    var f := FilterPending(AllOf(c.sources), st.rows);
    FilterPendingMembers(AllOf(c.sources), st.rows);
    forall m | m in p ensures PlainId(IdOf(m)) {
      assert m in multiset(p);
      assert m in f;
    }
    assert |p| == |multiset(p)| && |f| == |multiset(f)|;
  }

  lemma NoneListed(rows: map<Id, Row>, statuses: seq<MigrationStatus>)
    requires ListsRows(rows, statuses) && forall j :: 0 <= j < |statuses| ==> statuses[j].row.status != Applied
    ensures NoneApplied(rows)
  {
    forall id ensures !IsApplied(rows, id) {
      if id in rows {
        var i :| 0 <= i < |statuses| && statuses[i].id == id;
      }
    }
  }

  lemma MostRecentOfListed(rows: map<Id, Row>, statuses: seq<MigrationStatus>, k: nat)
    requires ListsRows(rows, statuses) && k < |statuses| && statuses[k].row.status == Applied
    requires forall j :: 0 <= j < |statuses| && statuses[j].row.status == Applied ==> StringLeq(statuses[j].id.version, statuses[k].id.version)
    ensures IsMostRecent(rows, statuses[k].id)
  {
    forall id | IsApplied(rows, id) ensures StringLeq(id.version, statuses[k].id.version) {
      var i :| 0 <= i < |statuses| && statuses[i].id == id;
    }
  }

  predicate Wanted(s: MigrationStatus, version: string) {
    s.row.status == Applied && Newer(s.id.version, version)
  }

  function WantedIds(statuses: seq<MigrationStatus>, version: string): seq<Id> {
    if statuses == [] then []
    else
      var last := statuses[|statuses| - 1];
      WantedIds(statuses[..|statuses| - 1], version) + if Wanted(last, version) then [last.id] else []
  }

  /** The listed migrations with these ids. */
  ghost predicate Collected(c: Config, ids: seq<Id>, r: seq<Migration>) {
    |r| == |ids| && forall k :: 0 <= k < |r| ==> r[k] in AllOf(c.sources) && IdOf(r[k]) == ids[k]
  }

  lemma {:induction false} WantedIdsMembers(statuses: seq<MigrationStatus>, version: string, id: Id)
    ensures id in WantedIds(statuses, version) <==> exists i :: 0 <= i < |statuses| && statuses[i].id == id && Wanted(statuses[i], version)
  {
    if statuses != [] {
      var k := |statuses| - 1;
      WantedIdsMembers(statuses[..k], version, id);
      if id in WantedIds(statuses[..k], version) {
        var i :| 0 <= i < k && statuses[..k][i].id == id && Wanted(statuses[..k][i], version);
        assert statuses[i].id == id;
      }
      if i :| 0 <= i < |statuses| && statuses[i].id == id && Wanted(statuses[i], version) {
        if i < k { assert statuses[..k][i] == statuses[i]; }
      }
    }
  }

  lemma {:induction false} WantedIdsInOrder(statuses: seq<MigrationStatus>, version: string)
    requires OldestFirst(statuses)
    ensures
      var ids := WantedIds(statuses, version);
      forall i, j :: 0 <= i < j < |ids| ==> ids[i] != ids[j] && StringLeq(ids[i].version, ids[j].version)
  {
    if statuses != [] {
      var k := |statuses| - 1;
      WantedIdsInOrder(statuses[..k], version);
      var ids := WantedIds(statuses[..k], version);
      forall i | 0 <= i < |ids| ensures ids[i] != statuses[k].id && StringLeq(ids[i].version, statuses[k].id.version) {
        WantedIdsMembers(statuses[..k], version, ids[i]);
        var j :| 0 <= j < k && statuses[..k][j].id == ids[i];
        assert statuses[j].id == ids[i];
      }
    }
  }

  lemma CollectedAll(c: Config, st: State, statuses: seq<MigrationStatus>, version: string, r: seq<Migration>)
    requires ListsRows(st.rows, statuses) && Collected(c, WantedIds(statuses, version), r)
    ensures IsRevertList(c, st, version, r) && AllListed(c, st.rows, version)
  {
    var ids := WantedIds(statuses, version);
    WantedIdsInOrder(statuses, version);
    forall m | m in r ensures m in AllOf(c.sources) && IsApplied(st.rows, IdOf(m)) && Newer(m.version, version) {
      var k :| 0 <= k < |r| && r[k] == m;
      WantedIdsMembers(statuses, version, ids[k]);
    }
    forall id | IsApplied(st.rows, id) && Newer(id.version, version) ensures Listed(c, id) && exists m :: m in r && IdOf(m) == id {
      var i :| 0 <= i < |statuses| && statuses[i].id == id;
      assert Wanted(statuses[i], version);
      WantedIdsMembers(statuses, version, id);
      var k :| 0 <= k < |ids| && ids[k] == id;
      assert r[k] in r;
    }
    forall i, j | 0 <= i < j < |r| ensures IdOf(r[i]) != IdOf(r[j]) && StringLeq(r[i].version, r[j].version) {
      assert ids[i] != ids[j];
    }
  }
}
