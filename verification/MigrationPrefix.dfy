/** One source: what is applied is always a first part of its migrations in
    version order, and going down retraces going up. */
module MigrationPrefixes {
  import opened StringOrder
  import opened MigrationOrder
  import opened MigrationRuns

  predicate Ascending(ms: seq<Migration>) {
    forall i, j :: 0 <= i < j < |ms| ==> StringLeq(ms[i].version, ms[j].version) && ms[i].version != ms[j].version
  }

  /** The only source's migrations in version order. */
  ghost predicate Listing(c: Config, l: seq<Migration>) {
    && WellFormed(c) && |c.sources| == 1
    && Ascending(l) && forall m :: m in l <==> m in AllOf(c.sources)
  }

  /** Applied and not reverted, in this order: the first of the list. */
  ghost predicate OpenIsPrefix(l: seq<Migration>, journal: seq<Effect>) {
    |Open(journal)| <= |l| && forall i :: 0 <= i < |Open(journal)| ==> Open(journal)[i].m == l[i]
  }

  ghost predicate PrefixState(c: Config, l: seq<Migration>, initial: Schema, st: State) {
    Listing(c, l) && Consistent(c, initial, st) && OpenIsPrefix(l, st.journal)
  }

  // --------------------------------------------------- ascending lists

  lemma {:induction false} AscendingUnique(a: seq<Migration>, b: seq<Migration>)
    requires Ascending(a) && Ascending(b) && forall m :: m in a <==> m in b
    ensures a == b
  {
    if a == [] {
      EmptyOrNot(b);
    } else {
      assert a[0] in a;
      assert b != [];
      assert b[0] in b;
      var i :| 0 <= i < |a| && a[i] == b[0];
      var j :| 0 <= j < |b| && b[j] == a[0];
      if i > 0 && j > 0 { LeqAntisymmetric(a[0].version, b[0].version); }
      assert a[0] == b[0];
      TailMembers(a);
      TailMembers(b);
      AscendingUnique(a[1..], b[1..]);
      assert a == [a[0]] + a[1..] && b == [b[0]] + b[1..];
    }
  }

  lemma EmptyOrNot(ms: seq<Migration>)
    ensures ms == [] || exists m :: m in ms
  {
    if ms != [] { assert ms[0] in ms; }
  }

  lemma TailMembers(a: seq<Migration>)
    requires a != [] && Ascending(a)
    ensures Ascending(a[1..]) && forall m :: m in a[1..] <==> m in a && m != a[0]
  {
    assert a == [a[0]] + a[1..];
    assert forall i :: 0 < i < |a| ==> a[i] != a[0];
    forall m | m in a[1..] ensures m != a[0] {
      var i :| 0 <= i < |a[1..]| && a[1..][i] == m;
      assert a[i + 1] == m;
    }
  }

  lemma AllHaveOneSource(c: Config)
    requires WellFormed(c) && |c.sources| == 1
    ensures forall m :: m in AllOf(c.sources) ==> m.source == c.sources[0].name
  {
    assert c.sources[..0] == [];
    assert AllOf(c.sources) == [] + c.sources[0].migrations;
    assert c.sources[0] in c.sources;
  }

  /** Distinct migrations of one source in weak version order ascend. */
  lemma OneSourceAscends(c: Config, ms: seq<Migration>)
    requires WellFormed(c) && |c.sources| == 1 && ByVersion(ms) && DistinctIds(ms)
    requires forall m :: m in ms ==> m in AllOf(c.sources)
    ensures Ascending(ms)
  {
    AllHaveOneSource(c);
    forall i, j | 0 <= i < j < |ms| ensures ms[i].version != ms[j].version {
      assert ms[i] in ms && ms[j] in ms;
      assert IdOf(ms[i]) != IdOf(ms[j]);
    }
  }

  // --------------------------------------------------- what is pending and what is reverted

  lemma AppliedIsPrefix(c: Config, l: seq<Migration>, initial: Schema, st: State)
    requires PrefixState(c, l, initial, st)
    ensures
      var k := |Open(st.journal)|;
      && (forall i :: 0 <= i < |l| ==> (IsApplied(st.rows, IdOf(l[i])) <==> i < k))
      && (forall id :: IsApplied(st.rows, id) ==> exists i :: 0 <= i < k && IdOf(l[i]) == id)
  {
    var open := Open(st.journal);
    AllHaveOneSource(c);
    forall id | IsApplied(st.rows, id) ensures exists i :: 0 <= i < |open| && IdOf(l[i]) == id {
      var e :| e in open && IdOf(e.m) == id;
      var i :| 0 <= i < |open| && open[i] == e;
      assert IdOf(l[i]) == id;
    }
    forall i | 0 <= i < |open| ensures IsApplied(st.rows, IdOf(l[i])) {
      assert open[i] in open && IdOf(open[i].m) == IdOf(l[i]);
    }
    forall i | |open| <= i < |l| ensures !IsApplied(st.rows, IdOf(l[i])) {
      assert forall j :: 0 <= j < |open| ==> l[j].version != l[i].version;
    }
  }

  lemma PendingIsRest(c: Config, l: seq<Migration>, initial: Schema, st: State, p: seq<Migration>)
    requires PrefixState(c, l, initial, st) && IsPending(c, st, p)
    ensures p == l[|Open(st.journal)|..]
  {
    var k := |Open(st.journal)|;
    PendingFacts(c, st, p);
    AppliedIsPrefix(c, l, initial, st);
    AllHaveOneSource(c);
    var order :| IsOrder(SourceGraph(c), order) && InOrder(order, p);
    forall i, j | 0 <= i < j < |p| ensures StringLeq(p[i].version, p[j].version) {
      assert p[i] in p && p[j] in p && NotAfter(order, p[i], p[j]);
    }
    OneSourceAscends(c, p);
    forall m ensures m in p <==> m in l[k..] { RestMembers(l, k, m); }
    AscendingUnique(p, l[k..]);
  }

  lemma RestMembers(l: seq<Migration>, k: nat, m: Migration)
    requires k <= |l| && Ascending(l)
    ensures m in l[k..] <==> exists i :: k <= i < |l| && l[i] == m
  {
    if m in l[k..] {
      var j :| 0 <= j < |l[k..]| && l[k..][j] == m;
      assert l[k + j] == m;
    }
  }

  lemma {:induction false} UpToVersionIsPrefix(p: seq<Migration>, version: string)
    requires Ascending(p)
    ensures |UpToVersion(p, version)| <= |p| && UpToVersion(p, version) == p[..|UpToVersion(p, version)|]
  {
    if p != [] {
      var k := |p| - 1;
      UpToVersionIsPrefix(p[..k], version);
      if StringLeq(p[k].version, version) {
        UpToVersionIsAll(p, version);
        assert p[..|p|] == p;
      }
    }
  }

  lemma {:induction false} UpToVersionIsAll(p: seq<Migration>, version: string)
    requires Ascending(p) && p != [] && StringLeq(p[|p| - 1].version, version)
    ensures UpToVersion(p, version) == p
  {
    var k := |p| - 1;
    if k > 0 {
      LeqTransitive(p[k - 1].version, p[k].version, version);
      UpToVersionIsAll(p[..k], version);
    }
    assert p == p[..k] + [p[k]];
  }

  /** Where the versions newer than the target begin. */
  lemma {:induction false} NewerIsSuffix(l: seq<Migration>, k: nat, version: string) returns (j: nat)
    requires Ascending(l) && k <= |l|
    ensures j <= k && forall i :: 0 <= i < k ==> (Newer(l[i].version, version) <==> j <= i)
  {
    j := k;
    if k > 0 {
      if Newer(l[k - 1].version, version) {
        j := NewerIsSuffix(l, k - 1, version);
      } else {
        forall i | 0 <= i < k - 1 ensures !Newer(l[i].version, version) {
          if Newer(l[i].version, version) {
            LeqTransitive(version, l[i].version, l[k - 1].version);
            LeqAntisymmetric(l[i].version, l[k - 1].version);
          }
        }
      }
    }
  }

  lemma RevertListIsSuffix(c: Config, l: seq<Migration>, initial: Schema, st: State, version: string, r: seq<Migration>) returns (j: nat)
    requires PrefixState(c, l, initial, st) && IsRevertList(c, st, version, r)
    ensures j <= |Open(st.journal)| && r == l[j..|Open(st.journal)|]
    ensures forall i :: 0 <= i < |Open(st.journal)| ==> (Newer(l[i].version, version) <==> j <= i)
  {
    var k := |Open(st.journal)|;
    AppliedIsPrefix(c, l, initial, st);
    j := NewerIsSuffix(l, k, version);
    OneSourceAscends(c, r);
    forall m ensures m in r <==> m in l[j..k] {
      if m in r { ListedInPart(l, j, k, m); }
      if m in l[j..k] { RevertedFromPart(c, l, st, version, r, j, k, m); }
    }
    AscendingUnique(r, l[j..k]);
  }

  lemma ListedInPart(l: seq<Migration>, j: nat, k: nat, m: Migration)
    requires j <= k <= |l| && m in l && forall i :: 0 <= i < |l| && l[i] == m ==> j <= i < k
    ensures m in l[j..k]
  {
    var i :| 0 <= i < |l| && l[i] == m;
    assert l[j..k][i - j] == m;
  }

  lemma RevertedFromPart(c: Config, l: seq<Migration>, st: State, version: string, r: seq<Migration>, j: nat, k: nat, m: Migration)
    requires Listing(c, l) && IsRevertList(c, st, version, r) && j <= k <= |l| && m in l[j..k]
    requires forall i :: j <= i < k ==> IsApplied(st.rows, IdOf(l[i])) && Newer(l[i].version, version)
    ensures m in r
  {
    var i :| 0 <= i < k - j && l[j..k][i] == m;
    assert l[j + i] == m && IsApplied(st.rows, IdOf(m)) && Newer(IdOf(m).version, version);
    var other :| other in r && IdOf(other) == IdOf(m);
    assert m in l;
    UniqueId(c, m);
  }

  // --------------------------------------------------- schemas along the way

  /** The schema the first k open effects left. */
  function SchemaAt(initial: Schema, open: seq<Effect>, k: nat): Schema
    requires k <= |open|
  {
    if k == 0 then initial else open[k - 1].after
  }

  /** Each open effect started from what the ones before it left, and was an
      answer of its migration's up. */
  ghost predicate Linked(up: Executor, initial: Schema, st: State) {
    var open := Open(st.journal);
    && st.schema == SchemaAt(initial, open, |open|)
    && (forall i :: 0 <= i < |open| ==> open[i].before == SchemaAt(initial, open, i))
    && (forall i :: 0 <= i < |open| ==> Answered(up, open[i]))
  }

  ghost predicate Answered(up: Executor, e: Effect) {
    exists t :: up(e.m, e.before, t) == Committed(e.after)
  }

  /** Each down takes back what its up did, whenever it commits. */
  ghost predicate Inverts(up: Executor, down: Executor) {
    forall m, before, after, t, t', result ::
      up(m, before, t) == Committed(after) && down(m, after, t') == Committed(result) ==> result == before
  }

  lemma {:induction false} WithoutAbsent(es: seq<Effect>, id: Id)
    requires forall i :: 0 <= i < |es| ==> IdOf(es[i].m) != id
    ensures Without(es, id) == es
  {
    if es != [] {
      WithoutAbsent(es[..|es| - 1], id);
      assert es == es[..|es| - 1] + [es[|es| - 1]];
    }
  }

  /** The last of the prefix is undone. */
  lemma UndoLast(l: seq<Migration>, journal: seq<Effect>, e: Effect)
    requires Ascending(l) && OpenIsPrefix(l, journal) && !e.Did?
    requires Open(journal) != [] && e.m == l[|Open(journal)| - 1]
    ensures Open(journal + [e]) == Open(journal)[..|Open(journal)| - 1] && OpenIsPrefix(l, journal + [e])
  {
    var open, k := Open(journal), |Open(journal)| - 1;
    assert (journal + [e])[..|journal|] == journal;
    assert open[k].m == l[k];
    assert open == open[..k] + [open[k]];
    forall i | 0 <= i < k ensures IdOf(open[..k][i].m) != IdOf(e.m) {
      assert open[i].m == l[i] && l[i].version != l[k].version;
    }
    WithoutAbsent(open[..k], IdOf(e.m));
    assert Without(open, IdOf(e.m)) == open[..k];
  }

  lemma DoNext(l: seq<Migration>, journal: seq<Effect>, e: Effect)
    requires OpenIsPrefix(l, journal) && e.Did? && |Open(journal)| < |l| && e.m == l[|Open(journal)|]
    ensures Open(journal + [e]) == Open(journal) + [e] && OpenIsPrefix(l, journal + [e])
  {
    assert (journal + [e])[..|journal|] == journal;
  }

  // --------------------------------------------------- going up

  lemma UpKeepsOpen(up: Executor, l: seq<Migration>, st: State)
    requires OpenIsPrefix(l, st.journal) && |Open(st.journal)| < |l| && IdOf(l[|Open(st.journal)|]) !in st.rows
    ensures
      var k := |Open(st.journal)|;
      var next := ExecuteUp(up, l[k], st);
      && OpenIsPrefix(l, next.0.journal)
      && (if next.1 then Open(next.0.journal) == Open(st.journal) + [Did(l[k], st.schema, next.0.schema)]
          else next.0.journal == st.journal && next.0.schema == st.schema)
      && (next.1 ==> Answered(up, Did(l[k], st.schema, next.0.schema)))
  {
    var m := l[|Open(st.journal)|];
    var (next, ok) := ExecuteUp(up, m, st);
    if ok {
      DoNext(l, st.journal, Did(m, st.schema, next.schema));
      assert up(m, st.schema, st.moment) == Committed(next.schema);
    }
  }

  lemma UpKeepsLinked(up: Executor, l: seq<Migration>, initial: Schema, st: State)
    requires OpenIsPrefix(l, st.journal) && |Open(st.journal)| < |l| && IdOf(l[|Open(st.journal)|]) !in st.rows
    requires Linked(up, initial, st)
    ensures Linked(up, initial, ExecuteUp(up, l[|Open(st.journal)|], st).0)
  {
    var m := l[|Open(st.journal)|];
    var (next, ok) := ExecuteUp(up, m, st);
    UpKeepsOpen(up, l, st);
    if ok { LinkedNext(up, initial, st, Did(m, st.schema, next.schema), next); }
  }

  /** One up of the next migration, and what it leaves for the rest. */
  lemma UpKeepsPrefix(c: Config, l: seq<Migration>, initial: Schema, st: State, to: nat)
    requires PrefixState(c, l, initial, st) && |Open(st.journal)| < to <= |l| && RestIsNew(l, |Open(st.journal)|, to, st)
    ensures
      var k := |Open(st.journal)|;
      var next := ExecuteUp(c.up, l[k], st);
      UpKept(c, l, initial, st, next.0) && (next.1 ==> |Open(next.0.journal)| == k + 1 && RestIsNew(l, k + 1, to, next.0))
  {
    var k := |Open(st.journal)|;
    assert l[k] in l;
    UpKeepsConsistent(c, initial, l[k], st);
    UpKeepsOpen(c.up, l, st);
    if Linked(c.up, initial, st) { UpKeepsLinked(c.up, l, initial, st); }
    RestStaysNew(l, k, to, st, ExecuteUp(c.up, l[k], st).0);
  }

  lemma LinkedNext(up: Executor, initial: Schema, st: State, e: Effect, st': State)
    requires Linked(up, initial, st) && e.before == st.schema && e.after == st'.schema && Answered(up, e)
    requires Open(st'.journal) == Open(st.journal) + [e]
    ensures Linked(up, initial, st')
  {
    var open := Open(st'.journal);
    forall i | 0 <= i < |open| ensures open[i].before == SchemaAt(initial, open, i) && Answered(up, open[i]) {
      if i < |open| - 1 { assert open[i] == Open(st.journal)[i]; }
    }
  }

  ghost predicate RestIsNew(l: seq<Migration>, from: nat, to: nat, st: State) {
    forall i :: from <= i < to <= |l| ==> IdOf(l[i]) !in st.rows
  }

  lemma RestSplits(l: seq<Migration>, from: nat, to: nat, st: State)
    requires RestIsNew(l, from, |l|, st) && to <= |l|
    ensures RestIsNew(l, from, to, st)
  {}

  lemma RestStaysNew(l: seq<Migration>, k: nat, to: nat, st: State, next: State)
    requires Ascending(l) && k < to <= |l| && RestIsNew(l, k, to, st)
    requires next.rows.Keys <= st.rows.Keys + {IdOf(l[k])}
    ensures RestIsNew(l, k + 1, to, next)
  {
    forall i | k + 1 <= i < to ensures IdOf(l[i]) !in next.rows {
      assert l[k].version != l[i].version;
    }
  }

  ghost predicate UpKept(c: Config, l: seq<Migration>, initial: Schema, st: State, end: State) {
    PrefixState(c, l, initial, end) && (Linked(c.up, initial, st) ==> Linked(c.up, initial, end))
  }

  predicate UpHolds(up: Executor, l: seq<Migration>, inv: (nat, State) -> bool, fin: State -> bool, i: nat, st: State)
    requires i < |l|
  {
    var (next, ok) := ExecuteUp(up, l[i], st);
    if ok then inv(i + 1, next) else fin(next)
  }

  predicate DownHolds(down: Executor, l: seq<Migration>, inv: (nat, State) -> bool, i: nat, st: State)
    requires 0 < i <= |l|
  {
    var (next, ok) := ExecuteDown(down, l[i - 1], st);
    inv(if ok then i - 1 else i, next)
  }

  /** What each up of a stretch of the list keeps, all of them keep: `inv` holds
      while they succeed, `fin` in any case. */
  lemma {:induction false} RunUpsInduction(up: Executor, l: seq<Migration>, inv: (nat, State) -> bool, fin: State -> bool,
                                           k: nat, to: nat, st: State)
    requires k <= to <= |l| && inv(k, st)
    requires forall i: nat, s :: i <= to && inv(i, s) ==> fin(s)
    requires forall i: nat, s {:trigger UpHolds(up, l, inv, fin, i, s)} :: i < to && inv(i, s) ==> UpHolds(up, l, inv, fin, i, s)
    ensures fin(RunUps(up, l[k..to], st).0)
    decreases |l| - k
  {
    if k < to {
      assert l[k..to][0] == l[k] && l[k..to][1..] == l[k + 1..to];
      var (next, ok) := ExecuteUp(up, l[k], st);
      assert UpHolds(up, l, inv, fin, k, st);
      if ok { RunUpsInduction(up, l, inv, fin, k + 1, to, next); }
    }
  }

  /** Before the k-th up of a run from st0. */
  ghost predicate UpsUnderWay(c: Config, l: seq<Migration>, initial: Schema, st0: State, to: nat, k: nat, st: State) {
    UpKept(c, l, initial, st0, st) && |Open(st.journal)| == k && RestIsNew(l, k, to, st)
  }

  lemma UpsGoOn(c: Config, l: seq<Migration>, initial: Schema, st0: State, to: nat, k: nat, st: State)
    requires k < to <= |l| && UpsUnderWay(c, l, initial, st0, to, k, st)
    ensures
      var next := ExecuteUp(c.up, l[k], st);
      UpKept(c, l, initial, st0, next.0) && (next.1 ==> UpsUnderWay(c, l, initial, st0, to, k + 1, next.0))
  {
    UpKeepsPrefix(c, l, initial, st, to);
  }

  lemma RunUpsKeepPrefix(c: Config, l: seq<Migration>, initial: Schema, to: nat, st: State)
    requires PrefixState(c, l, initial, st) && |Open(st.journal)| <= to <= |l|
    requires RestIsNew(l, |Open(st.journal)|, to, st)
    ensures UpKept(c, l, initial, st, RunUps(c.up, l[|Open(st.journal)|..to], st).0)
  {
    var inv := (i: nat, s: State) => UpsUnderWay(c, l, initial, st, to, i, s);
    var fin := (s: State) => UpKept(c, l, initial, st, s);
    forall i: nat, s {:trigger UpHolds(c.up, l, inv, fin, i, s)} | i < to && inv(i, s) ensures UpHolds(c.up, l, inv, fin, i, s) {
      UpsGoOn(c, l, initial, st, to, i, s);
    }
    RunUpsInduction(c.up, l, inv, fin, |Open(st.journal)|, to, st);
  }

  // --------------------------------------------------- going down

  lemma DownKeepsOpen(down: Executor, l: seq<Migration>, st: State)
    requires Ascending(l) && OpenIsPrefix(l, st.journal) && Open(st.journal) != []
    ensures
      var open := Open(st.journal);
      var next := ExecuteDown(down, l[|open| - 1], st);
      OpenIsPrefix(l, next.0.journal) && Open(next.0.journal) == (if next.1 then open[..|open| - 1] else open)
  {
    var m := l[|Open(st.journal)| - 1];
    var (next, ok) := ExecuteDown(down, m, st);
    if ok { UndoLast(l, st.journal, Undid(m, st.schema, next.schema)); }
  }

  lemma DownKeepsPrefix(c: Config, l: seq<Migration>, initial: Schema, st: State)
    requires PrefixState(c, l, initial, st) && Open(st.journal) != []
    ensures
      var open := Open(st.journal);
      var next := ExecuteDown(c.down, l[|open| - 1], st);
      PrefixState(c, l, initial, next.0) && Open(next.0.journal) == (if next.1 then open[..|open| - 1] else open)
  {
    AppliedIsPrefix(c, l, initial, st);
    DownKeepsConsistent(c, initial, l[|Open(st.journal)| - 1], st);
    DownKeepsOpen(c.down, l, st);
  }

  /** Where downs take back ups, linked states stay linked. */
  ghost predicate KeepsLinked(c: Config, initial: Schema, st: State, end: State) {
    Linked(c.up, initial, st) && Inverts(c.up, c.down) ==> Linked(c.up, initial, end)
  }

  lemma DownKeepsLinked(c: Config, l: seq<Migration>, initial: Schema, st: State)
    requires PrefixState(c, l, initial, st) && Open(st.journal) != []
    ensures KeepsLinked(c, initial, st, ExecuteDown(c.down, l[|Open(st.journal)| - 1], st).0)
  {
    var open := Open(st.journal);
    var k := |open| - 1;
    var (next, ok) := ExecuteDown(c.down, l[k], st);
    DownKeepsPrefix(c, l, initial, st);
    if ok && Linked(c.up, initial, st) && Inverts(c.up, c.down) {
      assert Answered(c.up, open[k]);
      LinkedBack(c.up, initial, st, next);
    }
  }

  lemma LinkedBack(up: Executor, initial: Schema, st: State, st': State)
    requires Linked(up, initial, st) && Open(st.journal) != []
    requires Open(st'.journal) == Open(st.journal)[..|Open(st.journal)| - 1]
    requires st'.schema == Open(st.journal)[|Open(st.journal)| - 1].before
    ensures Linked(up, initial, st')
  {
    var open := Open(st'.journal);
    forall i | 0 <= i < |open| ensures open[i].before == SchemaAt(initial, open, i) && Answered(up, open[i]) {
      assert open[i] == Open(st.journal)[i];
    }
  }

  /** The tail undoes these effects, the last one first. */
  predicate UndoesBackwards(tail: seq<Effect>, es: seq<Effect>) {
    if es == [] then tail == []
    else tail != [] && tail[0].Undid? && tail[0].m == es[|es| - 1].m && UndoesBackwards(tail[1..], es[..|es| - 1])
  }

  /** Some of the last migrations are undone, the newest first; the first k'
      stay. */
  ghost predicate Retraced(st: State, end: State, k': nat) {
    && k' <= |Open(st.journal)| && Open(end.journal) == Open(st.journal)[..k']
    && st.journal <= end.journal && UndoesBackwards(end.journal[|st.journal|..], Open(st.journal)[k'..])
  }

  lemma {:induction false} UndoesFirst(tail: seq<Effect>, es: seq<Effect>, e: Effect, x: Effect)
    requires UndoesBackwards(tail, es) && e.Undid? && e.m == x.m
    ensures UndoesBackwards(tail + [e], [x] + es)
    decreases es
  {
    if es == [] {
      assert [x] + es == [x] && tail + [e] == [e];
      assert [x][..0] == [] && [e][1..] == [];
    } else {
      UndoesFirst(tail[1..], es[..|es| - 1], e, x);
      assert (tail + [e])[1..] == tail[1..] + [e];
      assert ([x] + es)[..|[x] + es| - 1] == [x] + es[..|es| - 1];
    }
  }

  lemma RetracedMore(st0: State, k: nat, st: State, e: Effect, next: State)
    requires 0 < k && Retraced(st0, st, k) && next.journal == st.journal + [e] && e.Undid? && e.m == Open(st0.journal)[k - 1].m
    requires Open(next.journal) == Open(st.journal)[..k - 1]
    ensures Retraced(st0, next, k - 1)
  {
    var open := Open(st0.journal);
    assert open[..k][..k - 1] == open[..k - 1];
    assert open[k - 1..] == [open[k - 1]] + open[k..];
    assert next.journal[|st0.journal|..] == st.journal[|st0.journal|..] + [e];
    UndoesFirst(st.journal[|st0.journal|..], open[k..], e, open[k - 1]);
  }

  lemma RetracedNone(st: State)
    ensures Retraced(st, st, |Open(st.journal)|)
  {
    assert Open(st.journal)[..|Open(st.journal)|] == Open(st.journal);
  }

  lemma RetracedOnce(c: Config, l: seq<Migration>, st0: State, k: nat, st: State)
    requires 0 < k <= |l| && Retraced(st0, st, k) && OpenIsPrefix(l, st.journal)
    requires
      var next := ExecuteDown(c.down, l[k - 1], st);
      Open(next.0.journal) == if next.1 then Open(st.journal)[..k - 1] else Open(st.journal)
    ensures
      var next := ExecuteDown(c.down, l[k - 1], st);
      Retraced(st0, next.0, if next.1 then k - 1 else k)
  {
    var (next, ok) := ExecuteDown(c.down, l[k - 1], st);
    if ok {
      assert Open(st.journal)[k - 1] == Open(st0.journal)[k - 1];
      RetracedMore(st0, k, st, Undid(l[k - 1], st.schema, next.schema), next);
    }
  }

  /** The same for downs, from the end of the stretch. */
  lemma {:induction false} RunDownsInduction(down: Executor, l: seq<Migration>, inv: (nat, State) -> bool, j: nat, k: nat, st: State) returns (k': nat)
    requires j <= k <= |l| && inv(k, st)
    requires forall i: nat, s {:trigger DownHolds(down, l, inv, i, s)} :: j < i <= k && inv(i, s) ==> DownHolds(down, l, inv, i, s)
    ensures j <= k' <= k && inv(k', RunDowns(down, l[j..k], st).0) && (RunDowns(down, l[j..k], st).1 <==> k' == j)
    decreases k
  {
    k' := k;
    if j < k {
      assert l[j..k][..|l[j..k]| - 1] == l[j..k - 1] && l[j..k][|l[j..k]| - 1] == l[k - 1];
      var (next, ok) := ExecuteDown(down, l[k - 1], st);
      assert DownHolds(down, l, inv, k, st);
      if ok { k' := RunDownsInduction(down, l, inv, j, k - 1, next); }
    }
  }

  /** When k of the migrations applied in st0 are left. */
  ghost predicate DownsUnderWay(c: Config, l: seq<Migration>, initial: Schema, st0: State, k: nat, st: State) {
    PrefixState(c, l, initial, st) && |Open(st.journal)| == k && KeepsLinked(c, initial, st0, st) && Retraced(st0, st, k)
  }

  lemma DownsGoOn(c: Config, l: seq<Migration>, initial: Schema, st0: State, k: nat, st: State)
    requires 0 < k && DownsUnderWay(c, l, initial, st0, k, st)
    ensures
      var next := ExecuteDown(c.down, l[k - 1], st);
      DownsUnderWay(c, l, initial, st0, if next.1 then k - 1 else k, next.0)
  {
    DownKeepsPrefix(c, l, initial, st);
    DownKeepsLinked(c, l, initial, st);
    RetracedOnce(c, l, st0, k, st);
  }

  lemma {:induction false} RunDownsRetrace(c: Config, l: seq<Migration>, initial: Schema, j: nat, st: State) returns (k': nat)
    requires PrefixState(c, l, initial, st) && j <= |Open(st.journal)|
    ensures DownsUnderWay(c, l, initial, st, k', RunDowns(c.down, l[j..|Open(st.journal)|], st).0)
    ensures j <= k' && (RunDowns(c.down, l[j..|Open(st.journal)|], st).1 <==> k' == j)
  {
    var k := |Open(st.journal)|;
    var inv := (i: nat, s: State) => DownsUnderWay(c, l, initial, st, i, s);
    RetracedNone(st);
    forall i: nat, s {:trigger DownHolds(c.down, l, inv, i, s)} | j < i <= k && inv(i, s) ensures DownHolds(c.down, l, inv, i, s) {
      DownsGoOn(c, l, initial, st, i, s);
    }
    k' := RunDownsInduction(c.down, l, inv, j, k, st);
  }

  // --------------------------------------------------- main results

  /** The most recent version is the last of the prefix. */
  lemma MostRecentIsLast(c: Config, l: seq<Migration>, initial: Schema, st: State, m: Migration)
    requires PrefixState(c, l, initial, st) && m in AllOf(c.sources) && IsMostRecent(st.rows, IdOf(m))
    ensures Open(st.journal) != [] && m == l[|Open(st.journal)| - 1]
  {
    var k := |Open(st.journal)|;
    AppliedIsPrefix(c, l, initial, st);
    var i :| 0 <= i < k && IdOf(l[i]) == IdOf(m);
    assert l[i] in l && m in l;
    UniqueId(c, m);
    assert IsApplied(st.rows, IdOf(l[k - 1]));
    if i < k - 1 { LeqAntisymmetric(l[i].version, l[k - 1].version); }
  }

  /** Down reverts the newest applied migration, DownTo all newer than the
      target: in exact reverse of the order they were applied in, stopping at
      most early. Where every down takes back its up, the schema is then the
      one the remaining migrations had left. */
  lemma DownStepsRetrace(c: Config, l: seq<Migration>, initial: Schema, op: Op, st: State, st': State) returns (k': nat)
    requires PrefixState(c, l, initial, st) && Step(c, op, st, st') && (op.Down? || op.DownTo?)
    ensures PrefixState(c, l, initial, st') && Retraced(st, st', k') && KeepsLinked(c, initial, st, st')
    ensures op.DownTo? ==> forall i :: k' <= i < |Open(st.journal)| ==> Newer(l[i].version, op.version)
  {
    if st' == st {
      RetracedNone(st);
      return |Open(st.journal)|;
    }
    if op.Down? {
      k' := DownRetracesOne(c, l, initial, st, st');
    } else {
      var r :| IsRevertList(c, st, op.version, r) && st' == RunDowns(c.down, r, st).0;
      var j := RevertListIsSuffix(c, l, initial, st, op.version, r);
      k' := RunDownsRetrace(c, l, initial, j, st);
    }
  }

  lemma DownOnce(c: Config, l: seq<Migration>, initial: Schema, st: State) returns (k': nat)
    requires PrefixState(c, l, initial, st) && Open(st.journal) != []
    ensures DownsUnderWay(c, l, initial, st, k', ExecuteDown(c.down, l[|Open(st.journal)| - 1], st).0)
  {
    k' := |Open(st.journal)|;
    RetracedNone(st);
    DownsGoOn(c, l, initial, st, k', st);
    if ExecuteDown(c.down, l[k' - 1], st).1 { k' := k' - 1; }
  }

  lemma DownRetracesOne(c: Config, l: seq<Migration>, initial: Schema, st: State, st': State) returns (k': nat)
    requires PrefixState(c, l, initial, st) && DownStep(c, st, st') && st' != st
    ensures PrefixState(c, l, initial, st') && Retraced(st, st', k') && KeepsLinked(c, initial, st, st')
  {
    var m :| m in AllOf(c.sources) && IsMostRecent(st.rows, IdOf(m)) && st' == ExecuteDown(c.down, m, st).0;
    MostRecentIsLast(c, l, initial, st, m);
    k' := DownOnce(c, l, initial, st);
  }

  lemma UpStepKeepsPrefix(c: Config, l: seq<Migration>, initial: Schema, st: State, st': State)
    requires PrefixState(c, l, initial, st) && UpStep(c, st, st') && st' != st
    ensures UpKept(c, l, initial, st, st')
  {
    var p :| IsPending(c, st, p) && st' == RunUps(c.up, p, st).0;
    RestIsPending(c, l, initial, st, p);
    assert l[|Open(st.journal)|..|l|] == p;
    RunUpsKeepPrefix(c, l, initial, |l|, st);
  }

  lemma UpOneStepKeepsPrefix(c: Config, l: seq<Migration>, initial: Schema, st: State, st': State)
    requires PrefixState(c, l, initial, st) && UpOneStep(c, st, st') && st' != st
    ensures UpKept(c, l, initial, st, st')
  {
    var p :| IsPending(c, st, p) && p != [] && st' == ExecuteUp(c.up, p[0], st).0;
    RestIsPending(c, l, initial, st, p);
    assert l[|Open(st.journal)|] == p[0];
    UpKeepsPrefix(c, l, initial, st, |l|);
  }

  lemma UpToPart(l: seq<Migration>, k: nat, version: string) returns (to: nat)
    requires Ascending(l) && k <= |l|
    ensures k <= to <= |l| && UpToVersion(l[k..], version) == l[k..to]
  {
    var p := l[k..];
    UpToVersionIsPrefix(p, version);
    to := k + |UpToVersion(p, version)|;
    assert p[..to - k] == l[k..to];
  }

  lemma UpToStepKeepsPrefix(c: Config, l: seq<Migration>, initial: Schema, version: string, st: State, st': State)
    requires PrefixState(c, l, initial, st) && UpToStep(c, version, st, st') && st' != st
    ensures UpKept(c, l, initial, st, st')
  {
    var k := |Open(st.journal)|;
    var p :| IsPending(c, st, p) && st' == RunUps(c.up, UpToVersion(p, version), st).0;
    RestIsPending(c, l, initial, st, p);
    var to := UpToPart(l, k, version);
    RestSplits(l, k, to, st);
    RunUpsKeepPrefix(c, l, initial, to, st);
  }

  lemma UpStepsKeepPrefix(c: Config, l: seq<Migration>, initial: Schema, op: Op, st: State, st': State)
    requires PrefixState(c, l, initial, st) && Step(c, op, st, st') && (op.Up? || op.UpOne? || op.UpTo?)
    ensures UpKept(c, l, initial, st, st')
  {
    if st' != st {
      match op
      case Up => UpStepKeepsPrefix(c, l, initial, st, st');
      case UpOne => UpOneStepKeepsPrefix(c, l, initial, st, st');
      case UpTo(version) => UpToStepKeepsPrefix(c, l, initial, version, st, st');
    }
  }

  /** What is pending is the rest of the list, without rows. */
  lemma RestIsPending(c: Config, l: seq<Migration>, initial: Schema, st: State, p: seq<Migration>)
    requires PrefixState(c, l, initial, st) && IsPending(c, st, p) && !Dirty(st.rows)
    ensures p == l[|Open(st.journal)|..] && Ascending(p) && RestIsNew(l, |Open(st.journal)|, |l|, st)
  {
    var k := |Open(st.journal)|;
    PendingFacts(c, st, p);
    PendingIsRest(c, l, initial, st, p);
    forall i | k <= i < |l| ensures IdOf(l[i]) !in st.rows {
      assert l[i] == l[k..][i - k];
      assert p[i - k] in p;
    }
  }

  lemma StepKeepsPrefix(c: Config, l: seq<Migration>, initial: Schema, op: Op, st: State, st': State)
    requires PrefixState(c, l, initial, st) && Step(c, op, st, st')
    ensures PrefixState(c, l, initial, st') && KeepsLinked(c, initial, st, st')
  {
    if op.Down? || op.DownTo? {
      var _ := DownStepsRetrace(c, l, initial, op, st, st');
    } else {
      UpStepsKeepPrefix(c, l, initial, op, st, st');
    }
  }

  /** Over every run from an empty database the applied set is a prefix in
      version order; where downs take back ups, the schema depends only on it. */
  lemma {:induction false} RunsKeepPrefix(c: Config, l: seq<Migration>, initial: Schema, ops: seq<Op>, states: seq<State>, k: nat)
    requires Listing(c, l) && Run(c, ops, states) && k <= |ops|
    requires states[0].journal == [] && states[0].rows == map[] && states[0].schema == initial
    ensures PrefixState(c, l, initial, states[k])
    ensures Inverts(c.up, c.down) ==> Linked(c.up, initial, states[k])
  {
    if k > 0 {
      RunsKeepPrefix(c, l, initial, ops, states, k - 1);
      StepKeepsPrefix(c, l, initial, ops[k - 1], states[k - 1], states[k]);
    } else {
      EmptyIsConsistent(c, initial, states[0].moment);
    }
  }
}
