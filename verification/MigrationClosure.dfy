/** Going up respects the dependencies between sources: at no moment is a
    migration applied while one of a source it depends on is missing. */
module MigrationClosure {
  import opened Digraphs
  import opened MigrationOrder
  import opened MigrationRuns
  import opened MigrationPrefixes

  /** Directly or through other sources. */
  ghost predicate DependsOn(c: Config, source: string, other: string) {
    source != other && Reaches(SourceGraph(c), source, other)
  }

  /** Whatever is applied, all of the sources it depends on is applied. */
  ghost predicate DependencyClosed(c: Config, rows: map<Id, Row>) {
    forall m, x ::
      m in AllOf(c.sources) && x in AllOf(c.sources) && IsApplied(rows, IdOf(m)) && DependsOn(c, m.source, x.source) ==>
      IsApplied(rows, IdOf(x))
  }

  lemma {:induction false} SourceOfListed(sources: seq<Source>, m: Migration) returns (s: Source)
    requires m in AllOf(sources)
    ensures s in sources && m in s.migrations
  {
    var k := |sources| - 1;
    if m in sources[k].migrations {
      s := sources[k];
    } else {
      s := SourceOfListed(sources[..k], m);
    }
  }

  lemma SourceIsKnown(c: Config, m: Migration)
    requires WellFormed(c) && m in AllOf(c.sources)
    ensures m.source in SourceGraph(c)
  {
    var s := SourceOfListed(c.sources, m);
    assert s.name == m.source;
  }

  lemma {:induction false} PositionIsFirst(order: seq<string>, i: nat)
    requires i < |order| && Distinct(order)
    ensures Priority(order, order[i]) == i
  {
    var p := PositionIn(order, order[i]);
    assert order[p] == order[i];
  }

  /** A source stands behind every source it depends on. */
  lemma DependencyStandsFirst(c: Config, order: seq<string>, m: Migration, x: Migration)
    requires WellFormed(c) && IsOrder(SourceGraph(c), order)
    requires m in AllOf(c.sources) && x in AllOf(c.sources) && DependsOn(c, m.source, x.source)
    ensures Priority(order, x.source) < Priority(order, m.source)
  {
    var g := SourceGraph(c);
    var p :| IsPath(g, p) && p[0] == m.source && p[|p| - 1] == x.source;
    SourceIsKnown(c, m);
    SourceIsKnown(c, x);
    assert m.source in Elements(order);
    forall k | 0 <= k < |p| ensures p[k] in g {
      if k < |p| - 1 { assert StepAt(g, p, k); }
    }
    var i := PositionIn(order, m.source);
    PathGoesDown(g, order, p, i);
    var j :| 0 <= j < i && order[j] == x.source;
    PositionIsFirst(order, i);
    PositionIsFirst(order, j);
  }

  /** In the pending list, missing dependencies come first. */
  lemma DependencyComesFirst(c: Config, st: State, p: seq<Migration>, i: nat, x: Migration) returns (j: nat)
    requires WellFormed(c) && IsPending(c, st, p) && i < |p|
    requires x in AllOf(c.sources) && !IsApplied(st.rows, IdOf(x)) && DependsOn(c, p[i].source, x.source)
    ensures j < i && p[j] == x
  {
    PendingFacts(c, st, p);
    var order :| IsOrder(SourceGraph(c), order) && InOrder(order, p);
    assert p[i] in p;
    DependencyStandsFirst(c, order, p[i], x);
    assert x in p;
    j :| 0 <= j < |p| && p[j] == x;
    forall a, b | 0 <= a <= b < |p| ensures Priority(order, p[a].source) <= Priority(order, p[b].source) {
      PriorityGoesUp(order, p, a, b);
    }
  }

  lemma PriorityGoesUp(order: seq<string>, p: seq<Migration>, a: nat, b: nat)
    requires InOrder(order, p) && a <= b < |p|
    ensures Priority(order, p[a].source) <= Priority(order, p[b].source)
  {
    if a < b { assert NotAfter(order, p[a], p[b]); }
  }

  /** The first k of the list are applied beside what was. */
  ghost predicate AppliedAlso(rows0: map<Id, Row>, p: seq<Migration>, k: nat, rows: map<Id, Row>) {
    k <= |p| && forall id :: IsApplied(rows, id) <==> IsApplied(rows0, id) || exists i :: 0 <= i < k && IdOf(p[i]) == id
  }

  lemma PartStaysClosed(c: Config, st: State, p: seq<Migration>, k: nat, rows: map<Id, Row>)
    requires WellFormed(c) && IsPending(c, st, p) && DependencyClosed(c, st.rows) && AppliedAlso(st.rows, p, k, rows)
    ensures DependencyClosed(c, rows)
  {
    forall m, x | m in AllOf(c.sources) && x in AllOf(c.sources) && IsApplied(rows, IdOf(m)) && DependsOn(c, m.source, x.source)
      ensures IsApplied(rows, IdOf(x))
    {
      if !IsApplied(st.rows, IdOf(x)) {
        assert !IsApplied(st.rows, IdOf(m));
        var i :| 0 <= i < k && IdOf(p[i]) == IdOf(m);
        var j := DependencyComesFirst(c, st, p, i, x);
        assert IdOf(p[j]) == IdOf(x);
      }
    }
  }

  lemma OneMoreApplied(up: Executor, rows0: map<Id, Row>, p: seq<Migration>, k: nat, st: State)
    requires k < |p| && DistinctIds(p) && AppliedAlso(rows0, p, k, st.rows)
    requires (forall i :: k <= i < |p| ==> IdOf(p[i]) !in st.rows)
    ensures
      var next := ExecuteUp(up, p[k], st);
      && (next.1 ==> AppliedAlso(rows0, p, k + 1, next.0.rows) && forall i :: k + 1 <= i < |p| ==> IdOf(p[i]) !in next.0.rows)
      && (!next.1 ==> AppliedAlso(rows0, p, k, next.0.rows))
  {
    var (next, ok) := ExecuteUp(up, p[k], st);
    if ok {
      assert next.rows == st.rows[IdOf(p[k]) := Row(Applied, p[k].checksum)];
      forall id ensures IsApplied(next.rows, id) <==> IsApplied(rows0, id) || exists i :: 0 <= i < k + 1 && IdOf(p[i]) == id {
        assert IsApplied(next.rows, id) <==> IsApplied(st.rows, id) || id == IdOf(p[k]);
      }
    } else {
      forall id ensures IsApplied(next.rows, id) <==> IsApplied(st.rows, id) {}
    }
  }

  /** Up's states on the way: after any first part of the pending list. */
  lemma PartIsApplied(c: Config, st: State, p: seq<Migration>, to: nat) returns (k: nat)
    requires WellFormed(c) && IsPending(c, st, p) && !Dirty(st.rows) && to <= |p|
    ensures AppliedAlso(st.rows, p, k, RunUps(c.up, p[..to], st).0.rows)
  {
    PendingFacts(c, st, p);
    forall i | 0 <= i < |p| ensures IdOf(p[i]) !in st.rows { assert p[i] in p; }
    var inv := (i: nat, s: State) => AppliedAlso(st.rows, p, i, s.rows) && forall j :: i <= j < |p| ==> IdOf(p[j]) !in s.rows;
    var fin := (s: State) => exists i: nat :: AppliedAlso(st.rows, p, i, s.rows);
    forall i: nat, s {:trigger UpHolds(c.up, p, inv, fin, i, s)} | i < to && inv(i, s) ensures UpHolds(c.up, p, inv, fin, i, s) {
      OneMoreApplied(c.up, st.rows, p, i, s);
    }
    RunUpsInduction(c.up, p, inv, fin, 0, to, st);
    assert p[0..to] == p[..to];
    k :| AppliedAlso(st.rows, p, k, RunUps(c.up, p[..to], st).0.rows);
  }

  /** Every state Up or UpOne passes through. */
  ghost predicate OnTheWay(c: Config, op: Op, st: State, mid: State) {
    mid == st ||
    (!Blocked(c, st) && exists p, to: nat ::
       IsPending(c, st, p) && to <= |p| && (op.UpOne? ==> to <= 1) && mid == RunUps(c.up, p[..to], st).0)
  }

  lemma EndIsOnTheWay(c: Config, op: Op, st: State, st': State)
    requires (op.Up? || op.UpOne?) && Step(c, op, st, st')
    ensures OnTheWay(c, op, st, st')
  {
    if st' != st {
      if op.Up? {
        var p :| IsPending(c, st, p) && st' == RunUps(c.up, p, st).0;
        assert p[..|p|] == p;
      } else {
        var p :| IsPending(c, st, p) && p != [] && st' == ExecuteUp(c.up, p[0], st).0;
        assert p[..1][0] == p[0] && p[..1][1..] == [];
        assert st' == RunUps(c.up, p[..1], st).0;
      }
    }
  }

  /** From a closed applied set, every state on the way is closed. */
  lemma UpStaysClosed(c: Config, op: Op, st: State, mid: State)
    requires WellFormed(c) && DependencyClosed(c, st.rows) && (op.Up? || op.UpOne?) && OnTheWay(c, op, st, mid)
    ensures DependencyClosed(c, mid.rows)
  {
    if mid != st {
      var p, to: nat :| IsPending(c, st, p) && to <= |p| && (op.UpOne? ==> to <= 1) && mid == RunUps(c.up, p[..to], st).0;
      var k := PartIsApplied(c, st, p, to);
      PartStaysClosed(c, st, p, k, mid.rows);
    }
  }

  ghost predicate OnlyUps(ops: seq<Op>) {
    forall i :: 0 <= i < |ops| ==> ops[i].Up? || ops[i].UpOne?
  }

  lemma {:induction false} StatesStayClosed(c: Config, ops: seq<Op>, states: seq<State>, k: nat)
    requires WellFormed(c) && Run(c, ops, states) && OnlyUps(ops) && DependencyClosed(c, states[0].rows) && k <= |ops|
    ensures DependencyClosed(c, states[k].rows)
  {
    if k > 0 {
      StatesStayClosed(c, ops, states, k - 1);
      assert Step(c, ops[k - 1], states[k - 1], states[k - 1 + 1]);
      EndIsOnTheWay(c, ops[k - 1], states[k - 1], states[k]);
      UpStaysClosed(c, ops[k - 1], states[k - 1], states[k]);
    }
  }

  /** Every run of Up and UpOne from a closed applied set keeps it closed, in
      every state between and inside the operations. */
  lemma UpRunsStayClosed(c: Config, ops: seq<Op>, states: seq<State>, k: nat, mid: State)
    requires WellFormed(c) && Run(c, ops, states) && OnlyUps(ops) && DependencyClosed(c, states[0].rows)
    requires k < |ops| && OnTheWay(c, ops[k], states[k], mid)
    ensures DependencyClosed(c, mid.rows)
  {
    StatesStayClosed(c, ops, states, k);
    UpStaysClosed(c, ops[k], states[k], mid);
  }
}
