/** Directed graphs of names: paths, cycles and orders that respect edges.
    A graph maps a name to the list of names it points at; repeated entries
    and entries that are no keys themselves are allowed. */
module Digraphs {
  type Graph = map<string, seq<string>>

  function Targets(g: Graph, n: string): seq<string> {
    if n in g then g[n] else []
  }

  predicate Edge(g: Graph, a: string, b: string) {
    b in Targets(g, a)
  }

  predicate StepAt(g: Graph, p: seq<string>, i: int) {
    0 <= i < |p| - 1 && Edge(g, p[i], p[i + 1])
  }

  predicate IsPath(g: Graph, p: seq<string>) {
    |p| >= 1 && forall i :: 0 <= i < |p| - 1 ==> StepAt(g, p, i)
  }

  /** A closed walk along at least one edge. */
  predicate IsCycle(g: Graph, p: seq<string>) {
    IsPath(g, p) && |p| >= 2 && p[0] == p[|p| - 1]
  }

  ghost predicate Acyclic(g: Graph) {
    forall p :: !IsCycle(g, p)
  }

  ghost predicate Reaches(g: Graph, a: string, b: string) {
    exists p :: IsPath(g, p) && p[0] == a && p[|p| - 1] == b
  }

  predicate Distinct(s: seq<string>) {
    forall i, j :: 0 <= i < j < |s| ==> s[i] != s[j]
  }

  function Elements(s: seq<string>): set<string> {
    set n | n in s
  }

  /** All names of a graph. */
  function Names(g: Graph): set<string> {
    g.Keys + set n, m | n in g && m in g[n] :: m
  }

  /** Every target that is a key stands before its source. */
  ghost predicate TargetsFirst(g: Graph, order: seq<string>) {
    forall i, b :: 0 <= i < |order| && Edge(g, order[i], b) && b in g ==> b in order[..i]
  }

  /** The same for all targets, keys or not. */
  ghost predicate AllTargetsFirst(g: Graph, order: seq<string>) {
    forall i, b :: 0 <= i < |order| && Edge(g, order[i], b) ==> b in order[..i]
  }

  lemma AppendToPath(g: Graph, p: seq<string>, b: string)
    requires IsPath(g, p) && Edge(g, p[|p| - 1], b)
    ensures IsPath(g, p + [b])
  {
    var q := p + [b];
    forall i | 0 <= i < |q| - 1 ensures StepAt(g, q, i) {
      if i < |p| - 1 { assert StepAt(g, p, i); }
    }
  }

  lemma PathSuffix(g: Graph, p: seq<string>, k: nat)
    requires IsPath(g, p) && k < |p|
    ensures IsPath(g, p[k..])
  {
    var q := p[k..];
    forall i | 0 <= i < |q| - 1 ensures StepAt(g, q, i) {
      assert StepAt(g, p, k + i);
    }
  }

  /** Along edges between keys, positions in such an order only go down. */
  lemma {:induction false} PathGoesDown(g: Graph, order: seq<string>, p: seq<string>, i: nat)
    requires TargetsFirst(g, order) && IsPath(g, p) && |p| >= 2
    requires forall k :: 0 <= k < |p| ==> p[k] in g
    requires i < |order| && p[0] == order[i]
    ensures p[|p| - 1] in order[..i]
    decreases |p|
  {
    assert StepAt(g, p, 0);
    var j :| 0 <= j < i && order[j] == p[1];
    if |p| > 2 {
      PathSuffix(g, p, 1);
      PathGoesDown(g, order, p[1..], j);
      assert order[..j] <= order[..i];
    }
  }

  lemma CycleNamesAreKeys(g: Graph, c: seq<string>)
    requires IsCycle(g, c)
    ensures forall k :: 0 <= k < |c| ==> c[k] in g
  {
    forall k | 0 <= k < |c| ensures c[k] in g {
      if k < |c| - 1 { assert StepAt(g, c, k); } else { assert StepAt(g, c, 0); }
    }
  }

  /** A graph whose keys can be so ordered has no cycle. */
  lemma OrderedIsAcyclic(g: Graph, order: seq<string>)
    requires TargetsFirst(g, order) && Distinct(order) && forall n :: n in g ==> n in order
    ensures Acyclic(g)
  {
    forall c ensures !IsCycle(g, c) {
      if IsCycle(g, c) {
        CycleNamesAreKeys(g, c);
        var i :| 0 <= i < |order| && order[i] == c[0];
        PathGoesDown(g, order, c, i);
        assert false;
      }
    }
  }

  /** A walk that comes back to one of its own nodes contains a cycle. */
  lemma ReturnIsCycle(g: Graph, p: seq<string>, k: nat)
    requires IsPath(g, p) && k < |p| - 1 && p[k] == p[|p| - 1]
    ensures IsCycle(g, p[k..]) && !Acyclic(g)
  {
    PathSuffix(g, p, k);
    assert IsCycle(g, p[k..]);
  }

  lemma AppendToOrder(g: Graph, order: seq<string>, n: string)
    requires AllTargetsFirst(g, order) && forall b :: Edge(g, n, b) ==> b in order
    ensures AllTargetsFirst(g, order + [n])
  {
    var q := order + [n];
    forall i, b | 0 <= i < |q| && Edge(g, q[i], b) ensures b in q[..i] {
      if i < |order| {
        assert q[..i] == order[..i];
      } else {
        assert q[..i] == order;
      }
    }
  }

  lemma AllTargetsFirstSuffices(g: Graph, order: seq<string>)
    requires AllTargetsFirst(g, order)
    ensures TargetsFirst(g, order)
  {}

  lemma ElementsAppend(s: seq<string>, n: string)
    ensures Elements(s + [n]) == Elements(s) + {n}
  {
    assert forall x :: x in s + [n] <==> x in s || x == n;
  }

  lemma PathPrefix(g: Graph, p: seq<string>, k: nat)
    requires IsPath(g, p) && k < |p|
    ensures IsPath(g, p[..k + 1])
  {
    var q := p[..k + 1];
    forall i | 0 <= i < |q| - 1 ensures StepAt(g, q, i) {
      assert StepAt(g, p, i);
    }
  }
}
