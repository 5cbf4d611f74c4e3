/** Kahn's topological sort: the bookkeeping the two dependency sorts share. */
module KahnSort {
  import opened Digraphs
  import opened StringOrder

  /** Number of entries outside a set of finished names, repeats counted. */
  function Remaining(deps: seq<string>, done: set<string>): (k: nat)
    ensures k <= |deps|
  {
    if deps == [] then 0 else (if deps[0] in done then 0 else 1) + Remaining(deps[1..], done)
  }

  lemma {:induction false} RemainingZero(deps: seq<string>, done: set<string>)
    ensures Remaining(deps, done) == 0 <==> forall d :: d in deps ==> d in done
  {
    if deps != [] {
      RemainingZero(deps[1..], done);
      assert forall d :: d in deps <==> d == deps[0] || d in deps[1..];
    }
  }

  /** Finishing one more name takes off its number of entries. */
  lemma {:induction false} RemainingStep(deps: seq<string>, done: set<string>, c: string)
    requires c !in done
    ensures Remaining(deps, done) == Remaining(deps, done + {c}) + multiset(deps)[c]
  {
    if deps != [] {
      RemainingStep(deps[1..], done, c);
      assert deps == [deps[0]] + deps[1..];
      assert multiset(deps)[c] == (if deps[0] == c then 1 else 0) + multiset(deps[1..])[c];
    }
  }

  lemma {:induction false} RemainingOfNone(deps: seq<string>)
    ensures Remaining(deps, {}) == |deps|
  {
    if deps != [] { RemainingOfNone(deps[1..]); }
  }

  /** Names not finished whose dependencies all are. */
  ghost function Ready(g: Graph, done: set<string>): set<string> {
    set n | n in g && n !in done && Remaining(g[n], done) == 0
  }

  /** A finished name's dependencies are finished. */
  ghost predicate Settled(g: Graph, done: set<string>) {
    forall n :: n in g && n in done ==> Remaining(g[n], done) == 0
  }

  lemma SettledStep(g: Graph, done: set<string>, current: string)
    requires current in Ready(g, done) && Settled(g, done)
    ensures Settled(g, done + {current})
  {
    forall n | n in g && n in done + {current} ensures Remaining(g[n], done + {current}) == 0 {
      RemainingStep(g[n], done, current);
    }
  }

  predicate Once(s: seq<string>) {
    forall n :: n in s ==> multiset(s)[n] == 1
  }

  lemma {:induction false} OnceIsDistinct(s: seq<string>)
    ensures Once(s) <==> Distinct(s)
  {
    if s != [] {
      OnceIsDistinct(s[1..]);
      assert s == [s[0]] + s[1..];
      assert forall n :: multiset(s)[n] == (if n == s[0] then 1 else 0) + multiset(s[1..])[n];
      if Distinct(s) {
        assert Distinct(s[1..]);
        forall n | n in s ensures multiset(s)[n] == 1 {
          if n == s[0] { assert n !in s[1..]; }
        }
      }
      if Once(s) {
        assert s[0] !in s[1..] by {
          assert s[0] in s && multiset(s[1..])[s[0]] == 0;
        }
        forall n | n in s[1..] ensures multiset(s[1..])[n] == 1 { assert n in s; }
        forall i, j | 0 <= i < j < |s| ensures s[i] != s[j] {
          assert s[j] == s[1..][j - 1];
          if i > 0 { assert s[i] == s[1..][i - 1]; }
        }
      }
    }
  }

  /** In-degrees and reversed adjacency of a graph, counted entry by entry. */
  ghost predicate Counts(g: Graph, done: set<string>, inDegree: map<string, int>, dependents: map<string, seq<string>>) {
    && inDegree.Keys == g.Keys
    && (forall n :: n in g ==> inDegree[n] == Remaining(g[n], done))
    && ReversedEntries(g, dependents)
  }

  /** How often d lists n as a dependent. */
  function Count(dependents: map<string, seq<string>>, d: string, n: string): nat {
    if d in dependents then multiset(dependents[d])[n] else 0
  }

  /** How often n lists d as a dependency. */
  function Listed(g: Graph, n: string, d: string): nat {
    multiset(Targets(g, n))[d]
  }

  /** The dependents lists mirror the dependency lists, repeats included. */
  ghost predicate ReversedEntries(g: Graph, dependents: map<string, seq<string>>) {
    forall d, n :: d in g ==> Count(dependents, d, n) == Listed(g, n, d)
  }

  lemma ReversedNeighbors(g: Graph, dependents: map<string, seq<string>>, current: string)
    requires ReversedEntries(g, dependents) && current in g && current in dependents
    ensures NeighborsOf(g, current, dependents[current])
  {
    var neighbors := dependents[current];
    forall n ensures multiset(neighbors)[n] == Listed(g, n, current) {
      assert Count(dependents, current, n) == Listed(g, n, current);
    }
    forall n | n in neighbors ensures n in g { assert Listed(g, n, current) > 0; }
  }

  lemma SortedNeighbors(g: Graph, current: string, neighbors: seq<string>)
    requires NeighborsOf(g, current, neighbors)
    ensures NeighborsOf(g, current, SortStrings(neighbors))
  {
    SortStringsSorts(neighbors);
    forall n | n in SortStrings(neighbors) ensures n in neighbors {
      assert n in multiset(SortStrings(neighbors));
    }
  }

  lemma SortingKeepsEntries(g: Graph, dependents: map<string, seq<string>>, current: string)
    requires ReversedEntries(g, dependents) && current in dependents
    ensures ReversedEntries(g, dependents[current := SortStrings(dependents[current])])
  {
    SortStringsSorts(dependents[current]);
    var after := dependents[current := SortStrings(dependents[current])];
    forall d, n | d in g ensures Count(after, d, n) == Listed(g, n, d) {
      assert Count(dependents, d, n) == Listed(g, n, d);
    }
  }

  lemma AddEntry(dependents: map<string, seq<string>>, d: string, n: string)
    ensures
      var after := dependents[d := (if d in dependents then dependents[d] else []) + [n]];
      forall x, y :: Count(after, x, y) == Count(dependents, x, y) + if x == d && y == n then 1 else 0
  {}

  ghost predicate QueueIs(g: Graph, done: set<string>, queue: seq<string>) {
    Elements(queue) == Ready(g, done) && Once(queue)
  }

  /** The first j decrements are done, and what reached zero is queued. */
  ghost predicate Decremented(g: Graph, done: set<string>, neighbors: seq<string>, j: nat,
                              inDegree: map<string, int>, rest: seq<string>, queue: seq<string>) {
    && j <= |neighbors| && inDegree.Keys == g.Keys && Once(queue)
    && (forall n :: n in g ==> inDegree[n] == Remaining(g[n], done) - multiset(neighbors[..j])[n])
    && (forall n :: n in queue <==> n in rest || (n in g && Remaining(g[n], done) > 0 && inDegree[n] == 0))
  }

  ghost predicate NeighborsOf(g: Graph, current: string, neighbors: seq<string>) {
    current in g
    && (forall n :: n in g ==> multiset(neighbors)[n] == multiset(g[n])[current])
    && (forall n :: n in neighbors ==> n in g)
  }

  /** Take `current` off the queue and decrement its dependents; the ones that
      reach zero are queued. The migration sort keeps its queue sorted. */
  method Relax(ghost g: Graph, ghost done: set<string>, ghost current: string, neighbors: seq<string>,
               inDegree0: map<string, int>, rest: seq<string>, keepSorted: bool)
    returns (inDegree: map<string, int>, queue: seq<string>)
    requires NeighborsOf(g, current, neighbors) && current in Ready(g, done) && Settled(g, done)
    requires inDegree0.Keys == g.Keys && forall n :: n in g ==> inDegree0[n] == Remaining(g[n], done)
    requires Elements(rest) == Ready(g, done) - {current} && Once(rest) && (keepSorted ==> SortedStrings(rest))
    ensures inDegree.Keys == g.Keys && forall n :: n in g ==> inDegree[n] == Remaining(g[n], done + {current})
    ensures QueueIs(g, done + {current}, queue) && (keepSorted ==> SortedStrings(queue))
  {
    inDegree, queue := inDegree0, rest;
    assert neighbors[..0] == [];
    RestHasNone(g, done, rest);
    var j := 0;
    while j < |neighbors|
      invariant 0 <= j <= |neighbors| && Decremented(g, done, neighbors, j, inDegree, rest, queue)
      invariant keepSorted ==> SortedStrings(queue)
    {
      inDegree, queue := Decrement(g, done, current, neighbors, j, inDegree, rest, queue, keepSorted);
      j := j + 1;
    }
    assert neighbors[..|neighbors|] == neighbors;
    ReadyStep(g, done, current, inDegree, rest, queue);
  }

  lemma RestHasNone(g: Graph, done: set<string>, rest: seq<string>)
    requires Elements(rest) <= Ready(g, done)
    ensures forall n :: n in rest ==> n in g && Remaining(g[n], done) == 0
  {
    forall n | n in rest ensures n in g && Remaining(g[n], done) == 0 { assert n in Elements(rest); }
  }

  method Decrement(ghost g: Graph, ghost done: set<string>, ghost current: string, neighbors: seq<string>, j: nat,
                   inDegree0: map<string, int>, ghost rest: seq<string>, queue0: seq<string>, keepSorted: bool)
    returns (inDegree: map<string, int>, queue: seq<string>)
    requires NeighborsOf(g, current, neighbors) && current in Ready(g, done) && j < |neighbors|
    requires Decremented(g, done, neighbors, j, inDegree0, rest, queue0) && (keepSorted ==> SortedStrings(queue0))
    requires forall n :: n in rest ==> n in g && Remaining(g[n], done) == 0
    ensures Decremented(g, done, neighbors, j + 1, inDegree, rest, queue) && (keepSorted ==> SortedStrings(queue))
  {
    var neighbor := neighbors[j];
    RemainingStep(g[neighbor], done, current);
    CountSoFar(neighbors, j);
    CountNext(neighbors, j);
    assert inDegree0[neighbor] >= 1;
    inDegree := inDegree0[neighbor := inDegree0[neighbor] - 1];
    queue := queue0;
    if inDegree[neighbor] == 0 {
      queue := Push(queue, neighbor, keepSorted);
    }
  }

  lemma CountNext(neighbors: seq<string>, j: nat)
    requires j < |neighbors|
    ensures forall n :: multiset(neighbors[..j + 1])[n] == multiset(neighbors[..j])[n] + if n == neighbors[j] then 1 else 0
  {
    assert neighbors[..j + 1] == neighbors[..j] + [neighbors[j]];
  }

  /** The queue after one name is finished holds the names now ready. */
  lemma ReadyStep(g: Graph, done: set<string>, current: string, inDegree: map<string, int>, rest: seq<string>, queue: seq<string>)
    requires current in Ready(g, done) && inDegree.Keys == g.Keys && Settled(g, done)
    requires forall n :: n in g ==> inDegree[n] == Remaining(g[n], done) - multiset(g[n])[current]
    requires Elements(rest) == Ready(g, done) - {current}
    requires forall n :: n in queue <==> n in rest || (n in g && Remaining(g[n], done) > 0 && inDegree[n] == 0)
    ensures forall n :: n in g ==> inDegree[n] == Remaining(g[n], done + {current})
    ensures Elements(queue) == Ready(g, done + {current})
  {
    forall n | n in g ensures inDegree[n] == Remaining(g[n], done + {current}) { RemainingStep(g[n], done, current); }
    forall n ensures n in queue <==> n in Ready(g, done + {current}) {
      assert n in rest <==> n in Elements(rest);
      if n in g {
        RemainingStep(g[n], done, current);
      }
    }
  }

  method Push(queue: seq<string>, n: string, keepSorted: bool) returns (r: seq<string>)
    requires Once(queue) && n !in queue && (keepSorted ==> SortedStrings(queue))
    ensures Once(r) && (forall x :: x in r <==> x in queue || x == n) && (keepSorted ==> SortedStrings(r))
  {
    PushOnce(queue, n);
    r := queue + [n];
    if keepSorted {
      SortStringsSorts(r);
      SortKeeps(r);
      r := SortStrings(r);
    }
  }

  /** One more neighbor counts one more; it is among those still to come. */
  lemma CountSoFar(neighbors: seq<string>, j: nat)
    requires j < |neighbors|
    ensures neighbors[..j + 1] == neighbors[..j] + [neighbors[j]]
    ensures multiset(neighbors[..j])[neighbors[j]] + 1 <= multiset(neighbors)[neighbors[j]]
  {
    assert neighbors == neighbors[..j] + [neighbors[j]] + neighbors[j + 1..];
  }

  lemma PushOnce(queue: seq<string>, n: string)
    requires Once(queue) && n !in queue
    ensures Once(queue + [n]) && forall x :: x in queue + [n] <==> x in queue || x == n
  {
    forall x | x in queue + [n] ensures multiset(queue + [n])[x] == 1 {
      if x != n { assert x in queue; } else { assert multiset(queue)[n] == 0; }
    }
  }

  lemma SortKeeps(s: seq<string>)
    requires Once(s)
    ensures Once(SortStrings(s)) && forall x :: x in SortStrings(s) <==> x in s
  {
    SortStringsSorts(s);
    forall x ensures x in SortStrings(s) <==> x in s {
      assert x in SortStrings(s) <==> x in multiset(SortStrings(s));
    }
  }

  lemma PopOnce(queue: seq<string>)
    requires queue != [] && Once(queue)
    ensures Once(queue[1..]) && Elements(queue[1..]) == Elements(queue) - {queue[0]}
  {
    OnceIsDistinct(queue);
    OnceIsDistinct(queue[1..]);
    assert forall x :: x in queue <==> x == queue[0] || x in queue[1..];
  }

  ghost predicate TargetsAreKeys(g: Graph) {
    forall n, d :: n in g && d in g[n] ==> d in g
  }

  /** When all names can be ordered, one is ready until all are finished. */
  lemma OrderedNeverSticks(g: Graph, done: set<string>, order: seq<string>)
    requires TargetsAreKeys(g) && Ready(g, done) == {} && done <= g.Keys
    requires TargetsFirst(g, order) && forall n :: n in g ==> n in order
    ensures done == g.Keys
  {
    forall n | n in g ensures n in done {
      if n !in done {
        var i :| 0 <= i < |order| && order[i] == n;
        FirstLeft(g, done, order, i);
      }
    }
  }

  lemma {:induction false} FirstLeft(g: Graph, done: set<string>, order: seq<string>, i: nat)
    requires TargetsAreKeys(g) && TargetsFirst(g, order)
    requires i < |order| && order[i] in g && order[i] !in done
    ensures Ready(g, done) != {}
    decreases i
  {
    var n := order[i];
    RemainingZero(g[n], done);
    if forall d :: d in g[n] ==> d in done {
      assert n in Ready(g, done);
    } else {
      var d :| d in g[n] && d !in done;
      assert d in g && Edge(g, order[i], d);
      assert d in order[..i];
      var j :| 0 <= j < i && order[j] == d;
      FirstLeft(g, done, order, j);
    }
  }

  // --------------------------------------------------- sizes

  lemma {:induction false} DistinctSize(s: seq<string>)
    requires Distinct(s)
    ensures |Elements(s)| == |s|
  {
    if s != [] {
      var n := |s| - 1;
      DistinctSize(s[..n]);
      assert s == s[..n] + [s[n]];
      ElementsAppend(s[..n], s[n]);
    }
  }

  lemma SameSize(a: set<string>, b: set<string>)
    requires a <= b && |a| == |b|
    ensures a == b
  {
    assert b == a + (b - a);
    assert |b| == |a| + |b - a|;
  }

  lemma {:induction false} SizeAtMostLength(s: seq<string>)
    ensures |Elements(s)| <= |s|
    ensures |Elements(s)| == |s| ==> Distinct(s)
  {
    if s != [] {
      var n := |s| - 1;
      SizeAtMostLength(s[..n]);
      assert s == s[..n] + [s[n]];
      ElementsAppend(s[..n], s[n]);
      if |Elements(s)| == |s| {
        assert s[n] !in Elements(s[..n]);
        assert Distinct(s[..n]);
        forall i, j | 0 <= i < j < |s| ensures s[i] != s[j] {
          assert s[i] == s[..n][i];
          if j < n { assert s[j] == s[..n][j]; }
        }
      }
    }
  }
}
