/** Order of migration sources (migrations/dependency.go). */
module MigrationOrder {
  import opened Digraphs
  import opened CycleSearches
  import opened StringOrder
  import opened KahnSort

  /** Dependencies on unknown sources are skipped, repeats are kept. */
  function KnownDeps(sources: Graph, deps: seq<string>): seq<string> {
    if deps == [] then []
    else KnownDeps(sources, deps[..|deps| - 1]) + (if deps[|deps| - 1] in sources then [deps[|deps| - 1]] else [])
  }

  lemma KnownDepsNext(sources: Graph, deps: seq<string>, j: nat)
    requires j < |deps|
    ensures
      var before, after := KnownDeps(sources, deps[..j]), KnownDeps(sources, deps[..j + 1]);
      && |after| == |before| + (if deps[j] in sources then 1 else 0)
      && forall d :: multiset(after)[d] == multiset(before)[d] + (if d == deps[j] && deps[j] in sources then 1 else 0)
  {
    assert deps[..j + 1][..j] == deps[..j];
  }

  function KnownGraph(sources: Graph): Graph {
    map n | n in sources :: KnownDeps(sources, sources[n])
  }

  lemma {:induction false} KnownDepsMembers(sources: Graph, deps: seq<string>)
    ensures forall d :: d in KnownDeps(sources, deps) <==> d in deps && d in sources
  {
    if deps != [] {
      KnownDepsMembers(sources, deps[..|deps| - 1]);
      assert deps == deps[..|deps| - 1] + [deps[|deps| - 1]];
    }
  }

  /** An order that respects dependencies: each source once, known
      dependencies first. */
  ghost predicate IsOrder(sources: Graph, order: seq<string>) {
    Distinct(order) && Elements(order) == sources.Keys && TargetsFirst(sources, order)
  }

  /** At every step the smallest ready name is taken. */
  ghost predicate Greedy(g: Graph, order: seq<string>) {
    forall i :: 0 <= i < |order| ==> Smallest(order[i], Ready(g, Elements(order[..i])))
  }

  ghost predicate Smallest(n: string, s: set<string>) {
    n in s && forall r :: r in s ==> StringLeq(n, r)
  }

  lemma GreedyAppend(g: Graph, order: seq<string>, n: string)
    requires Greedy(g, order) && Smallest(n, Ready(g, Elements(order)))
    ensures Greedy(g, order + [n])
  {
    var q := order + [n];
    forall i | 0 <= i < |q| ensures Smallest(q[i], Ready(g, Elements(q[..i]))) {
      if i < |order| { assert q[..i] == order[..i]; } else { assert q[..i] == order; }
    }
  }

  lemma GreedyRespects(sources: Graph, order: seq<string>)
    requires Greedy(KnownGraph(sources), order)
    ensures TargetsFirst(sources, order)
  {
    var g := KnownGraph(sources);
    forall i, b | 0 <= i < |order| && Edge(sources, order[i], b) && b in sources ensures b in order[..i] {
      var done := Elements(order[..i]);
      assert Smallest(order[i], Ready(g, done));
      RemainingZero(g[order[i]], done);
      KnownDepsMembers(sources, sources[order[i]]);
    }
  }

  /** In an order that respects dependencies every name was ready in turn. */
  lemma OrderedIsReady(sources: Graph, order: seq<string>, i: nat)
    requires IsOrder(sources, order) && i < |order|
    ensures order[i] in Ready(KnownGraph(sources), Elements(order[..i]))
  {
    var g, n := KnownGraph(sources), order[i];
    assert n in Elements(order);
    RemainingZero(g[n], Elements(order[..i]));
    KnownDepsMembers(sources, sources[n]);
    forall d | d in g[n] ensures d in Elements(order[..i]) { assert Edge(sources, n, d); }
  }

  lemma GreedyStep(sources: Graph, order: seq<string>, other: seq<string>, k: nat)
    requires Greedy(KnownGraph(sources), order) && IsOrder(sources, other)
    requires k < |order| && k < |other| && order[..k] == other[..k]
    ensures StringLeq(order[k], other[k])
  {
    OrderedIsReady(sources, other, k);
    assert Smallest(order[k], Ready(KnownGraph(sources), Elements(order[..k])));
  }

  lemma WholeAgreement(order: seq<string>, other: seq<string>)
    requires |order| == |other| && order[..|order|] == other[..|order|]
    ensures order == other
  {
    assert order == order[..|order|] && other == other[..|order|];
  }

  lemma LongerAgreement(order: seq<string>, other: seq<string>, k: nat)
    requires k < |order| == |other| && order[..k] == other[..k] && order[k] == other[k]
    ensures order[..k + 1] == other[..k + 1]
  {
    assert order[..k + 1] == order[..k] + [order[k]] && other[..k + 1] == other[..k] + [other[k]];
  }

  /** The greedy order is the least of all orders that respect dependencies. */
  lemma {:induction false} GreedyIsLeast(sources: Graph, order: seq<string>, other: seq<string>, k: nat)
    requires Greedy(KnownGraph(sources), order) && IsOrder(sources, other)
    requires k <= |order| == |other| && order[..k] == other[..k]
    ensures ListLeq(order, other)
    decreases |order| - k
  {
    if k == |order| {
      WholeAgreement(order, other);
      ListLeqReflexive(order);
    } else if order[k] == other[k] {
      LongerAgreement(order, other, k);
      GreedyIsLeast(sources, order, other, k + 1);
    } else {
      GreedyStep(sources, order, other, k);
      FirstDifferenceDecides(order, other, k);
    }
  }

  lemma OrdersHaveOneLength(sources: Graph, order: seq<string>)
    requires IsOrder(sources, order)
    ensures |order| == |sources|
  {
    DistinctSize(order);
  }

  lemma KnownGraphFacts(sources: Graph, order: seq<string>)
    requires TargetsFirst(sources, order)
    ensures TargetsFirst(KnownGraph(sources), order) && TargetsAreKeys(KnownGraph(sources))
  {
    var g := KnownGraph(sources);
    forall n, d | n in g && d in g[n] ensures d in sources && Edge(sources, n, d) { KnownDepsMembers(sources, sources[n]); }
  }

  lemma EntriesStep(name: string, dep: string, entries: seq<string>, more: seq<string>,
                    adjList0: map<string, seq<string>>, adjList: map<string, seq<string>>)
    requires dep in adjList
    requires forall d :: multiset(more)[d] == multiset(entries)[d] + (if d == dep then 1 else 0)
    requires forall d, n :: Count(adjList, d, n) == (if n == name then multiset(entries)[d] else Count(adjList0, d, n))
    ensures
      var after := adjList[dep := adjList[dep] + [name]];
      after.Keys == adjList.Keys && forall d, n :: Count(after, d, n) == (if n == name then multiset(more)[d] else Count(adjList0, d, n))
  {
    var after := adjList[dep := adjList[dep] + [name]];
    AddEntry(adjList, dep, name);
    assert after == adjList[dep := (if dep in adjList then adjList[dep] else []) + [name]];
    forall d, n ensures Count(after, d, n) == if n == name then multiset(more)[d] else Count(adjList0, d, n) {
      assert Count(adjList, d, n) == if n == name then multiset(entries)[d] else Count(adjList0, d, n);
    }
  }

  class DependencyResolver {
    var sources: Graph

    constructor ()
      ensures sources == map[]
    {
      sources := map[];
    }

    method AddSource(name: string, dependencies: seq<string>)
      modifies this
      ensures sources == old(sources)[name := dependencies]
    {
      sources := sources[name := dependencies];
    }

    /** In-degrees and adjacency lists after the sources outside todo. */
    ghost predicate Built(todo: set<string>, inDegree: map<string, int>, adjList: map<string, seq<string>>)
      reads this
    {
      && inDegree.Keys == adjList.Keys == sources.Keys
      && (forall n :: n in sources ==> inDegree[n] == if n in todo then 0 else |KnownDeps(sources, sources[n])|)
      && (forall d, n :: Count(adjList, d, n) == if n in todo then 0 else Listed(KnownGraph(sources), n, d))
    }

    /** The graph is built in any order of map iteration. */
    method BuildGraph() returns (inDegree: map<string, int>, adjList: map<string, seq<string>>)
      ensures Counts(KnownGraph(sources), {}, inDegree, adjList) && adjList.Keys == sources.Keys
    {
      inDegree := map n | n in sources :: 0;
      adjList := map n | n in sources :: [];
      var todo := sources.Keys;
      while todo != {}
        invariant todo <= sources.Keys && Built(todo, inDegree, adjList)
      {
        var name :| name in todo;
        inDegree, adjList := AddEdges(name, todo, inDegree, adjList);
        todo := todo - {name};
      }
      forall n | n in sources ensures inDegree[n] == Remaining(KnownGraph(sources)[n], {}) {
        RemainingOfNone(KnownGraph(sources)[n]);
      }
    }

    /** The inner loop: the entries of one source. */
    method AddEdges(name: string, ghost todo: set<string>, inDegree0: map<string, int>, adjList0: map<string, seq<string>>)
      returns (inDegree: map<string, int>, adjList: map<string, seq<string>>)
      requires name in todo && todo <= sources.Keys && Built(todo, inDegree0, adjList0)
      ensures Built(todo - {name}, inDegree, adjList)
    {
      inDegree, adjList := inDegree0, adjList0;
      var deps := sources[name];
      for j := 0 to |deps|
        invariant Partly(name, KnownDeps(sources, deps[..j]), inDegree0, adjList0, inDegree, adjList)
      {
        var dependency := deps[j];
        if dependency in sources {
          PartlyStep(name, deps, j, inDegree0, adjList0, inDegree, adjList);
          adjList := adjList[dependency := adjList[dependency] + [name]];
          inDegree := inDegree[name := inDegree[name] + 1];
        } else {
          assert deps[..j + 1][..j] == deps[..j];
          assert KnownDeps(sources, deps[..j]) + [] == KnownDeps(sources, deps[..j]);
        }
      }
      assert deps[..|deps|] == deps;
      PartlyIsBuilt(name, todo, inDegree0, adjList0, inDegree, adjList);
    }

    lemma PartlyStep(name: string, deps: seq<string>, j: nat, inDegree0: map<string, int>, adjList0: map<string, seq<string>>,
                     inDegree: map<string, int>, adjList: map<string, seq<string>>)
      requires j < |deps| && deps[j] in sources
      requires Partly(name, KnownDeps(sources, deps[..j]), inDegree0, adjList0, inDegree, adjList)
      ensures Partly(name, KnownDeps(sources, deps[..j + 1]), inDegree0, adjList0,
                     inDegree[name := inDegree[name] + 1], adjList[deps[j] := adjList[deps[j]] + [name]])
    {
      KnownDepsNext(sources, deps, j);
      PartlyMore(name, deps[j], KnownDeps(sources, deps[..j]), KnownDeps(sources, deps[..j + 1]),
                 inDegree0, adjList0, inDegree, adjList);
    }

    lemma PartlyMore(name: string, dep: string, entries: seq<string>, more: seq<string>,
                     inDegree0: map<string, int>, adjList0: map<string, seq<string>>,
                     inDegree: map<string, int>, adjList: map<string, seq<string>>)
      requires dep in sources && Partly(name, entries, inDegree0, adjList0, inDegree, adjList)
      requires |more| == |entries| + 1
      requires forall d :: multiset(more)[d] == multiset(entries)[d] + (if d == dep then 1 else 0)
      ensures Partly(name, more, inDegree0, adjList0,
                     inDegree[name := inDegree[name] + 1], adjList[dep := adjList[dep] + [name]])
    {
      assert inDegree[name := inDegree[name] + 1] == inDegree0[name := inDegree[name] + 1];
      EntriesStep(name, dep, entries, more, adjList0, adjList);
    }

    lemma PartlyIsBuilt(name: string, todo: set<string>, inDegree0: map<string, int>, adjList0: map<string, seq<string>>,
                        inDegree: map<string, int>, adjList: map<string, seq<string>>)
      requires name in todo && Built(todo, inDegree0, adjList0)
      requires Partly(name, KnownDeps(sources, Targets(sources, name)), inDegree0, adjList0, inDegree, adjList)
      ensures Built(todo - {name}, inDegree, adjList)
    {
      forall d, n ensures Count(adjList, d, n) == if n in todo - {name} then 0 else Listed(KnownGraph(sources), n, d) {
        assert Count(adjList0, d, n) == if n in todo then 0 else Listed(KnownGraph(sources), n, d);
      }
    }

    /** The given entries of one source are added to what was built before. */
    ghost predicate Partly(name: string, entries: seq<string>, inDegree0: map<string, int>, adjList0: map<string, seq<string>>,
                           inDegree: map<string, int>, adjList: map<string, seq<string>>)
      reads this
    {
      && name in sources && inDegree0.Keys == adjList.Keys == sources.Keys
      && inDegree == inDegree0[name := |entries|]
      && (forall d, n :: Count(adjList, d, n) == (if n == name then multiset(entries)[d] else Count(adjList0, d, n)))
    }

    /** The state of Kahn's loop: what is placed was smallest in turn, and the
        queue holds, sorted, exactly the names ready now. */
    ghost predicate Sorting(result: seq<string>, queue: seq<string>, inDegree: map<string, int>, adjList: map<string, seq<string>>)
      reads this
    {
      var g, done := KnownGraph(sources), Elements(result);
      && Distinct(result) && done <= g.Keys && Greedy(g, result) && Settled(g, done)
      && Counts(g, done, inDegree, adjList) && adjList.Keys == g.Keys
      && QueueIs(g, done, queue) && SortedStrings(queue)
    }

    /** Kahn's loop over a sorted queue. */
    method Sort() returns (result: seq<string>)
      ensures Distinct(result) && Elements(result) <= sources.Keys && Greedy(KnownGraph(sources), result)
      ensures Ready(KnownGraph(sources), Elements(result)) == {}
    {
      var inDegree, adjList := BuildGraph();
      var queue := InitialQueue(inDegree);
      result := [];
      assert Elements(result) == {};
      while |queue| > 0
        invariant Sorting(result, queue, inDegree, adjList)
        decreases sources.Keys - Elements(result)
      {
        result, queue, inDegree, adjList := Place(result, queue, inDegree, adjList);
      }
    }

    /** One round: the head of the queue is placed. */
    method Place(result0: seq<string>, queue0: seq<string>, inDegree0: map<string, int>, adjList0: map<string, seq<string>>)
      returns (result: seq<string>, queue: seq<string>, inDegree: map<string, int>, adjList: map<string, seq<string>>)
      requires |queue0| > 0 && Sorting(result0, queue0, inDegree0, adjList0)
      ensures Sorting(result, queue, inDegree, adjList)
      ensures Elements(result0) < Elements(result)
    {
      ghost var g, done := KnownGraph(sources), Elements(result0);
      var current := queue0[0];
      HeadIsSmallest(queue0, Ready(g, done));
      PopOnce(queue0);
      PlacedKeeps(g, result0, current);
      queue := queue0[1..];
      result := result0 + [current];
      ReversedNeighbors(g, adjList0, current);
      SortedNeighbors(g, current, adjList0[current]);
      SortingKeepsEntries(g, adjList0, current);
      var neighbors := SortStrings(adjList0[current]);
      adjList := adjList0[current := neighbors];
      inDegree, queue := Relax(g, done, current, neighbors, inDegree0, queue, true);
    }

    method InitialQueue(inDegree: map<string, int>) returns (queue: seq<string>)
      requires inDegree.Keys == sources.Keys
      requires forall n :: n in sources ==> inDegree[n] == Remaining(KnownGraph(sources)[n], {})
      ensures QueueIs(KnownGraph(sources), {}, queue) && SortedStrings(queue)
    {
      queue := [];
      var names := inDegree.Keys;
      while names != {}
        invariant names <= sources.Keys && Once(queue)
        invariant forall n :: n in queue <==> n in sources && n !in names && inDegree[n] == 0
      {
        var name :| name in names;
        names := names - {name};
        if inDegree[name] == 0 {
          PushOnce(queue, name);
          queue := queue + [name];
        }
      }
      SortStringsSorts(queue);
      SortKeeps(queue);
      queue := SortStrings(queue);
    }

    /** Resolve succeeds exactly when the dependencies among known sources have
        no cycle. The order then holds every source once, known dependencies
        first, and is the least such order, so it does not depend on the order
        of map iteration. Otherwise the error carries a walk along dependencies
        whose last node occurs in it earlier. */
    method Resolve() returns (ok: bool, order: seq<string>, cycle: seq<string>)
      ensures ok <==> Acyclic(sources)
      ensures ok ==> IsOrder(sources, order) && forall other :: IsOrder(sources, other) ==> ListLeq(order, other)
      ensures !ok ==> IsLasso(sources, cycle)
    {
      order := Sort();
      cycle := [];
      DistinctSize(order);
      if |order| != |sources| {
        ghost var full;
        cycle, full := FindCycle(sources);
        StuckIsNotOrdered(sources, order, full);
        LassoHasCycle(sources, cycle);
        return false, order, cycle;
      }
      SameSize(Elements(order), sources.Keys);
      CompleteOrder(sources, order);
      ok := true;
    }
  }

  lemma StuckIsNotOrdered(sources: Graph, order: seq<string>, full: seq<string>)
    requires Distinct(order) && Elements(order) <= sources.Keys && |order| != |sources|
    requires Ready(KnownGraph(sources), Elements(order)) == {}
    ensures !(TargetsFirst(sources, full) && forall n :: n in sources ==> n in full)
  {
    DistinctSize(order);
    if TargetsFirst(sources, full) && forall n :: n in sources ==> n in full {
      OrderedIsComplete(sources, Elements(order), full);
    }
  }

  lemma OrderedIsComplete(sources: Graph, done: set<string>, full: seq<string>)
    requires done <= sources.Keys && Ready(KnownGraph(sources), done) == {}
    requires TargetsFirst(sources, full) && forall n :: n in sources ==> n in full
    ensures done == sources.Keys
  {
    KnownGraphFacts(sources, full);
    OrderedNeverSticks(KnownGraph(sources), done, full);
  }

  lemma CompleteOrder(sources: Graph, order: seq<string>)
    requires Distinct(order) && Elements(order) == sources.Keys && Greedy(KnownGraph(sources), order)
    ensures Acyclic(sources) && IsOrder(sources, order)
    ensures forall other :: IsOrder(sources, other) ==> ListLeq(order, other)
  {
    GreedyRespects(sources, order);
    forall n | n in sources ensures n in order { assert n in Elements(order); }
    OrderedIsAcyclic(sources, order);
    OrdersHaveOneLength(sources, order);
    forall other | IsOrder(sources, other) ensures ListLeq(order, other) {
      OrdersHaveOneLength(sources, other);
      GreedyIsLeast(sources, order, other, 0);
    }
  }

  lemma PlacedKeeps(g: Graph, result: seq<string>, current: string)
    requires Distinct(result) && Elements(result) <= g.Keys && Greedy(g, result) && Settled(g, Elements(result))
    requires Smallest(current, Ready(g, Elements(result)))
    ensures
      var after := result + [current];
      && Elements(after) == Elements(result) + {current} && current !in Elements(result)
      && Distinct(after) && Elements(after) <= g.Keys && Greedy(g, after) && Settled(g, Elements(after))
  {
    SettledStep(g, Elements(result), current);
    GreedyAppend(g, result, current);
    ElementsAppend(result, current);
    assert current !in result by { assert current !in Elements(result); }
  }

  lemma HeadIsSmallest(queue: seq<string>, s: set<string>)
    requires queue != [] && SortedStrings(queue) && Elements(queue) == s
    ensures Smallest(queue[0], s)
  {
    forall r | r in s ensures StringLeq(queue[0], r) {
      var j :| 0 <= j < |queue| && queue[j] == r;
      if j == 0 { LeqTotal(r, r); }
    }
  }
}
