/** Initialisation order of plugins (pluginloader/dependency.go): a sibling of
    the migration sort with a plain queue, validated dependencies and a closed
    cycle in its report. */
module PluginOrder {
  import opened Digraphs
  import opened CycleSearches
  import opened KahnSort

  datatype PluginInfo = PluginInfo(name: string, dependencies: seq<string>)
  datatype PluginConfig = PluginConfig(name: string, enabled: bool)

  function NamesOf(infos: seq<PluginInfo>): seq<string> {
    seq(|infos|, i requires 0 <= i < |infos| => infos[i].name)
  }

  /** All dependencies listed under a name. */
  function DepsOf(infos: seq<PluginInfo>, n: string): seq<string> {
    if infos == [] then []
    else
      var last := infos[|infos| - 1];
      DepsOf(infos[..|infos| - 1], n) + if last.name == n then last.dependencies else []
  }

  function GraphOf(infos: seq<PluginInfo>): Graph {
    map n | n in NamesOf(infos) :: DepsOf(infos, n)
  }

  /** Every dependency is the name of a plugin in the list. */
  ghost predicate Known(infos: seq<PluginInfo>) {
    forall i, d :: 0 <= i < |infos| && d in infos[i].dependencies ==> d in NamesOf(infos)
  }

  // --------------------------------------------------- validation

  datatype DependencyError = NoError | DisabledDependency(plugin: string, dep: string) | UnregisteredDependency(plugin: string, dep: string)

  /** validateDependencies accepts exactly the lists whose dependencies are all
      enabled; otherwise it names one that is not. */
  method ValidateDependencies(infos: seq<PluginInfo>, configs: seq<PluginConfig>) returns (err: DependencyError)
    ensures err.NoError? <==> forall i, d :: 0 <= i < |infos| && d in infos[i].dependencies ==> PluginConfig(d, true) in configs
    ensures !err.NoError? ==>
      PluginConfig(err.dep, true) !in configs && exists i :: 0 <= i < |infos| && infos[i].name == err.plugin && err.dep in infos[i].dependencies
    ensures err.DisabledDependency? ==> PluginConfig(err.dep, false) in configs
    ensures err.UnregisteredDependency? ==> forall c :: c in configs ==> c.name != err.dep
  {
    var available, disabled := {}, {};
    for i := 0 to |configs|
      invariant available == set c | c in configs[..i] && c.enabled :: c.name
      invariant disabled == set c | c in configs[..i] && !c.enabled :: c.name
    {
      assert configs[..i + 1] == configs[..i] + [configs[i]];
      if configs[i].enabled {
        available := available + {configs[i].name};
      } else {
        disabled := disabled + {configs[i].name};
      }
    }
    assert configs[..|configs|] == configs;
    assert forall d :: d in available <==> PluginConfig(d, true) in configs;
    for i := 0 to |infos|
      invariant forall k, d :: 0 <= k < i && d in infos[k].dependencies ==> d in available
    {
      for j := 0 to |infos[i].dependencies|
        invariant forall k :: 0 <= k < j ==> infos[i].dependencies[k] in available
      {
        var dep := infos[i].dependencies[j];
        if dep !in available {
          if dep in disabled {
            return DisabledDependency(infos[i].name, dep);
          }
          return UnregisteredDependency(infos[i].name, dep);
        }
      }
    }
    return NoError;
  }

  /** The collected plugins are the enabled configurations, so a list that
      passes validation is closed under dependencies. */
  lemma ValidatedIsKnown(infos: seq<PluginInfo>, configs: seq<PluginConfig>)
    requires forall n :: n in NamesOf(infos) <==> PluginConfig(n, true) in configs
    requires forall i, d :: 0 <= i < |infos| && d in infos[i].dependencies ==> PluginConfig(d, true) in configs
    ensures Known(infos)
  {}

  // --------------------------------------------------- facts about the graph

  lemma {:induction false} DepsOfMembers(infos: seq<PluginInfo>, n: string, d: string)
    ensures d in DepsOf(infos, n) <==> exists i :: 0 <= i < |infos| && infos[i].name == n && d in infos[i].dependencies
  {
    if infos != [] {
      var k := |infos| - 1;
      DepsOfMembers(infos[..k], n, d);
      if d in DepsOf(infos[..k], n) {
        var i :| 0 <= i < k && infos[..k][i].name == n && d in infos[..k][i].dependencies;
        assert infos[i].name == n;
      }
      if i :| 0 <= i < |infos| && infos[i].name == n && d in infos[i].dependencies {
        if i < k { assert infos[..k][i] == infos[i]; }
      }
    }
  }

  lemma KnownMeansKeys(infos: seq<PluginInfo>)
    ensures Known(infos) <==> TargetsAreKeys(GraphOf(infos))
  {
    var g := GraphOf(infos);
    if Known(infos) {
      forall n, d | n in g && d in g[n] ensures d in g { DepsOfMembers(infos, n, d); }
    }
    if TargetsAreKeys(g) {
      forall i, d | 0 <= i < |infos| && d in infos[i].dependencies ensures d in NamesOf(infos) {
        var n := infos[i].name;
        DepsOfMembers(infos, n, d);
        assert NamesOf(infos)[i] == n;
        assert exists k :: 0 <= k < |infos| && infos[k].name == n && d in infos[k].dependencies;
        assert n in g && d in g[n];
        assert d in g;
      }
    }
  }

  /** A valid initialisation order: all plugins, each once, each after every
      plugin it depends on. */
  ghost predicate IsInitOrder(infos: seq<PluginInfo>, order: seq<PluginInfo>) {
    && |order| == |infos| && Distinct(NamesOf(order))
    && (forall info :: info in order ==> info in infos)
    && (forall i, d :: 0 <= i < |order| && d in order[i].dependencies ==> d in NamesOf(order[..i]))
  }

  // --------------------------------------------------- building the graph

  /** In-degrees and dependents after some of the entries. */
  ghost predicate Built(infos: seq<PluginInfo>, done: seq<PluginInfo>, inDegree: map<string, int>, graph: map<string, seq<string>>) {
    && inDegree.Keys == GraphOf(infos).Keys && GraphOf(infos).Keys <= graph.Keys
    && (forall n :: n in inDegree ==> inDegree[n] == |DepsOf(done, n)|)
    && (forall d, n {:trigger Count(graph, d, n)} :: Count(graph, d, n) == multiset(DepsOf(done, n))[d])
  }

  ghost predicate Partly(infos: seq<PluginInfo>, done: seq<PluginInfo>, name: string, entries: seq<string>,
                         inDegree: map<string, int>, graph: map<string, seq<string>>) {
    && inDegree.Keys == GraphOf(infos).Keys && GraphOf(infos).Keys <= graph.Keys
    && (forall n :: n in inDegree ==> inDegree[n] == |DepsOf(done, n)| + if n == name then |entries| else 0)
    && (forall d, n {:trigger Count(graph, d, n)} :: Count(graph, d, n) == multiset(DepsOf(done, n))[d] + if n == name then multiset(entries)[d] else 0)
  }

  ghost predicate InfoMapOf(infos: seq<PluginInfo>, infoMap: map<string, PluginInfo>) {
    infoMap.Keys == GraphOf(infos).Keys && forall n :: n in infoMap ==> infoMap[n].name == n && infoMap[n] in infos
  }

  method BuildGraph(infos: seq<PluginInfo>) returns (inDegree: map<string, int>, graph: map<string, seq<string>>, infoMap: map<string, PluginInfo>)
    ensures Built(infos, infos, inDegree, graph)
    ensures InfoMapOf(infos, infoMap)
  {
    inDegree, graph, infoMap := map[], map[], map[];
    for i := 0 to |infos|
      invariant forall n :: n in inDegree <==> n in NamesOf(infos[..i])
      invariant graph.Keys == infoMap.Keys == inDegree.Keys
      invariant forall n :: n in inDegree ==> inDegree[n] == 0 && graph[n] == []
      invariant forall n :: n in infoMap ==> infoMap[n].name == n && infoMap[n] in infos
    {
      assert NamesOf(infos[..i + 1]) == NamesOf(infos[..i]) + [infos[i].name];
      inDegree := inDegree[infos[i].name := 0];
      infoMap := infoMap[infos[i].name := infos[i]];
      graph := graph[infos[i].name := []];
    }
    assert infos[..|infos|] == infos;
    for i := 0 to |infos|
      invariant Built(infos, infos[..i], inDegree, graph)
    {
      inDegree, graph := AddEdges(infos, i, inDegree, graph);
    }
  }

  method AddEdges(infos: seq<PluginInfo>, i: nat, inDegree0: map<string, int>, graph0: map<string, seq<string>>)
    returns (inDegree: map<string, int>, graph: map<string, seq<string>>)
    requires i < |infos| && Built(infos, infos[..i], inDegree0, graph0)
    ensures Built(infos, infos[..i + 1], inDegree, graph)
  {
    inDegree, graph := inDegree0, graph0;
    var info := infos[i];
    assert NamesOf(infos)[i] == info.name;
    for j := 0 to |info.dependencies|
      invariant Partly(infos, infos[..i], info.name, info.dependencies[..j], inDegree, graph)
    {
      var dep := info.dependencies[j];
      inDegree, graph := AddEdge(infos, infos[..i], info.name, info.dependencies[..j], dep, inDegree, graph);
      assert info.dependencies[..j + 1] == info.dependencies[..j] + [dep];
    }
    assert info.dependencies[..|info.dependencies|] == info.dependencies;
    PartlyIsBuilt(infos, i, inDegree, graph);
  }

  lemma PartlyIsBuilt(infos: seq<PluginInfo>, i: nat, inDegree: map<string, int>, graph: map<string, seq<string>>)
    requires i < |infos| && Partly(infos, infos[..i], infos[i].name, infos[i].dependencies, inDegree, graph)
    ensures Built(infos, infos[..i + 1], inDegree, graph)
  {
    DepsOfNext(infos, i);
    forall d, n ensures Count(graph, d, n) == multiset(DepsOf(infos[..i + 1], n))[d] {
      assert Count(graph, d, n) == multiset(DepsOf(infos[..i], n))[d] + if n == infos[i].name then multiset(infos[i].dependencies)[d] else 0;
    }
  }

  method AddEdge(ghost infos: seq<PluginInfo>, ghost done: seq<PluginInfo>, name: string, ghost entries: seq<string>, dep: string,
                 inDegree0: map<string, int>, graph0: map<string, seq<string>>)
    returns (inDegree: map<string, int>, graph: map<string, seq<string>>)
    requires name in inDegree0 && Partly(infos, done, name, entries, inDegree0, graph0)
    ensures Partly(infos, done, name, entries + [dep], inDegree, graph)
  {
    graph := graph0[dep := (if dep in graph0 then graph0[dep] else []) + [name]];
    inDegree := inDegree0[name := inDegree0[name] + 1];
    PartlyStep(infos, done, name, entries, dep, inDegree0, graph0);
  }

  lemma PartlyStep(infos: seq<PluginInfo>, done: seq<PluginInfo>, name: string, entries: seq<string>, dep: string,
                   inDegree: map<string, int>, graph: map<string, seq<string>>)
    requires name in inDegree && Partly(infos, done, name, entries, inDegree, graph)
    ensures Partly(infos, done, name, entries + [dep], inDegree[name := inDegree[name] + 1],
                   graph[dep := (if dep in graph then graph[dep] else []) + [name]])
  {
    var after := graph[dep := (if dep in graph then graph[dep] else []) + [name]];
    AddEntry(graph, dep, name);
    CountLast(entries, dep);
    forall d, n
      ensures Count(after, d, n) == multiset(DepsOf(done, n))[d] + if n == name then multiset(entries + [dep])[d] else 0
    {
      assert Count(graph, d, n) == multiset(DepsOf(done, n))[d] + if n == name then multiset(entries)[d] else 0;
    }
  }

  lemma CountLast(entries: seq<string>, dep: string)
    ensures forall d :: multiset(entries + [dep])[d] == multiset(entries)[d] + if d == dep then 1 else 0
  {}

  lemma DepsOfNext(infos: seq<PluginInfo>, i: nat)
    requires i < |infos|
    ensures forall n :: DepsOf(infos[..i + 1], n) == DepsOf(infos[..i], n) + if infos[i].name == n then infos[i].dependencies else []
  {
    assert infos[..i + 1][..i] == infos[..i];
  }

  // --------------------------------------------------- the sort

  /** The state of Kahn's loop: placed names have all their dependencies placed
      before them, and the queue holds exactly the names ready now. */
  ghost predicate Sorting(g: Graph, placed: seq<string>, queue: seq<string>, inDegree: map<string, int>, graph: map<string, seq<string>>) {
    var done := Elements(placed);
    && Distinct(placed) && done <= g.Keys && AllTargetsFirst(g, placed) && Settled(g, done)
    && Counts(g, done, inDegree, graph) && g.Keys <= graph.Keys && QueueIs(g, done, queue)
  }

  lemma PlacedKeeps(g: Graph, placed: seq<string>, current: string)
    requires Distinct(placed) && Elements(placed) <= g.Keys && AllTargetsFirst(g, placed) && Settled(g, Elements(placed))
    requires current in Ready(g, Elements(placed))
    ensures
      var after := placed + [current];
      && Elements(after) == Elements(placed) + {current} && current !in Elements(placed)
      && Distinct(after) && Elements(after) <= g.Keys && AllTargetsFirst(g, after) && Settled(g, Elements(after))
  {
    SettledStep(g, Elements(placed), current);
    RemainingZero(g[current], Elements(placed));
    AppendToOrder(g, placed, current);
    ElementsAppend(placed, current);
    assert current !in placed by { assert current !in Elements(placed); }
  }

  method InitialQueue(ghost infos: seq<PluginInfo>, inDegree: map<string, int>, ghost graph: map<string, seq<string>>) returns (queue: seq<string>)
    requires Built(infos, infos, inDegree, graph)
    ensures Counts(GraphOf(infos), {}, inDegree, graph) && QueueIs(GraphOf(infos), {}, queue)
  {
    ghost var g := GraphOf(infos);
    forall n | n in g ensures inDegree[n] == Remaining(g[n], {}) { RemainingOfNone(g[n]); }
    CountsAreReversed(infos, graph);
    queue := [];
    var names := inDegree.Keys;
    while names != {}
      invariant names <= inDegree.Keys && Once(queue)
      invariant forall n :: n in queue <==> n in inDegree && n !in names && inDegree[n] == 0
    {
      var name :| name in names;
      names := names - {name};
      if inDegree[name] == 0 {
        PushOnce(queue, name);
        queue := queue + [name];
      }
    }
  }

  lemma CountsAreReversed(infos: seq<PluginInfo>, graph: map<string, seq<string>>)
    requires forall d, n :: Count(graph, d, n) == multiset(DepsOf(infos, n))[d]
    ensures ReversedEntries(GraphOf(infos), graph)
  {
    var g := GraphOf(infos);
    forall d, n | d in g ensures Count(graph, d, n) == Listed(g, n, d) {
      if n !in g { NoDepsOutside(infos, n); }
    }
  }

  lemma {:induction false} NoDepsOutside(infos: seq<PluginInfo>, n: string)
    requires n !in NamesOf(infos)
    ensures DepsOf(infos, n) == []
  {
    if infos != [] {
      var k := |infos| - 1;
      assert NamesOf(infos) == NamesOf(infos[..k]) + [infos[k].name];
      NoDepsOutside(infos[..k], n);
    }
  }

  /** One round: the head of the queue is placed. */
  method Place(ghost g: Graph, ghost placed: seq<string>, queue0: seq<string>, inDegree0: map<string, int>, graph: map<string, seq<string>>)
    returns (queue: seq<string>, inDegree: map<string, int>)
    requires |queue0| > 0 && Sorting(g, placed, queue0, inDegree0, graph)
    ensures queue0[0] in g && queue0[0] !in Elements(placed)
    ensures Sorting(g, placed + [queue0[0]], queue, inDegree, graph)
  {
    var current := queue0[0];
    assert current in Elements(queue0);
    PopOnce(queue0);
    PlacedKeeps(g, placed, current);
    ReversedNeighbors(g, graph, current);
    inDegree, queue := Relax(g, Elements(placed), current, graph[current], inDegree0, queue0[1..], false);
  }

  method SortPlugins(infos: seq<PluginInfo>) returns (sorted: seq<PluginInfo>)
    ensures Distinct(NamesOf(sorted)) && AllFrom(sorted, infos)
    ensures AllTargetsFirst(GraphOf(infos), NamesOf(sorted)) && Elements(NamesOf(sorted)) <= GraphOf(infos).Keys
    ensures Ready(GraphOf(infos), Elements(NamesOf(sorted))) == {}
  {
    var inDegree, graph, infoMap := BuildGraph(infos);
    ghost var g := GraphOf(infos);
    var queue := InitialQueue(infos, inDegree, graph);
    sorted := [];
    assert Elements(NamesOf(sorted)) == {};
    while |queue| > 0
      invariant PluginsPlaced(infos, sorted, queue, inDegree, graph)
      decreases g.Keys - Elements(NamesOf(sorted))
    {
      sorted, queue, inDegree := PlacePlugin(infos, sorted, queue, inDegree, graph, infoMap);
    }
  }

  ghost predicate PluginsPlaced(infos: seq<PluginInfo>, sorted: seq<PluginInfo>, queue: seq<string>,
                                inDegree: map<string, int>, graph: map<string, seq<string>>) {
    AllFrom(sorted, infos) && Sorting(GraphOf(infos), NamesOf(sorted), queue, inDegree, graph)
  }

  method PlacePlugin(ghost infos: seq<PluginInfo>, sorted0: seq<PluginInfo>, queue0: seq<string>, inDegree0: map<string, int>,
                     graph: map<string, seq<string>>, infoMap: map<string, PluginInfo>)
    returns (sorted: seq<PluginInfo>, queue: seq<string>, inDegree: map<string, int>)
    requires |queue0| > 0 && PluginsPlaced(infos, sorted0, queue0, inDegree0, graph) && InfoMapOf(infos, infoMap)
    ensures PluginsPlaced(infos, sorted, queue, inDegree, graph)
    ensures Elements(NamesOf(sorted0)) < Elements(NamesOf(sorted)) <= GraphOf(infos).Keys
  {
    var current := queue0[0];
    ghost var placed := NamesOf(sorted0);
    queue, inDegree := Place(GraphOf(infos), placed, queue0, inDegree0, graph);
    sorted := sorted0 + [infoMap[current]];
    ElementsAppend(placed, current);
    assert NamesOf(sorted) == placed + [current];
  }

  ghost predicate AllFrom(sorted: seq<PluginInfo>, infos: seq<PluginInfo>) {
    forall info :: info in sorted ==> info in infos
  }

  // --------------------------------------------------- the cycle report

  function LastGraph(infos: seq<PluginInfo>): Graph {
    if infos == [] then map[]
    else LastGraph(infos[..|infos| - 1])[infos[|infos| - 1].name := infos[|infos| - 1].dependencies]
  }

  lemma {:induction false} LastGraphIsGraph(infos: seq<PluginInfo>)
    requires Distinct(NamesOf(infos))
    ensures LastGraph(infos) == GraphOf(infos)
  {
    if infos != [] {
      var k := |infos| - 1;
      assert NamesOf(infos) == NamesOf(infos[..k]) + [infos[k].name];
      assert infos[k].name !in NamesOf(infos[..k]) by {
        forall i | 0 <= i < k ensures NamesOf(infos[..k])[i] != infos[k].name { assert NamesOf(infos)[i] != NamesOf(infos)[k]; }
      }
      assert Distinct(NamesOf(infos[..k])) by {
        forall i, j | 0 <= i < j < k ensures NamesOf(infos[..k])[i] != NamesOf(infos[..k])[j] {
          assert NamesOf(infos)[i] != NamesOf(infos)[j];
        }
      }
      LastGraphIsGraph(infos[..k]);
      NoDepsOutside(infos[..k], infos[k].name);
      forall n ensures n in NamesOf(infos) <==> n in NamesOf(infos[..k]) || n == infos[k].name {}
      forall n | n in NamesOf(infos) ensures LastGraph(infos)[n] == DepsOf(infos, n) {
        if n == infos[k].name {
          assert [] + infos[k].dependencies == infos[k].dependencies;
        } else {
          assert DepsOf(infos[..k], n) + [] == DepsOf(infos[..k], n);
        }
      }
    }
  }

  lemma {:induction false} LastGraphKeys(infos: seq<PluginInfo>)
    ensures LastGraph(infos).Keys == Elements(NamesOf(infos))
  {
    if infos == [] {
      assert Elements(NamesOf(infos)) == {};
    } else {
      var k := |infos| - 1;
      LastGraphKeys(infos[..k]);
      assert NamesOf(infos) == NamesOf(infos[..k]) + [infos[k].name];
      ElementsAppend(NamesOf(infos[..k]), infos[k].name);
    }
  }

  /** The closed part of a walk that returns to one of its nodes. */
  method CloseCycle(walk: seq<string>, ghost g: Graph) returns (cycle: seq<string>)
    requires IsLasso(g, walk)
    ensures IsCycle(g, cycle)
  {
    var dep := walk[|walk| - 1];
    ghost var k :| 0 <= k < |walk| - 1 && walk[k] == dep;
    var cycleStart := 0;
    while walk[cycleStart] != dep
      invariant 0 <= cycleStart <= k
      decreases k - cycleStart
    {
      cycleStart := cycleStart + 1;
    }
    ReturnIsCycle(g, walk, cycleStart);
    return walk[cycleStart..];
  }

  /** Empty, for the generic message, exactly when the graph has no cycle;
      otherwise a closed cycle, first name equal to last. */
  method DetectCircularDependency(infos: seq<PluginInfo>) returns (cycle: seq<string>, ghost order: seq<string>)
    ensures cycle == [] <==> Acyclic(LastGraph(infos))
    ensures cycle != [] ==> IsCycle(LastGraph(infos), cycle)
    ensures cycle == [] ==> TargetsFirst(LastGraph(infos), order) && forall n :: n in LastGraph(infos) ==> n in order
  {
    var graph := map[];
    for i := 0 to |infos|
      invariant graph == LastGraph(infos[..i])
    {
      assert infos[..i + 1][..i] == infos[..i];
      graph := graph[infos[i].name := infos[i].dependencies];
    }
    assert infos[..|infos|] == infos;
    LastGraphKeys(infos);
    var search := new CycleSearch(graph);
    for i := 0 to |infos|
      invariant search.Inv([]) && search.graph == graph && fresh(search)
      invariant forall k :: 0 <= k < i ==> infos[k].name in search.done
    {
      var name := infos[i].name;
      assert NamesOf(infos)[i] == name;
      assert name in Elements(NamesOf(infos));
      if name !in search.visited {
        ghost var before := search.done;
        var walk := search.Visit(name, []);
        if walk != [] {
          LassoHasCycle(graph, walk);
          cycle := CloseCycle(walk, graph);
          return cycle, [];
        }
        assert forall k :: 0 <= k < i ==> infos[k].name in before;
      }
    }
    AllTargetsFirstSuffices(graph, search.done);
    forall n | n in graph ensures n in search.done {
      assert n in Elements(NamesOf(infos));
      var k :| 0 <= k < |infos| && NamesOf(infos)[k] == n;
    }
    OrderedIsAcyclic(graph, search.done);
    return [], search.done;
  }

  // --------------------------------------------------- main result

  lemma CompleteIsInitOrder(infos: seq<PluginInfo>, sorted: seq<PluginInfo>)
    requires |sorted| == |infos| && Distinct(NamesOf(sorted)) && AllFrom(sorted, infos)
    requires AllTargetsFirst(GraphOf(infos), NamesOf(sorted)) && Elements(NamesOf(sorted)) <= GraphOf(infos).Keys
    ensures Distinct(NamesOf(infos)) && Known(infos) && Acyclic(GraphOf(infos)) && IsInitOrder(infos, sorted)
  {
    var g, order := GraphOf(infos), NamesOf(sorted);
    DistinctSize(order);
    SizeAtMostLength(NamesOf(infos));
    assert g.Keys == Elements(NamesOf(infos));
    SizeOfSubset(Elements(order), g.Keys);
    SameSize(Elements(order), g.Keys);
    forall n | n in g ensures n in order { assert n in Elements(order); }
    forall n, d | n in g && d in g[n] ensures d in g {
      var i :| 0 <= i < |order| && order[i] == n;
      assert Edge(g, order[i], d);
      assert d in order[..i];
      assert d in Elements(order);
    }
    KnownMeansKeys(infos);
    AllTargetsFirstSuffices(g, order);
    OrderedIsAcyclic(g, order);
    forall i, d | 0 <= i < |sorted| && d in sorted[i].dependencies ensures d in NamesOf(sorted[..i]) {
      assert sorted[i] in infos;
      var k :| 0 <= k < |infos| && infos[k] == sorted[i];
      DepsOfMembers(infos, sorted[i].name, d);
      assert Edge(g, order[i], d);
      assert NamesOf(sorted[..i]) == order[..i];
    }
  }

  lemma SizeOfSubset(a: set<string>, b: set<string>)
    requires a <= b
    ensures |a| <= |b|
  {
    assert b == a + (b - a);
  }

  /** On validated lists with distinct names a short result rules an order out. */
  lemma StuckIsNotOrdered(infos: seq<PluginInfo>, sorted: seq<PluginInfo>, order: seq<string>)
    requires Distinct(NamesOf(infos)) && Known(infos)
    requires Distinct(NamesOf(sorted)) && Elements(NamesOf(sorted)) <= GraphOf(infos).Keys
    requires Ready(GraphOf(infos), Elements(NamesOf(sorted))) == {} && |sorted| != |infos|
    ensures !(TargetsFirst(GraphOf(infos), order) && forall n :: n in GraphOf(infos) ==> n in order)
  {
    var g, done := GraphOf(infos), Elements(NamesOf(sorted));
    KnownMeansKeys(infos);
    DistinctSize(NamesOf(sorted));
    DistinctSize(NamesOf(infos));
    assert g.Keys == Elements(NamesOf(infos));
    if TargetsFirst(g, order) && forall n :: n in g ==> n in order {
      OrderedNeverSticks(g, done, order);
      assert false;
    }
  }

  /** The sort succeeds exactly when plugin names are distinct, every dependency
      is a plugin and there is no cycle; on validated lists a failure reports a
      closed cycle of real dependencies, never the generic message. */
  method ResolveInitializationOrder(infos: seq<PluginInfo>) returns (ok: bool, sorted: seq<PluginInfo>, cycle: seq<string>)
    ensures ok <==> Distinct(NamesOf(infos)) && Known(infos) && Acyclic(GraphOf(infos))
    ensures ok ==> IsInitOrder(infos, sorted)
    ensures !ok && Distinct(NamesOf(infos)) && Known(infos) ==> IsCycle(GraphOf(infos), cycle)
  {
    sorted := SortPlugins(infos);
    cycle := [];
    if |sorted| != |infos| {
      ghost var order;
      cycle, order := DetectCircularDependency(infos);
      if Distinct(NamesOf(infos)) && Known(infos) {
        LastGraphIsGraph(infos);
        StuckIsNotOrdered(infos, sorted, order);
      }
      return false, sorted, cycle;
    }
    CompleteIsInitOrder(infos, sorted);
    ok := true;
  }
}
