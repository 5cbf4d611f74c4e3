/** Depth-first cycle search with a visited set and a recursion stack.

    The repository holds three copies of this search: `validateHierarchy`
    (rbac/config.go) answers with a flag, `findCircularDependency`
    (migrations/dependency.go) with the path walked, `detectCircularDependency`
    (pluginloader/dependency.go) with the closed part of that path. */
module CycleSearches {
  import opened Digraphs

  /** A walk whose last node occurs earlier in it. */
  predicate IsLasso(g: Graph, p: seq<string>) {
    IsPath(g, p) && |p| >= 2 && p[|p| - 1] in p[..|p| - 1]
  }

  lemma RepeatIsLasso(g: Graph, p: seq<string>, n: string)
    requires IsPath(g, p) && Edge(g, p[|p| - 1], n) && n in p
    ensures IsLasso(g, p + [n])
  {
    AppendToPath(g, p, n);
    assert (p + [n])[..|p + [n]| - 1] == p;
  }

  lemma LassoHasCycle(g: Graph, p: seq<string>)
    requires IsLasso(g, p)
    ensures !Acyclic(g)
  {
    var k :| 0 <= k < |p| - 1 && p[..|p| - 1][k] == p[|p| - 1];
    ReturnIsCycle(g, p, k);
  }

  class CycleSearch {
    const graph: Graph
    var visited: set<string>
    var recStack: set<string>
    ghost var done: seq<string>

    constructor (g: Graph)
      ensures graph == g && Inv([])
    {
      graph := g;
      visited, recStack, done := {}, {}, [];
    }

    /** Between calls: visited nodes are finished or on the path; a finished
        node's targets were finished before it. */
    ghost predicate Inv(path: seq<string>)
      reads this
    {
      && Distinct(done) && Distinct(path) && Elements(done) !! Elements(path)
      && visited == Elements(done) + Elements(path) && recStack == Elements(path)
      && AllTargetsFirst(graph, done) && (path != [] ==> IsPath(graph, path))
    }

    /** Empty when no cycle is found from the node. */
    method Visit(node: string, path: seq<string>) returns (cycle: seq<string>)
      requires Inv(path) && node !in visited && node in Names(graph)
      requires path != [] ==> Edge(graph, path[|path| - 1], node)
      modifies this
      ensures cycle != [] ==> IsLasso(graph, cycle)
      ensures cycle == [] ==> Inv(path) && node in done && old(done) <= done && old(visited) <= visited
      decreases Names(graph) - visited
    {
      visited := visited + {node};
      recStack := recStack + {node};
      var path' := path + [node];
      if path != [] { AppendToPath(graph, path, node); }
      var targets := Targets(graph, node);
      for i := 0 to |targets|
        invariant Inv(path') && old(done) <= done && old(visited) + {node} <= visited
        invariant forall j :: 0 <= j < i ==> targets[j] in done
      {
        var dep := targets[i];
        assert Edge(graph, node, dep);
        if dep !in visited {
          cycle := Visit(dep, path');
          if cycle != [] {
            return;
          }
        } else if dep in recStack {
          RepeatIsLasso(graph, path', dep);
          return path' + [dep];
        }
      }
      recStack := recStack - {node};
      AppendToOrder(graph, done, node);
      done := done + [node];
      return [];
    }

    /** All roots in any order. */
    method VisitAll(roots: set<string>) returns (cycle: seq<string>)
      requires Inv([]) && roots <= Names(graph)
      modifies this
      ensures cycle != [] ==> IsLasso(graph, cycle)
      ensures cycle == [] ==> Inv([]) && forall n :: n in roots ==> n in done
    {
      var todo := roots;
      while todo != {}
        invariant Inv([]) && todo <= roots && forall n :: n in roots - todo ==> n in done
      {
        var name :| name in todo;
        todo := todo - {name};
        if name !in visited {
          ghost var before := done;
          cycle := Visit(name, []);
          assert cycle == [] ==> forall n :: n in before ==> n in done;
          if cycle != [] {
            return;
          }
        }
      }
      return [];
    }
  }

  /** A complete search finds a cycle exactly when there is one, whatever the
      order of the map iteration; when it finds none, `order` lists the keys
      with every target before its source. */
  method FindCycle(g: Graph) returns (cycle: seq<string>, ghost order: seq<string>)
    ensures cycle != [] ==> IsLasso(g, cycle)
    ensures cycle == [] ==> TargetsFirst(g, order) && Distinct(order) && forall n :: n in g ==> n in order
    ensures cycle == [] <==> Acyclic(g)
  {
    var search := new CycleSearch(g);
    cycle := search.VisitAll(g.Keys);
    order := search.done;
    if cycle != [] {
      LassoHasCycle(g, cycle);
    } else {
      AllTargetsFirstSuffices(g, order);
      OrderedIsAcyclic(g, order);
    }
  }

  /** Config.validateHierarchy: an error naming a role, exactly when the role
      graph has a directed cycle. */
  method ValidateHierarchy(hierarchy: Graph) returns (ok: bool)
    ensures ok <==> Acyclic(hierarchy)
  {
    var cycle, _ := FindCycle(hierarchy);
    ok := cycle == [];
  }
}
