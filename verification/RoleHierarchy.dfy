/** Role expansion and role trees (rbac/hierarchy.go). */
module RoleHierarchy {
  import opened Digraphs
  import opened CycleSearches

  /** A role given or inherited, through any number of steps. */
  ghost predicate Inherited(hierarchy: Graph, roles: seq<string>, role: string) {
    exists r :: r in roles && Reaches(hierarchy, r, role)
  }

  lemma ReachesItself(g: Graph, a: string)
    ensures Reaches(g, a, a)
  {
    assert IsPath(g, [a]);
  }

  /** A set closed under edges contains all that is reachable from it. */
  lemma {:induction false} ClosedSetHoldsPath(g: Graph, s: set<string>, p: seq<string>)
    requires forall a, b :: a in s && Edge(g, a, b) ==> b in s
    requires IsPath(g, p) && p[0] in s
    ensures p[|p| - 1] in s
    decreases |p|
  {
    if |p| > 1 {
      assert StepAt(g, p, 0);
      PathSuffix(g, p, 1);
      ClosedSetHoldsPath(g, s, p[1..]);
    }
  }

  class RoleResolver {
    const hierarchy: Graph
    var resolved: set<string>
    var visited: set<string>

    constructor (h: Graph)
      ensures hierarchy == h && resolved == {} && visited == {}
    {
      hierarchy := h;
      resolved, visited := {}, {};
    }

    /** Resolved roles that are not being expanded have their children resolved. */
    ghost predicate Closed()
      reads this
    {
      visited <= resolved && forall a, b :: a in resolved - visited && Edge(hierarchy, a, b) ==> b in resolved
    }

    /** The error branch is never taken: a role being expanded is resolved. */
    method ExpandRole(role: string, ghost universe: set<string>) returns (circular: bool)
      requires Closed() && role in universe && Names(hierarchy) <= universe
      modifies this
      ensures !circular && Closed() && visited == old(visited)
      ensures old(resolved) + {role} <= resolved
      ensures forall n :: n in resolved - old(resolved) ==> Reaches(hierarchy, role, n)
      decreases universe - resolved
    {
      if role in resolved {
        return false;
      }
      if role in visited {
        return true;
      }
      visited := visited + {role};
      resolved := resolved + {role};
      ReachesItself(hierarchy, role);
      var children := Targets(hierarchy, role);
      for i := 0 to |children|
        invariant Closed() && visited == old(visited) + {role}
        invariant old(resolved) + {role} <= resolved
        invariant forall n :: n in resolved - old(resolved) ==> Reaches(hierarchy, role, n)
        invariant forall j :: 0 <= j < i ==> children[j] in resolved
      {
        label before:
        assert Edge(hierarchy, role, children[i]);
        circular := ExpandRole(children[i], universe);
        forall n | n in resolved - old@before(resolved) ensures Reaches(hierarchy, role, n) {
          ReachesPrepend(hierarchy, role, children[i], n);
        }
        if circular {
          return;
        }
      }
      visited := visited - {role};
      return false;
    }
  }

  lemma ReachesPrepend(g: Graph, a: string, b: string, c: string)
    requires Edge(g, a, b) && Reaches(g, b, c)
    ensures Reaches(g, a, c)
  {
    var p :| IsPath(g, p) && p[0] == b && p[|p| - 1] == c;
    var q := [a] + p;
    forall i | 0 <= i < |q| - 1 ensures StepAt(g, q, i) {
      if i > 0 { assert StepAt(g, p, i - 1); }
    }
    assert IsPath(g, q) && q[0] == a && q[|q| - 1] == c;
  }

  /** ResolveRoles returns exactly the inherited roles, each once, on every
      graph, cyclic ones included, for any order of map iteration. */
  method ResolveRoles(roles: seq<string>, hierarchy: Graph) returns (result: seq<string>)
    ensures forall role :: role in result <==> Inherited(hierarchy, roles, role)
    ensures Distinct(result)
  {
    if |roles| == 0 {
      return roles;
    }
    var resolver := new RoleResolver(hierarchy);
    ghost var universe := Names(hierarchy) + Elements(roles);
    for i := 0 to |roles|
      invariant resolver.Closed() && resolver.visited == {} && fresh(resolver)
      invariant forall j :: 0 <= j < i ==> roles[j] in resolver.resolved
      invariant forall n :: n in resolver.resolved ==> Inherited(hierarchy, roles, n)
    {
      label before:
      var circular := resolver.ExpandRole(roles[i], universe);
      forall n | n in resolver.resolved ensures Inherited(hierarchy, roles, n) {
        if n !in old@before(resolver.resolved) { assert roles[i] in roles; }
      }
    }
    forall role ensures role in resolver.resolved <==> Inherited(hierarchy, roles, role) {
      if Inherited(hierarchy, roles, role) {
        var r :| r in roles && Reaches(hierarchy, r, role);
        var p :| IsPath(hierarchy, p) && p[0] == r && p[|p| - 1] == role;
        ClosedSetHoldsPath(hierarchy, resolver.resolved, p);
      }
    }
    result := [];
    ghost var all := resolver.resolved;
    var left := resolver.resolved;
    while left != {}
      invariant left <= all && Distinct(result) && Elements(result) == all - left
    {
      var role :| role in left;
      left := left - {role};
      ElementsAppend(result, role);
      result := result + [role];
    }
    assert Elements(result) == all;
    assert forall role :: role in result <==> role in Elements(result);
  }

  // --------------------------------------------------- role trees

  datatype RoleNode = RoleNode(name: string, children: seq<RoleNode>)

  /** The tree shows the hierarchy below its root, children in order. */
  predicate IsUnfolding(g: Graph, t: RoleNode)
    decreases t
  {
    && |t.children| == |Targets(g, t.name)|
    && forall i :: 0 <= i < |t.children| ==> t.children[i].name == Targets(g, t.name)[i] && IsUnfolding(g, t.children[i])
  }

  function TreeNames(t: RoleNode): set<string>
    decreases t
  {
    {t.name} + set i, n | 0 <= i < |t.children| && n in TreeNames(t.children[i]) :: n
  }

  ghost predicate CycleReachable(g: Graph, role: string) {
    exists p :: IsLasso(g, p) && p[0] == role
  }

  /** A walk with this beginning comes back to one of its nodes. */
  ghost predicate LassoFrom(g: Graph, start: seq<string>) {
    exists p :: IsLasso(g, p) && start <= p
  }

  lemma LassoFromShorter(g: Graph, start: seq<string>, n: string)
    requires LassoFrom(g, start + [n])
    ensures LassoFrom(g, start)
  {
    var p :| IsLasso(g, p) && start + [n] <= p;
    assert start <= p;
  }

  /** The subtrees of the first children. */
  ghost predicate Unfolded(g: Graph, nodes: seq<RoleNode>, names: seq<string>) {
    |nodes| == |names| && forall i :: 0 <= i < |nodes| ==> nodes[i].name == names[i] && IsUnfolding(g, nodes[i])
  }

  lemma UnfoldedAppend(g: Graph, nodes: seq<RoleNode>, names: seq<string>, i: nat, node: RoleNode)
    requires i < |names| && Unfolded(g, nodes, names[..i]) && node.name == names[i] && IsUnfolding(g, node)
    ensures Unfolded(g, nodes + [node], names[..i + 1])
  {}

  lemma UnfoldedIsUnfolding(g: Graph, t: RoleNode)
    requires Unfolded(g, t.children, Targets(g, t.name))
    ensures IsUnfolding(g, t)
  {}

  class RoleTreeBuilder {
    const hierarchy: Graph
    var visited: set<string>

    constructor (h: Graph)
      ensures hierarchy == h && visited == {}
    {
      hierarchy := h;
      visited := {};
    }

    /** `stack` is the path from the root to the role's parent. */
    method BuildRoleNode(role: string, ghost stack: seq<string>) returns (failed: bool, node: RoleNode)
      requires visited == Elements(stack)
      requires stack != [] ==> IsPath(hierarchy, stack) && Edge(hierarchy, stack[|stack| - 1], role)
      modifies this
      ensures !failed ==> visited == old(visited) && node.name == role && IsUnfolding(hierarchy, node)
      ensures failed ==> LassoFrom(hierarchy, stack + [role])
      decreases Names(hierarchy) + {role} - visited
    {
      node := RoleNode(role, []);
      if role in visited {
        RepeatIsLasso(hierarchy, stack, role);
        assert LassoFrom(hierarchy, stack + [role]);
        return true, node;
      }
      if stack != [] { AppendToPath(hierarchy, stack, role); }
      ElementsAppend(stack, role);
      visited := visited + {role};
      var children := Targets(hierarchy, role);
      for i := 0 to |children|
        invariant visited == old(visited) + {role} && node.name == role
        invariant Unfolded(hierarchy, node.children, children[..i])
      {
        assert Edge(hierarchy, role, children[i]);
        var childNode;
        failed, childNode := BuildRoleNode(children[i], stack + [role]);
        if failed {
          LassoFromShorter(hierarchy, stack + [role], children[i]);
          return;
        }
        UnfoldedAppend(hierarchy, node.children, children, i, childNode);
        node := RoleNode(role, node.children + [childNode]);
      }
      assert children[..|children|] == children;
      UnfoldedIsUnfolding(hierarchy, node);
      visited := visited - {role};
      failed := false;
    }
  }

  function Height(t: RoleNode): nat
    decreases t
  {
    if t.children == [] then 0 else 1 + MaxHeight(t.children)
  }

  function MaxHeight(ts: seq<RoleNode>): (h: nat)
    ensures forall i :: 0 <= i < |ts| ==> Height(ts[i]) <= h
    decreases ts
  {
    if ts == [] then 0
    else
      var rest := MaxHeight(ts[1..]);
      assert forall i :: 1 <= i < |ts| ==> ts[i] == ts[1..][i - 1];
      if Height(ts[0]) > rest then Height(ts[0]) else rest
  }

  lemma {:induction false} UnfoldingIsUnique(g: Graph, t: RoleNode, u: RoleNode)
    requires IsUnfolding(g, t) && IsUnfolding(g, u) && t.name == u.name
    ensures t == u
    decreases t
  {
    forall i | 0 <= i < |t.children| ensures t.children[i] == u.children[i] {
      UnfoldingIsUnique(g, t.children[i], u.children[i]);
    }
    assert t.children == u.children;
  }

  /** Walking a path down an unfolding loses height with every edge. */
  lemma {:induction false} Descend(g: Graph, t: RoleNode, p: seq<string>) returns (u: RoleNode)
    requires IsUnfolding(g, t) && IsPath(g, p) && p[0] == t.name
    ensures IsUnfolding(g, u) && u.name == p[|p| - 1] && TreeNames(u) <= TreeNames(t)
    ensures if |p| == 1 then u == t else Height(u) < Height(t)
    decreases |p|
  {
    u := t;
    if |p| >= 2 {
      assert StepAt(g, p, 0);
      var i :| 0 <= i < |Targets(g, p[0])| && Targets(g, p[0])[i] == p[1];
      PathSuffix(g, p, 1);
      assert Height(t.children[i]) < Height(t);
      u := Descend(g, t.children[i], p[1..]);
    }
  }

  /** Below an unfolding no path leads from a node back to itself. */
  lemma NoReturn(g: Graph, t: RoleNode, there: seq<string>, back: seq<string>)
    requires IsUnfolding(g, t) && IsPath(g, there) && there[0] == t.name
    requires IsPath(g, back) && |back| >= 2 && back[0] == there[|there| - 1]
    ensures back[|back| - 1] != back[0]
  {
    var u := Descend(g, t, there);
    var v := Descend(g, u, back);
    if v.name == u.name { UnfoldingIsUnique(g, u, v); }
  }

  lemma UnfoldingExcludesLasso(g: Graph, t: RoleNode, p: seq<string>)
    requires IsUnfolding(g, t) && p != [] && p[0] == t.name
    ensures !IsLasso(g, p)
  {
    if IsLasso(g, p) {
      var k :| 0 <= k < |p| - 1 && p[..|p| - 1][k] == p[|p| - 1];
      PathPrefix(g, p, k);
      PathSuffix(g, p, k);
      NoReturn(g, t, p[..k + 1], p[k..]);
    }
  }

  lemma {:induction false} NamesAreReachable(g: Graph, t: RoleNode, n: string)
    requires IsUnfolding(g, t) && n in TreeNames(t)
    ensures Reaches(g, t.name, n)
    decreases t
  {
    if n == t.name {
      ReachesItself(g, n);
    } else {
      var i :| 0 <= i < |t.children| && n in TreeNames(t.children[i]);
      NamesAreReachable(g, t.children[i], n);
      assert Edge(g, t.name, Targets(g, t.name)[i]);
      ReachesPrepend(g, t.name, t.children[i].name, n);
    }
  }

  /** buildRoleNode fails exactly when a cycle is reachable from the role;
      otherwise the tree unfolds the hierarchy and its names are exactly the
      roles the root inherits. */
  method BuildRoleTreeFrom(role: string, hierarchy: Graph) returns (failed: bool, node: RoleNode)
    ensures failed <==> CycleReachable(hierarchy, role)
    ensures !failed ==>
      node.name == role && IsUnfolding(hierarchy, node) &&
      forall n :: n in TreeNames(node) <==> Inherited(hierarchy, [role], n)
  {
    var builder := new RoleTreeBuilder(hierarchy);
    failed, node := builder.BuildRoleNode(role, []);
    if failed {
      ghost var p :| IsLasso(hierarchy, p) && [] + [role] <= p;
      assert p[0] == role;
    } else {
      forall p | IsLasso(hierarchy, p) && p[0] == role ensures false {
        UnfoldingExcludesLasso(hierarchy, node, p);
      }
      forall n ensures n in TreeNames(node) <==> Inherited(hierarchy, [role], n) {
        if n in TreeNames(node) { NamesAreReachable(hierarchy, node, n); assert role in [role]; }
        if Inherited(hierarchy, [role], n) {
          var p :| IsPath(hierarchy, p) && p[0] == role && p[|p| - 1] == n;
          var u := Descend(hierarchy, node, p);
          assert n in TreeNames(u);
        }
      }
    }
  }

  /** A validated hierarchy always unfolds. */
  lemma ValidatedHierarchyUnfolds(hierarchy: Graph, role: string)
    requires Acyclic(hierarchy)
    ensures !CycleReachable(hierarchy, role)
  {
    if CycleReachable(hierarchy, role) {
      var p :| IsLasso(hierarchy, p) && p[0] == role;
      LassoHasCycle(hierarchy, p);
    }
  }

  // --------------------------------------------------- the whole forest

  /** A role that has children and is nobody's child. */
  predicate IsRoot(g: Graph, role: string) {
    role in g && forall k :: k in g ==> role !in g[k]
  }

  ghost predicate HasRoot(g: Graph) {
    exists role :: IsRoot(g, role)
  }

  /** One tree for every root among these roles, in some order. */
  ghost predicate TreesOf(g: Graph, roles: set<string>, trees: seq<RoleNode>) {
    && (forall i :: 0 <= i < |trees| ==> trees[i].name in roles && IsRoot(g, trees[i].name) && IsUnfolding(g, trees[i]))
    && (forall i, j :: 0 <= i < j < |trees| ==> trees[i].name != trees[j].name)
    && (forall role :: role in roles && IsRoot(g, role) ==> exists i :: 0 <= i < |trees| && trees[i].name == role)
  }

  /** Among the keys, the roots are those that are no child. */
  ghost predicate TellsRoots(g: Graph, childRoles: set<string>) {
    forall role :: role in g ==> (IsRoot(g, role) <==> role !in childRoles)
  }

  lemma ChildrenTellRoots(g: Graph, childRoles: set<string>)
    requires forall n :: n in childRoles <==> exists k :: k in g && n in g[k]
    ensures TellsRoots(g, childRoles)
  {
    forall role | role in g ensures IsRoot(g, role) <==> role !in childRoles {
      if role in childRoles { var k :| k in g && role in g[k]; }
    }
  }

  method ChildRoles(hierarchy: Graph) returns (childRoles: set<string>)
    ensures TellsRoots(hierarchy, childRoles)
  {
    childRoles := CollectChildren(hierarchy);
    ChildrenTellRoots(hierarchy, childRoles);
  }

  method CollectChildren(hierarchy: Graph) returns (childRoles: set<string>)
    ensures forall n :: n in childRoles <==> exists k :: k in hierarchy && n in hierarchy[k]
  {
    childRoles := {};
    var keys := hierarchy.Keys;
    while keys != {}
      invariant keys <= hierarchy.Keys
      invariant forall n :: n in childRoles <==> exists k :: k in hierarchy && k !in keys && n in hierarchy[k]
    {
      var k :| k in keys;
      var children := hierarchy[k];
      ghost var before := childRoles;
      for i := 0 to |children|
        invariant childRoles == before + Elements(children[..i])
      {
        ElementsAppend(children[..i], children[i]);
        assert children[..i + 1] == children[..i] + [children[i]];
        childRoles := childRoles + {children[i]};
      }
      assert children[..|children|] == children;
      keys := keys - {k};
    }
  }

  lemma TreesGrow(g: Graph, roles: set<string>, trees: seq<RoleNode>, role: string, node: RoleNode)
    requires TreesOf(g, roles, trees) && role !in roles
    ensures !IsRoot(g, role) ==> TreesOf(g, roles + {role}, trees)
    ensures IsRoot(g, role) && node.name == role && IsUnfolding(g, node) ==> TreesOf(g, roles + {role}, trees + [node])
  {
    var grown := trees + [node];
    assert forall i :: 0 <= i < |trees| ==> grown[i] == trees[i];
    assert grown[|trees|] == node;
  }

  /** Some root leads to a cycle. */
  ghost predicate RootFails(g: Graph) {
    exists role :: IsRoot(g, role) && CycleReachable(g, role)
  }

  /** The loop over the roots, keys in any order. */
  method BuildRoots(hierarchy: Graph, childRoles: set<string>) returns (failed: bool, roots: seq<RoleNode>)
    requires TellsRoots(hierarchy, childRoles)
    ensures failed <==> RootFails(hierarchy)
    ensures !failed ==> TreesOf(hierarchy, hierarchy.Keys, roots)
  {
    roots := [];
    var keys := hierarchy.Keys;
    while keys != {}
      invariant keys <= hierarchy.Keys && TreesOf(hierarchy, hierarchy.Keys - keys, roots)
      invariant forall role :: IsRoot(hierarchy, role) && CycleReachable(hierarchy, role) ==> role in keys
    {
      var role :| role in keys;
      ghost var seen := hierarchy.Keys - keys;
      if role !in childRoles {
        var node;
        failed, node := BuildRoleTreeFrom(role, hierarchy);
        if failed {
          return;
        }
        TreesGrow(hierarchy, seen, roots, role, node);
        roots := roots + [node];
      } else {
        TreesGrow(hierarchy, seen, roots, role, RoleNode(role, []));
      }
      keys := keys - {role};
      assert seen + {role} == hierarchy.Keys - keys;
    }
    assert hierarchy.Keys - keys == hierarchy.Keys;
    failed := false;
  }

  lemma TreesTellRoots(g: Graph, trees: seq<RoleNode>)
    requires TreesOf(g, g.Keys, trees)
    ensures HasRoot(g) <==> trees != []
  {
    if trees != [] { assert IsRoot(g, trees[0].name); }
    if role :| IsRoot(g, role) { assert role in g.Keys; }
  }

  ghost predicate KeyFails(g: Graph) {
    exists role :: role in g && CycleReachable(g, role)
  }

  ghost predicate KeyPasses(g: Graph) {
    exists role :: role in g && !CycleReachable(g, role)
  }

  method TryFirstKey(hierarchy: Graph) returns (failed: bool)
    requires |hierarchy| > 0
    ensures if failed then KeyFails(hierarchy) else KeyPasses(hierarchy)
  {
    assert hierarchy.Keys != {};
    var role :| role in hierarchy.Keys;
    var node;
    failed, node := BuildRoleTreeFrom(role, hierarchy);
  }

  /** buildRoleTree: a tree for every root. Without any root a single key,
      whichever comes first, is looked at for a cycle. */
  method BuildRoleTree(hierarchy: Graph) returns (failed: bool, roots: seq<RoleNode>)
    ensures HasRoot(hierarchy) ==> (failed <==> RootFails(hierarchy))
    ensures !HasRoot(hierarchy) && failed ==> KeyFails(hierarchy)
    ensures !HasRoot(hierarchy) && !failed ==> hierarchy == map[] || KeyPasses(hierarchy)
    ensures !failed ==> TreesOf(hierarchy, hierarchy.Keys, roots)
  {
    var childRoles := ChildRoles(hierarchy);
    failed, roots := BuildRoots(hierarchy, childRoles);
    if failed {
      return;
    }
    TreesTellRoots(hierarchy, roots);
    if |roots| == 0 && |hierarchy| > 0 {
      failed := TryFirstKey(hierarchy);
    }
  }

  lemma ClosingIsCycle(g: Graph, k: string, p: seq<string>, j: nat)
    requires IsPath(g, p) && Edge(g, k, p[0]) && j < |p| && p[j] == k
    ensures !Acyclic(g)
  {
    PathPrefix(g, p, j);
    var c := [k] + p[..j + 1];
    forall i | 0 <= i < |c| - 1 ensures StepAt(g, c, i) {
      if i > 0 { assert StepAt(g, p[..j + 1], i - 1); }
    }
    assert IsCycle(g, c);
  }

  lemma ParentIsNew(g: Graph, p: seq<string>, k: string)
    requires Acyclic(g) && IsPath(g, p) && Edge(g, k, p[0])
    ensures k !in p
  {
    if k in p {
      var j :| 0 <= j < |p| && p[j] == k;
      ClosingIsCycle(g, k, p, j);
    }
  }

  lemma PrependToPath(g: Graph, k: string, p: seq<string>)
    requires IsPath(g, p) && Edge(g, k, p[0])
    ensures IsPath(g, [k] + p)
  {
    var q := [k] + p;
    forall i | 0 <= i < |q| - 1 ensures StepAt(g, q, i) {
      if i > 0 { assert StepAt(g, p, i - 1); }
    }
  }

  /** A key, or a child of one. */
  ghost predicate IsRole(g: Graph, role: string) {
    role in g || exists k :: k in g && role in g[k]
  }

  lemma ParentOf(g: Graph, role: string) returns (k: string)
    requires IsRole(g, role) && !IsRoot(g, role)
    ensures k in g && Edge(g, k, role)
  {
    k :| k in g && role in g[k];
  }

  lemma {:induction false} ClimbToRoot(g: Graph, p: seq<string>, above: set<string>) returns (root: string)
    requires Acyclic(g) && IsPath(g, p) && IsRole(g, p[0]) && forall k :: k in g && k !in p ==> k in above
    ensures IsRoot(g, root) && Reaches(g, root, p[|p| - 1])
    decreases above
  {
    if IsRoot(g, p[0]) {
      root := p[0];
    } else {
      var k := ParentOf(g, p[0]);
      ParentIsNew(g, p, k);
      PrependToPath(g, k, p);
      root := ClimbToRoot(g, [k] + p, above - {k});
    }
  }

  /** Without cycles there is nothing to fail at, and the trees of the roots show
      every role. */
  lemma AcyclicTreesShowAll(g: Graph, trees: seq<RoleNode>, name: string)
    requires Acyclic(g) && TreesOf(g, g.Keys, trees) && name in Names(g)
    ensures HasRoot(g) && exists i :: 0 <= i < |trees| && name in TreeNames(trees[i])
  {
    assert IsPath(g, [name]);
    var root := ClimbToRoot(g, [name], g.Keys);
    var i :| 0 <= i < |trees| && trees[i].name == root;
    var p :| IsPath(g, p) && p[0] == root && p[|p| - 1] == name;
    var u := Descend(g, trees[i], p);
    assert name in TreeNames(u);
  }

  lemma ChildlessHasNoCycle(g: Graph, role: string)
    requires Targets(g, role) == []
    ensures !CycleReachable(g, role)
  {
    forall p | |p| >= 2 && p[0] == role ensures !IsPath(g, p) { assert !StepAt(g, p, 0); }
  }

  /** A cycle no root leads to is not seen: nothing fails, and the role on it is
      in no tree. */
  lemma CycleBesideRootIsMissed(trees: seq<RoleNode>) returns (g: Graph)
    ensures !Acyclic(g) && IsRoot(g, "a") && forall role :: IsRoot(g, role) ==> !CycleReachable(g, role)
    ensures IsCycle(g, ["b", "b"]) && (TreesOf(g, g.Keys, trees) ==> forall i :: 0 <= i < |trees| ==> "b" !in TreeNames(trees[i]))
  {
    g := map["a" := [], "b" := ["b"]];
    assert StepAt(g, ["b", "b"], 0);
    assert IsCycle(g, ["b", "b"]);
    assert "b" in g["b"];
    ChildlessHasNoCycle(g, "a");
    if TreesOf(g, g.Keys, trees) {
      forall i | 0 <= i < |trees| ensures "b" !in TreeNames(trees[i]) {
        assert trees[i].name == "a" && trees[i].children == [];
      }
    }
  }

  /** Without roots the answer may depend on the key that comes first. */
  lemma RootlessAnswerVaries() returns (g: Graph)
    ensures !HasRoot(g) && "b" in g && CycleReachable(g, "b") && "a" in g && !CycleReachable(g, "a")
  {
    g := map["a" := [], "b" := ["b", "a"]];
    assert "a" in g["b"] && "b" in g["b"];
    var p := ["b", "b"];
    assert StepAt(g, p, 0);
    assert p[..1] == ["b"] && IsLasso(g, p);
    ChildlessHasNoCycle(g, "a");
  }
}
