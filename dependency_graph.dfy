/**
 * The registry's three relations between bean names: containment, "is
 * depended on by" and its inverse, with the two registration operations and
 * the reachability that `isDependent` searches for.
 *
 * Source: DefaultSingletonBeanRegistry.java, fields at lines 108-115,
 * registration at lines 444-477, the search at lines 486-514 and the pruning
 * done on destruction at lines 654-667.
 */
module DependencyGraph {
  import opened Lang

  /** Each name mapped to the names it points at. */
  type Relation = map<Name, set<Name>>

  /** The names `key` is related to; empty when the map has no entry for it. */
  function Related(m: Relation, key: Name): set<Name> {
    if key in m then m[key] else {}
  }

  /** Every edge of `small` is an edge of `big`, and it has no other keys. */
  ghost predicate SubRelation(small: Relation, big: Relation) {
    && small.Keys <= big.Keys
    && forall k :: k in small ==> small[k] <= big[k]
  }

  /**
   * containedBeanMap: containing bean -> beans it contains;
   * dependentBeanMap: bean -> beans that depend on it (destroyed before it);
   * dependenciesForBeanMap: bean -> beans it depends on.
   */
  datatype Graph = Graph(
    containedBeanMap: Relation,
    dependentBeanMap: Relation,
    dependenciesForBeanMap: Relation)

  /** `dependenciesForBeanMap` records exactly the edges of `dependentBeanMap`, reversed. */
  ghost predicate Inverse(g: Graph) {
    forall a, b :: b in Related(g.dependentBeanMap, a) <==> a in Related(g.dependenciesForBeanMap, b)
  }

  /**
   * registerDependentBean(beanName, dependentBeanName): records that
   * `dependentBeanName` depends on `beanName`; nothing happens when the edge is
   * already present.
   */
  function RegisterDependent(g: Graph, beanName: Name, dependentBeanName: Name): (r: Graph)
    ensures r.containedBeanMap == g.containedBeanMap
    ensures forall a, b :: b in Related(r.dependentBeanMap, a) <==>
      b in Related(g.dependentBeanMap, a) || (a == beanName && b == dependentBeanName)
    ensures dependentBeanName in Related(g.dependentBeanMap, beanName) ==> r == g
    ensures dependentBeanName !in Related(g.dependentBeanMap, beanName) ==>
      forall a, b :: b in Related(r.dependenciesForBeanMap, a) <==>
        b in Related(g.dependenciesForBeanMap, a) || (a == dependentBeanName && b == beanName)
  {
    var dependentBeans := Related(g.dependentBeanMap, beanName);
    if dependentBeanName in dependentBeans then g
    else
      g.(dependentBeanMap := g.dependentBeanMap[beanName := dependentBeans + {dependentBeanName}],
         dependenciesForBeanMap := g.dependenciesForBeanMap[dependentBeanName :=
           Related(g.dependenciesForBeanMap, dependentBeanName) + {beanName}])
  }

  /**
   * registerContainedBean(containedBeanName, containingBeanName): records the
   * containment and, only when it is new, makes the containing bean depend on
   * the contained one.
   */
  function RegisterContained(g: Graph, containedBeanName: Name, containingBeanName: Name): (r: Graph)
    ensures forall a, b :: b in Related(r.containedBeanMap, a) <==>
      b in Related(g.containedBeanMap, a) || (a == containingBeanName && b == containedBeanName)
    ensures containedBeanName in Related(g.containedBeanMap, containingBeanName) ==> r == g
    ensures containedBeanName !in Related(g.containedBeanMap, containingBeanName) ==>
      containingBeanName in Related(r.dependentBeanMap, containedBeanName)
  {
    var containedBeans := Related(g.containedBeanMap, containingBeanName);
    if containedBeanName in containedBeans then g
    else
      RegisterDependent(
        g.(containedBeanMap := g.containedBeanMap[containingBeanName := containedBeans + {containedBeanName}]),
        containedBeanName, containingBeanName)
  }

  /** Registering the same dependency twice leaves the maps as registering it once. */
  lemma RegisterDependentIdempotent(g: Graph, beanName: Name, dependentBeanName: Name)
    ensures var once := RegisterDependent(g, beanName, dependentBeanName);
      RegisterDependent(once, beanName, dependentBeanName) == once
  {
  }

  /** Registration keeps `dependenciesForBeanMap` the inverse of `dependentBeanMap`. */
  lemma RegisterDependentKeepsInverse(g: Graph, beanName: Name, dependentBeanName: Name)
    requires Inverse(g)
    ensures Inverse(RegisterDependent(g, beanName, dependentBeanName))
  {
  }

  /**
   * A containment registers the dependency edge "containing depends on
   * contained" the first time it is recorded, and changes nothing afterwards.
   */
  lemma RegisterContainedAddsEdgeOnce(g: Graph, containedBeanName: Name, containingBeanName: Name)
    ensures var once := RegisterContained(g, containedBeanName, containingBeanName);
      RegisterContained(once, containedBeanName, containingBeanName) == once
    ensures containedBeanName !in Related(g.containedBeanMap, containingBeanName) ==>
      && containingBeanName in Related(RegisterContained(g, containedBeanName, containingBeanName).dependentBeanMap, containedBeanName)
      && RegisterContained(g, containedBeanName, containingBeanName).dependentBeanMap ==
         RegisterDependent(g, containedBeanName, containingBeanName).dependentBeanMap
  {
  }

  /** Containment registration also keeps the dependency maps inverse to each other. */
  lemma RegisterContainedKeepsInverse(g: Graph, containedBeanName: Name, containingBeanName: Name)
    requires Inverse(g)
    ensures Inverse(RegisterContained(g, containedBeanName, containingBeanName))
  {
    if containedBeanName !in Related(g.containedBeanMap, containingBeanName) {
      var g' := g.(containedBeanMap := g.containedBeanMap[containingBeanName :=
        Related(g.containedBeanMap, containingBeanName) + {containedBeanName}]);
      RegisterDependentKeepsInverse(g', containedBeanName, containingBeanName);
    }
  }

  // ---------------------------------------------------------------------
  // Reachability over dependentBeanMap (isDependent)
  // ---------------------------------------------------------------------

  /** Each name in `p` is related to the next one. */
  ghost predicate IsPath(m: Relation, p: seq<Name>) {
    forall i :: 0 <= i < |p| - 1 ==> p[i + 1] in Related(m, p[i])
  }

  /** `to` can be reached from `from` by following one or more edges of `m`. */
  ghost predicate Reachable(m: Relation, from: Name, to: Name) {
    exists p :: 2 <= |p| && p[0] == from && p[|p| - 1] == to && IsPath(m, p)
  }

  /** A name with no outgoing edge. */
  predicate Leaf(m: Relation, y: Name) {
    Related(m, y) == {}
  }

  /**
   * The search has finished with `z` without finding `target`: `target` is
   * not directly related to `z`, and each name related to `z` is either
   * already seen or has no edges.
   */
  ghost predicate Explored(m: Relation, target: Name, z: Name, seen: set<Name>) {
    && target !in Related(m, z)
    && forall y :: y in Related(m, z) ==> y in seen || Leaf(m, y)
  }

  lemma DirectEdgeReachable(m: Relation, from: Name, to: Name)
    requires to in Related(m, from)
    ensures Reachable(m, from, to)
  {
    var p := [from, to];
    assert IsPath(m, p);
  }

  /** Prepending an edge to a path. */
  lemma ReachableStep(m: Relation, from: Name, via: Name, to: Name)
    requires via in Related(m, from) && Reachable(m, via, to)
    ensures Reachable(m, from, to)
  {
    var p :| 2 <= |p| && p[0] == via && p[|p| - 1] == to && IsPath(m, p);
    var q := [from] + p;
    assert forall i :: 1 <= i < |q| - 1 ==> q[i + 1] == p[i] && q[i] == p[i - 1];
    assert IsPath(m, q);
  }

  /** Every name on a path that starts inside a fully explored set stays inside it. */
  lemma {:induction false} PathStaysExplored(m: Relation, target: Name, seen: set<Name>, p: seq<Name>, i: nat)
    requires 2 <= |p| && IsPath(m, p)
    requires p[0] in seen || Leaf(m, p[0])
    requires forall z :: z in seen ==> Explored(m, target, z, seen)
    requires i <= |p| - 2
    ensures p[i] in seen
  {
    assert p[i + 1] in Related(m, p[i]);
    if i > 0 {
      PathStaysExplored(m, target, seen, p, i - 1);
      assert Explored(m, target, p[i - 1], seen);
      assert p[i] in Related(m, p[i - 1]);
    }
  }

  /**
   * If the start is explored (or has no edges) and every seen name is
   * explored, the target is not reachable: this is why a search that returns
   * false has not missed a path.
   */
  lemma ExploredUnreachable(m: Relation, from: Name, target: Name, seen: set<Name>)
    requires from in seen || Leaf(m, from)
    requires forall z :: z in seen ==> Explored(m, target, z, seen)
    ensures !Reachable(m, from, target)
  {
    forall p | 2 <= |p| && p[0] == from && IsPath(m, p)
      ensures p[|p| - 1] != target
    {
      PathStaysExplored(m, target, seen, p, |p| - 2);
      assert Explored(m, target, p[|p| - 2], seen);
      assert p[|p| - 1] in Related(m, p[|p| - 2]);
    }
  }

  // ---------------------------------------------------------------------
  // Pruning a destroyed bean (destroyBean, lines 654-664)
  // ---------------------------------------------------------------------

  /**
   * `m` after `name` is removed from every set, with the sets that became
   * empty dropped.
   */
  function Pruned(m: Relation, name: Name): (r: Relation)
    ensures forall a, b :: b in Related(r, a) <==> b in Related(m, a) && b != name
    ensures forall k :: k in r ==> r[k] != {}
    ensures SubRelation(r, m)
  {
    map k | k in m && m[k] - {name} != {} :: m[k] - {name}
  }
}
