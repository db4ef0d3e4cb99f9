/**
 * What destroying singletons does to the registry, stated on snapshots of
 * its whole state: which entries may go, which destroy() calls are made,
 * and in which order. The registry's destroy methods are proved against
 * these predicates; the lemmas here compose the steps of one cascade.
 *
 * Source: DefaultSingletonBeanRegistry.java lines 555-668.
 */
module DestroyCascade {
  import opened Lang
  import opened Collections
  import opened CreationTracker
  import opened SingletonCaches
  import opened DependencyGraph

  /**
   * A DisposableBean, known by identity only: what its destroy() does,
   * including whether it throws, happens outside the registry.
   */
  datatype DisposableBean = DisposableBean(id: nat)

  /** A snapshot of everything the registry holds, and the destroy() calls made so far. */
  datatype RegistryState = RegistryState(
    caches: Caches,
    tracker: Tracker,
    inDestruction: bool,
    disposableBeans: map<Name, DisposableBean>,
    disposableBeanOrder: seq<Name>,
    graph: Graph,
    destroyTrace: seq<Name>)

  ghost predicate SubMap<V>(small: map<Name, V>, big: map<Name, V>) {
    small.Keys <= big.Keys && forall k :: k in small ==> small[k] == big[k]
  }

  /**
   * Names only leave the cache tiers, the disposable beans and the graph
   * (an entry that stays keeps its value; a containment set is dropped
   * whole, never shrunk; a dependent set only loses names), destroy() calls
   * are appended to the trace, and the creation tracker and the
   * in-destruction flag do not change.
   */
  ghost predicate Trimmed(s0: RegistryState, s1: RegistryState) {
    && SubMap(s1.caches.singletonObjects, s0.caches.singletonObjects)
    && SubMap(s1.caches.earlySingletonObjects, s0.caches.earlySingletonObjects)
    && SubMap(s1.caches.singletonFactories, s0.caches.singletonFactories)
    && s1.tracker == s0.tracker
    && s1.inDestruction == s0.inDestruction
    && SubMap(s1.disposableBeans, s0.disposableBeans)
    && SubMap(s1.graph.containedBeanMap, s0.graph.containedBeanMap)
    && SubRelation(s1.graph.dependentBeanMap, s0.graph.dependentBeanMap)
    && s1.graph.dependenciesForBeanMap.Keys <= s0.graph.dependenciesForBeanMap.Keys
    && s0.destroyTrace <= s1.destroyTrace
  }

  /** The bean is gone from the caches and its disposable bean from the registry. */
  ghost predicate Destroyed(s: RegistryState, name: Name) {
    name !in s.disposableBeans && name !in Cached(s.caches)
  }

  /** When a containing bean's entry is dropped, every bean it contained is destroyed. */
  ghost predicate ContainedGone(s0: RegistryState, s1: RegistryState) {
    forall k, c :: (k in s0.graph.containedBeanMap && k !in s1.graph.containedBeanMap &&
      c in s0.graph.containedBeanMap[k]) ==> Destroyed(s1, c)
  }

  ghost predicate Shrinks(s0: RegistryState, s1: RegistryState) {
    Trimmed(s0, s1) && ContainedGone(s0, s1)
  }

  /** The measure a destruction cascade decreases. */
  ghost function Size(s: RegistryState): nat {
    |s.graph.dependentBeanMap| + |s.graph.containedBeanMap|
  }

  /** The destroy() calls made between two states. */
  ghost function NewTrace(s0: RegistryState, s1: RegistryState): seq<Name>
    requires |s0.destroyTrace| <= |s1.destroyTrace|
  {
    s1.destroyTrace[|s0.destroyTrace|..]
  }

  /**
   * The destroy() calls made between the two states are for exactly the
   * disposable beans that left the registry, plus `extra`.
   */
  ghost predicate TraceCovers(s0: RegistryState, s1: RegistryState, extra: set<Name>) {
    && |s0.destroyTrace| <= |s1.destroyTrace|
    && Elems(NewTrace(s0, s1)) == (s0.disposableBeans.Keys - s1.disposableBeans.Keys) + extra
  }

  /** No bean was destroyed twice between the two states. */
  ghost predicate TraceOnce(s0: RegistryState, s1: RegistryState) {
    |s0.destroyTrace| <= |s1.destroyTrace| && NoDup(NewTrace(s0, s1))
  }

  /** `after` extends `before` by exactly one destroy() call for each of `names`. */
  ghost predicate EachDestroyedOnce(before: seq<Name>, after: seq<Name>, names: set<Name>) {
    before <= after && NoDup(after[|before|..]) && Elems(after[|before|..]) == names
  }

  /**
   * No edge of `g` leaves `names`: every bean depending on a member, and
   * every bean a member contains, is a member too.
   */
  ghost predicate Closed(g: Graph, names: set<Name>) {
    forall k :: k in names ==>
      Related(g.dependentBeanMap, k) <= names && Related(g.containedBeanMap, k) <= names
  }

  /** Only members of `names` left the cache tiers or the disposable beans. */
  ghost predicate LeftWithin(s0: RegistryState, s1: RegistryState, names: set<Name>) {
    && s0.caches.singletonObjects.Keys - names <= s1.caches.singletonObjects.Keys
    && s0.caches.earlySingletonObjects.Keys - names <= s1.caches.earlySingletonObjects.Keys
    && s0.caches.singletonFactories.Keys - names <= s1.caches.singletonFactories.Keys
    && s0.disposableBeans.Keys - names <= s1.disposableBeans.Keys
  }

  /**
   * Destruction started at `roots` went no further than its cascade in `g`:
   * whatever left lies in every set that holds the roots and is closed
   * under `g`, the smallest of which is the roots together with every bean
   * reachable from them over dependent and contained edges.
   */
  ghost predicate WithinCascade(g: Graph, s0: RegistryState, s1: RegistryState, roots: set<Name>) {
    forall S :: roots <= S && Closed(g, S) ==> LeftWithin(s0, s1, S)
  }

  /**
   * Each of `names` was destroyed, nothing outside their cascade left, and
   * each destroy() call was for a departing disposable bean, once.
   */
  ghost predicate DestroyedAll(s0: RegistryState, s1: RegistryState, names: set<Name>) {
    && Shrinks(s0, s1) && TraceCovers(s0, s1, {}) && TraceOnce(s0, s1)
    && (forall n :: n in names ==> Destroyed(s1, n))
    && WithinCascade(s0.graph, s0, s1, names)
  }

  /** No key and no dependent set of the graph mentions `name` any more. */
  ghost predicate Detached(s: RegistryState, name: Name) {
    && name !in s.graph.dependentBeanMap
    && name !in s.graph.containedBeanMap
    && name !in s.graph.dependenciesForBeanMap
    && forall k :: k in s.graph.dependentBeanMap ==> name !in s.graph.dependentBeanMap[k]
  }

  /** Every bean that depended on `b` in `s0` is destroyed in `s1`. */
  ghost predicate DependentsDestroyed(s0: RegistryState, s1: RegistryState, b: Name) {
    forall d :: d in Related(s0.graph.dependentBeanMap, b) ==> Destroyed(s1, d)
  }

  /** Every bean `b` contained in `s0` is destroyed in `s1`. */
  ghost predicate ContainedDestroyed(s0: RegistryState, s1: RegistryState, b: Name) {
    forall c :: c in Related(s0.graph.containedBeanMap, b) ==> Destroyed(s1, c)
  }

  /**
   * `b` was destroyed at position `k` of the trace: every disposable bean
   * depending on it was destroyed earlier in this cascade, and every
   * disposable bean it contains that was not destroyed by then is destroyed
   * later.
   */
  ghost predicate OrderedAround(s0: RegistryState, s1: RegistryState, b: Name, k: nat)
    requires |s0.destroyTrace| <= k < |s1.destroyTrace|
  {
    && (forall d :: (d in Related(s0.graph.dependentBeanMap, b) && d in s0.disposableBeans && d != b) ==>
          d in s1.destroyTrace[|s0.destroyTrace|..k])
    && (forall c :: (c in Related(s0.graph.containedBeanMap, b) && c in s0.disposableBeans && c != b &&
          c !in s1.destroyTrace[|s0.destroyTrace|..k]) ==> c in s1.destroyTrace[k + 1..])
  }

  /** `b` was destroyed in this cascade, after its dependents and before what it contains. */
  ghost predicate DestroyOrder(s0: RegistryState, s1: RegistryState, b: Name) {
    && |s0.destroyTrace| <= |s1.destroyTrace|
    && exists k: nat :: |s0.destroyTrace| <= k < |s1.destroyTrace| && s1.destroyTrace[k] == b &&
         OrderedAround(s0, s1, b, k)
  }

  /** No dependency and no containment is registered. */
  ghost predicate NoGraph(s: RegistryState) {
    s.graph.dependentBeanMap == map[] && s.graph.containedBeanMap == map[]
  }

  /** The destroy() call destroyBean makes for its own bean, if it has one. */
  function OwnCall(b: Name, bean: Option<DisposableBean>): seq<Name> {
    if bean.Some? then [b] else []
  }

  /** What destroyBean(b, bean) promises about the state it leaves. */
  ghost predicate DestroyBeanDone(s0: RegistryState, s1: RegistryState, b: Name, bean: Option<DisposableBean>) {
    && Shrinks(s0, s1)
    && TraceCovers(s0, s1, Elems(OwnCall(b, bean)))
    && ((bean.None? || b !in s0.disposableBeans) ==> TraceOnce(s0, s1))
    && Detached(s1, b)
    && DependentsDestroyed(s0, s1, b)
    && ContainedDestroyed(s0, s1, b)
    && (bean.Some? ==> DestroyOrder(s0, s1, b))
    && WithinCascade(s0.graph, s0, s1, {b})
    && (NoGraph(s0) ==> NoGraph(s1) && s1.caches == s0.caches && s1.disposableBeans == s0.disposableBeans &&
                        s1.destroyTrace == s0.destroyTrace + OwnCall(b, bean))
  }

  /** dependentBeanMap part-way through the pruning loop; the keys in `todo` are not visited yet. */
  ghost function PartlyPruned(m: Relation, name: Name, todo: set<Name>): Relation {
    map k | k in m && (k in todo || m[k] - {name} != {}) :: if k in todo then m[k] else m[k] - {name}
  }

  // ---------------------------------------------------------------------
  // Composing steps
  // ---------------------------------------------------------------------

  lemma ShrinksKeeps(s0: RegistryState, s1: RegistryState)
    requires Trimmed(s0, s1)
    ensures forall n :: Destroyed(s0, n) ==> Destroyed(s1, n)
    ensures forall n :: Detached(s0, n) ==> Detached(s1, n)
    ensures Size(s1) <= Size(s0)
  {
    ShrinksSize(s0, s1);
  }

  /** The graph never grows during destruction, which bounds the recursion. */
  lemma ShrinksSize(s0: RegistryState, s1: RegistryState)
    requires Trimmed(s0, s1)
    ensures Size(s1) <= Size(s0)
  {
    MapCardMono(s1.graph.dependentBeanMap, s0.graph.dependentBeanMap);
    MapCardMono(s1.graph.containedBeanMap, s0.graph.containedBeanMap);
  }

  lemma TrimmedTrans(s0: RegistryState, s1: RegistryState, s2: RegistryState)
    requires Trimmed(s0, s1) && Trimmed(s1, s2)
    ensures Trimmed(s0, s2)
  {
  }

  lemma ShrinksTrans(s0: RegistryState, s1: RegistryState, s2: RegistryState)
    requires Shrinks(s0, s1) && Shrinks(s1, s2)
    ensures Shrinks(s0, s2)
  {
    TrimmedTrans(s0, s1, s2);
    ShrinksKeeps(s1, s2);
  }

  /** A state that is not changed satisfies every "nothing was destroyed" relation. */
  lemma NoStep(s: RegistryState)
    ensures DestroyedAll(s, s, {})
  {
    assert NewTrace(s, s) == [];
  }

  /** The part of a trace added over two steps is the two parts one after the other. */
  lemma NewTraceSplit(t0: seq<Name>, t1: seq<Name>, t2: seq<Name>)
    requires t0 <= t1 <= t2
    ensures t2[|t0|..] == t1[|t0|..] + t2[|t1|..]
  {
    assert t2[|t0|..] == t2[|t0|..|t1|] + t2[|t1|..];
    assert t2[|t0|..|t1|] == t1[|t0|..];
  }

  lemma CoverSets(d0: set<Name>, d1: set<Name>, d2: set<Name>, e1: set<Name>, e2: set<Name>)
    requires d2 <= d1 <= d0
    ensures (d0 - d1) + e1 + ((d1 - d2) + e2) == (d0 - d2) + (e1 + e2)
    ensures (e1 !! d0 && e2 !! d0 && e1 !! e2) ==> ((d0 - d1) + e1) !! ((d1 - d2) + e2)
  {
  }

  /** Destroy traces of consecutive steps compose. */
  lemma TraceStep(s0: RegistryState, s1: RegistryState, s2: RegistryState, e1: set<Name>, e2: set<Name>)
    requires Trimmed(s0, s1) && Trimmed(s1, s2)
    requires TraceCovers(s0, s1, e1) && TraceCovers(s1, s2, e2)
    ensures Trimmed(s0, s2)
    ensures Shrinks(s0, s1) && Shrinks(s1, s2) ==> Shrinks(s0, s2)
    ensures NewTrace(s0, s2) == NewTrace(s0, s1) + NewTrace(s1, s2)
    ensures TraceCovers(s0, s2, e1 + e2)
    ensures (TraceOnce(s0, s1) && TraceOnce(s1, s2) && e1 !! s0.disposableBeans.Keys &&
             e2 !! s0.disposableBeans.Keys && e1 !! e2) ==> TraceOnce(s0, s2)
  {
    TrimmedTrans(s0, s1, s2);
    TraceJoin(s0, s1, s2, e1, e2);
    if Shrinks(s0, s1) && Shrinks(s1, s2) {
      ShrinksTrans(s0, s1, s2);
    }
  }

  /** The trace half of TraceStep: it needs only the disposable beans and the traces. */
  lemma TraceJoin(s0: RegistryState, s1: RegistryState, s2: RegistryState, e1: set<Name>, e2: set<Name>)
    requires s2.disposableBeans.Keys <= s1.disposableBeans.Keys <= s0.disposableBeans.Keys
    requires s0.destroyTrace <= s1.destroyTrace <= s2.destroyTrace
    requires TraceCovers(s0, s1, e1) && TraceCovers(s1, s2, e2)
    ensures NewTrace(s0, s2) == NewTrace(s0, s1) + NewTrace(s1, s2)
    ensures TraceCovers(s0, s2, e1 + e2)
    ensures (TraceOnce(s0, s1) && TraceOnce(s1, s2) && e1 !! s0.disposableBeans.Keys &&
             e2 !! s0.disposableBeans.Keys && e1 !! e2) ==> TraceOnce(s0, s2)
  {
    NewTraceSplit(s0.destroyTrace, s1.destroyTrace, s2.destroyTrace);
    var a, b := NewTrace(s0, s1), NewTrace(s1, s2);
    ElemsConcat(a, b);
    CoverSets(s0.disposableBeans.Keys, s1.disposableBeans.Keys, s2.disposableBeans.Keys, e1, e2);
    if TraceOnce(s0, s1) && TraceOnce(s1, s2) && e1 !! s0.disposableBeans.Keys &&
       e2 !! s0.disposableBeans.Keys && e1 !! e2 {
      NoDupConcat(a, b);
    }
  }

  /** A graph that only lost edges keeps every set that was closed under it closed. */
  lemma ClosedShrinks(g0: Graph, g1: Graph, S: set<Name>)
    requires SubMap(g1.containedBeanMap, g0.containedBeanMap)
    requires SubRelation(g1.dependentBeanMap, g0.dependentBeanMap)
    requires Closed(g0, S)
    ensures Closed(g1, S)
  {
  }

  /** A step in which no cache entry and no disposable bean leaves stays within every cascade. */
  lemma NothingLeft(g: Graph, s0: RegistryState, s1: RegistryState, roots: set<Name>)
    requires s1.caches == s0.caches && s1.disposableBeans == s0.disposableBeans
    ensures WithinCascade(g, s0, s1, roots)
  {
  }

  /**
   * A step within the cascade of `r0`, then one within the cascade of `r1`
   * in the graph it left, where both lie in the cascade of `roots`.
   */
  lemma CascadeJoin(s0: RegistryState, s1: RegistryState, s2: RegistryState,
                    r0: set<Name>, roots: set<Name>, r1: set<Name>)
    requires Trimmed(s0, s1) && WithinCascade(s0.graph, s0, s1, r0)
    requires WithinCascade(s1.graph, s1, s2, r1)
    requires forall S :: roots <= S && Closed(s0.graph, S) ==> r0 + r1 <= S
    ensures WithinCascade(s0.graph, s0, s2, roots)
  {
    forall S | roots <= S && Closed(s0.graph, S)
      ensures LeftWithin(s0, s2, S)
    {
      ClosedShrinks(s0.graph, s1.graph, S);
    }
  }

  /** One more bean destroyed by the loop over a set of names. */
  lemma DestroyedAllStep(s0: RegistryState, s1: RegistryState, s2: RegistryState,
                         done: set<Name>, b: Name)
    requires DestroyedAll(s0, s1, done)
    requires Shrinks(s1, s2) && TraceCovers(s1, s2, {}) && TraceOnce(s1, s2) && Destroyed(s2, b)
    requires WithinCascade(s1.graph, s1, s2, {b})
    ensures DestroyedAll(s0, s2, done + {b})
  {
    TraceStep(s0, s1, s2, {}, {});
    ShrinksKeeps(s1, s2);
    CascadeStep(s0, s1, s2, done, b);
  }

  /** The cascade half of DestroyedAllStep. */
  lemma CascadeStep(s0: RegistryState, s1: RegistryState, s2: RegistryState, done: set<Name>, b: Name)
    requires Trimmed(s0, s1) && WithinCascade(s0.graph, s0, s1, done)
    requires WithinCascade(s1.graph, s1, s2, {b})
    ensures WithinCascade(s0.graph, s0, s2, done + {b})
  {
    CascadeJoin(s0, s1, s2, done, done + {b}, {b});
  }

  // ---------------------------------------------------------------------
  // destroyBean, step by step
  // ---------------------------------------------------------------------

  /** Only the graph differs. */
  ghost predicate SameButGraph(s0: RegistryState, s1: RegistryState) {
    && s1.caches == s0.caches && s1.tracker == s0.tracker && s1.inDestruction == s0.inDestruction
    && s1.disposableBeans == s0.disposableBeans && s1.disposableBeanOrder == s0.disposableBeanOrder
    && s1.destroyTrace == s0.destroyTrace
  }

  /** `dependentBeanMap.remove(b)` */
  ghost predicate TookDependents(s0: RegistryState, s1: RegistryState, b: Name) {
    && SameButGraph(s0, s1)
    && s1.graph.dependentBeanMap == s0.graph.dependentBeanMap - {b}
    && s1.graph.containedBeanMap == s0.graph.containedBeanMap
    && s1.graph.dependenciesForBeanMap == s0.graph.dependenciesForBeanMap
  }

  /** The bean's own destroy() call, if it has a disposable bean. */
  ghost predicate CalledDestroy(sA: RegistryState, sB: RegistryState, b: Name, bean: Option<DisposableBean>) {
    && sB.caches == sA.caches && sB.tracker == sA.tracker && sB.inDestruction == sA.inDestruction
    && sB.disposableBeans == sA.disposableBeans && sB.disposableBeanOrder == sA.disposableBeanOrder
    && sB.graph == sA.graph
    && sB.destroyTrace == sA.destroyTrace + OwnCall(b, bean)
  }

  /** `containedBeanMap.remove(b)` */
  ghost predicate TookContained(s0: RegistryState, s1: RegistryState, b: Name) {
    && SameButGraph(s0, s1)
    && s1.graph.dependentBeanMap == s0.graph.dependentBeanMap
    && s1.graph.containedBeanMap == s0.graph.containedBeanMap - {b}
    && s1.graph.dependenciesForBeanMap == s0.graph.dependenciesForBeanMap
  }

  /** The pruning loop, then `dependenciesForBeanMap.remove(b)`. */
  ghost predicate PrunedOut(s0: RegistryState, s1: RegistryState, b: Name) {
    && SameButGraph(s0, s1)
    && s1.graph.dependentBeanMap == Pruned(s0.graph.dependentBeanMap, b)
    && s1.graph.containedBeanMap == s0.graph.containedBeanMap
    && s1.graph.dependenciesForBeanMap == s0.graph.dependenciesForBeanMap - {b}
  }

  /** Taking the dependent set of `b` out (`s1`) and destroying every bean in it (`sA`). */
  lemma DependentsStage(s0: RegistryState, s1: RegistryState, sA: RegistryState, b: Name, dependencies: set<Name>)
    requires dependencies == Related(s0.graph.dependentBeanMap, b)
    requires TookDependents(s0, s1, b)
    requires DestroyedAll(s1, sA, dependencies)
    requires dependencies == {} ==> sA == s1
    ensures DestroyedAll(s0, sA, dependencies)
    ensures b !in sA.graph.dependentBeanMap
    ensures NoGraph(s0) ==> NoGraph(sA) && sA.caches == s0.caches && sA.disposableBeans == s0.disposableBeans &&
                            sA.destroyTrace == s0.destroyTrace
  {
    assert DestroyedAll(s0, s1, {}) by {
      assert NewTrace(s0, s1) == [];
    }
    TraceStep(s0, s1, sA, {}, {});
    CascadeJoin(s0, s1, sA, {}, dependencies, dependencies);
    if dependencies == {} {
      assert NoGraph(s0) ==> s0.graph.dependentBeanMap - {b} == map[];
    }
  }

  /** The bean's own destroy() (`sB`), its containment set taken out (`s2`), each bean in it destroyed (`sC`): the graph. */
  lemma ContainedStageTrim(sA: RegistryState, sB: RegistryState, s2: RegistryState, sC: RegistryState,
                           b: Name, bean: Option<DisposableBean>, containedBeans: set<Name>)
    requires CalledDestroy(sA, sB, b, bean) && TookContained(sB, s2, b)
    requires DestroyedAll(s2, sC, containedBeans)
    ensures Trimmed(sA, sC)
    ensures b !in sC.graph.containedBeanMap
    ensures s2.graph.containedBeanMap == sA.graph.containedBeanMap - {b}
  {
    OwnCallStep(sA, sB, s2, b, bean);
    TrimmedTrans(sA, s2, sC);
  }

  /** The same three steps: the destroy() calls. */
  lemma ContainedStageTrace(sA: RegistryState, sB: RegistryState, s2: RegistryState, sC: RegistryState,
                            b: Name, bean: Option<DisposableBean>, containedBeans: set<Name>)
    requires CalledDestroy(sA, sB, b, bean) && TookContained(sB, s2, b)
    requires DestroyedAll(s2, sC, containedBeans)
    ensures TraceCovers(sA, sC, Elems(OwnCall(b, bean)))
    ensures NewTrace(sA, sC) == OwnCall(b, bean) + NewTrace(s2, sC)
    ensures Elems(NewTrace(s2, sC)) == sA.disposableBeans.Keys - sC.disposableBeans.Keys
  {
    OwnCallStep(sA, sB, s2, b, bean);
    TraceStep(sA, s2, sC, Elems(OwnCall(b, bean)), {});
  }

  /** The same three steps, on a registry without dependencies or containments. */
  lemma ContainedStageNoGraph(sA: RegistryState, sB: RegistryState, s2: RegistryState, sC: RegistryState,
                              b: Name, bean: Option<DisposableBean>, containedBeans: set<Name>)
    requires CalledDestroy(sA, sB, b, bean) && TookContained(sB, s2, b)
    requires containedBeans == Related(sB.graph.containedBeanMap, b)
    requires containedBeans == {} ==> sC == s2
    ensures NoGraph(sA) ==> NoGraph(sC) && sC.caches == sA.caches && sC.disposableBeans == sA.disposableBeans &&
                            sC.destroyTrace == sA.destroyTrace + OwnCall(b, bean)
  {
    if NoGraph(sA) {
      assert sA.graph.containedBeanMap - {b} == map[];
      assert sA.graph.dependentBeanMap == map[];
    }
  }

  /** The bean's own destroy() and taking its containment set out. */
  lemma OwnCallStep(sA: RegistryState, sB: RegistryState, s2: RegistryState, b: Name, bean: Option<DisposableBean>)
    requires CalledDestroy(sA, sB, b, bean) && TookContained(sB, s2, b)
    ensures Trimmed(sA, s2) && TraceCovers(sA, s2, Elems(OwnCall(b, bean)))
    ensures NewTrace(sA, s2) == OwnCall(b, bean)
    ensures s2.graph.containedBeanMap == sA.graph.containedBeanMap - {b}
    ensures s2.graph.dependentBeanMap == sA.graph.dependentBeanMap
    ensures s2.disposableBeans == sA.disposableBeans
    ensures s2.destroyTrace == sA.destroyTrace + OwnCall(b, bean)
  {
    assert NewTrace(sA, s2) == OwnCall(b, bean);
  }

  /** Every bean contained in `b` when its own destroy() ran is destroyed by the end of destroyBean. */
  lemma ContainedOwnGone(sA: RegistryState, s2: RegistryState, sC: RegistryState, s3: RegistryState,
                         b: Name, containedBeans: set<Name>)
    requires containedBeans == Related(sA.graph.containedBeanMap, b)
    requires forall c :: c in containedBeans ==> Destroyed(sC, c)
    requires s2.graph.containedBeanMap == sA.graph.containedBeanMap - {b} && ContainedGone(s2, sC)
    requires Trimmed(sC, s3) && s3.graph.containedBeanMap == sC.graph.containedBeanMap
    ensures ContainedGone(sA, s3)
  {
    ShrinksKeeps(sC, s3);
    forall k, c | k in sA.graph.containedBeanMap && k !in s3.graph.containedBeanMap &&
                  c in sA.graph.containedBeanMap[k]
      ensures Destroyed(s3, c)
    {
      if k == b {
        assert c in containedBeans;
      } else {
        assert k in s2.graph.containedBeanMap && c in s2.graph.containedBeanMap[k];
      }
    }
  }

  /** Every bean `b` contained when destroyBean started is destroyed by its end. */
  lemma ContainedStageGone(s0: RegistryState, sA: RegistryState, s3: RegistryState, b: Name)
    requires Shrinks(s0, sA) && Trimmed(sA, s3) && ContainedGone(sA, s3)
    requires b !in s3.graph.containedBeanMap
    ensures Shrinks(s0, s3)
    ensures ContainedDestroyed(s0, s3, b)
  {
    TrimmedTrans(s0, sA, s3);
    ShrinksKeeps(sA, s3);
    forall k, c | k in s0.graph.containedBeanMap && k !in s3.graph.containedBeanMap &&
                  c in s0.graph.containedBeanMap[k]
      ensures Destroyed(s3, c)
    {
      if k !in sA.graph.containedBeanMap {
        assert Destroyed(sA, c);
      } else {
        assert c in sA.graph.containedBeanMap[k];
      }
    }
  }

  /** The pruning (`s3`). */
  lemma PruneStage(sC: RegistryState, s3: RegistryState, b: Name)
    requires PrunedOut(sC, s3, b)
    ensures Trimmed(sC, s3) && TraceCovers(sC, s3, {}) && NewTrace(sC, s3) == []
    ensures NoGraph(sC) ==> NoGraph(s3)
    ensures (b !in sC.graph.dependentBeanMap && b !in sC.graph.containedBeanMap) ==> Detached(s3, b)
  {
    assert NewTrace(sC, s3) == [];
    if NoGraph(sC) {
      assert Pruned(map[], b) == map[];
    }
  }

  /** The position of `b`'s own destroy() call separates its dependents from what it contains. */
  lemma DestroyBeanOrder(s0: RegistryState, sA: RegistryState, s2: RegistryState,
                         sC: RegistryState, s3: RegistryState, b: Name,
                         dependencies: set<Name>, containedBeans: set<Name>)
    requires dependencies == Related(s0.graph.dependentBeanMap, b)
    requires DestroyedAll(s0, sA, dependencies)
    requires containedBeans == Related(sA.graph.containedBeanMap, b)
    requires s2.destroyTrace == sA.destroyTrace + [b]
    requires s2.destroyTrace <= sC.destroyTrace && s3.destroyTrace == sC.destroyTrace
    requires forall c :: c in containedBeans ==> Destroyed(sC, c)
    requires Elems(NewTrace(s2, sC)) == sA.disposableBeans.Keys - sC.disposableBeans.Keys
    ensures DestroyOrder(s0, s3, b)
  {
    var k: nat := |sA.destroyTrace|;
    var t := s3.destroyTrace;
    assert t[k] == s2.destroyTrace[k] == b;
    assert t[|s0.destroyTrace|..k] == NewTrace(s0, sA);
    assert t[k + 1..] == NewTrace(s2, sC);
    forall d | d in dependencies && d in s0.disposableBeans && d != b
      ensures d in t[|s0.destroyTrace|..k]
    {
      assert d in Elems(NewTrace(s0, sA));
    }
    forall c | c in Related(s0.graph.containedBeanMap, b) && c in s0.disposableBeans && c != b &&
               c !in t[|s0.destroyTrace|..k]
      ensures c in t[k + 1..]
    {
      assert c !in Elems(NewTrace(s0, sA));
      assert c in sA.disposableBeans;
      assert !Destroyed(sA, c);
      assert c in containedBeans;
      assert c in Elems(NewTrace(s2, sC));
    }
    assert OrderedAround(s0, s3, b, k);
  }

  /**
   * destroyBean's departures: the dependents' destruction (`sA`), the own
   * call and the containment set taken out (`s2`), the contained beans'
   * destruction (`sC`) and the pruning (`s3`) stay within the cascade of `b`.
   */
  lemma DestroyBeanCascade(s0: RegistryState, sA: RegistryState, s2: RegistryState, sC: RegistryState,
                           s3: RegistryState, b: Name, dependencies: set<Name>, containedBeans: set<Name>)
    requires dependencies == Related(s0.graph.dependentBeanMap, b)
    requires DestroyedAll(s0, sA, dependencies)
    requires Trimmed(sA, s2) && s2.caches == sA.caches && s2.disposableBeans == sA.disposableBeans
    requires containedBeans == Related(sA.graph.containedBeanMap, b)
    requires DestroyedAll(s2, sC, containedBeans)
    requires s3.caches == sC.caches && s3.disposableBeans == sC.disposableBeans
    ensures WithinCascade(s0.graph, s0, s3, {b})
  {
    NothingLeft(sA.graph, sA, s2, {});
    CascadeJoin(s0, sA, s2, dependencies, {b}, {});
    TrimmedTrans(s0, sA, s2);
    CascadeJoin(s0, s2, sC, {b}, {b}, containedBeans);
    forall S | {b} <= S && Closed(s0.graph, S)
      ensures LeftWithin(s0, s3, S)
    {
      assert LeftWithin(s0, sC, S);
    }
  }

  /** destroyBean's steps put together. */
  lemma DestroyBeanSummary(s0: RegistryState, s1: RegistryState, sA: RegistryState, sB: RegistryState,
                           s2: RegistryState, sC: RegistryState, s3: RegistryState, b: Name,
                           bean: Option<DisposableBean>, dependencies: set<Name>, containedBeans: set<Name>)
    requires dependencies == Related(s0.graph.dependentBeanMap, b)
    requires TookDependents(s0, s1, b)
    requires DestroyedAll(s1, sA, dependencies)
    requires dependencies == {} ==> sA == s1
    requires CalledDestroy(sA, sB, b, bean)
    requires containedBeans == Related(sB.graph.containedBeanMap, b)
    requires TookContained(sB, s2, b)
    requires DestroyedAll(s2, sC, containedBeans)
    requires containedBeans == {} ==> sC == s2
    requires PrunedOut(sC, s3, b)
    ensures DestroyBeanDone(s0, s3, b, bean)
  {
    DependentsStage(s0, s1, sA, b, dependencies);
    ContainedStageTrim(sA, sB, s2, sC, b, bean, containedBeans);
    ContainedStageTrace(sA, sB, s2, sC, b, bean, containedBeans);
    ContainedStageNoGraph(sA, sB, s2, sC, b, bean, containedBeans);
    PruneStage(sC, s3, b);
    DestroyBeanTrace(s0, sA, s2, sC, s3, b, bean);
    TrimmedTrans(sA, sC, s3);
    ContainedOwnGone(sA, s2, sC, s3, b, containedBeans);
    ContainedStageGone(s0, sA, s3, b);
    ShrinksKeeps(sA, s3);
    DestroyBeanCascade(s0, sA, s2, sC, s3, b, dependencies, containedBeans);
    if bean.Some? {
      DestroyBeanOrder(s0, sA, s2, sC, s3, b, dependencies, containedBeans);
    }
  }

  /** destroyBean's destroy() calls: the departing disposable beans, and its own bean, each once. */
  lemma DestroyBeanTrace(s0: RegistryState, sA: RegistryState, s2: RegistryState, sC: RegistryState,
                         s3: RegistryState, b: Name, bean: Option<DisposableBean>)
    requires sC.disposableBeans.Keys <= sA.disposableBeans.Keys <= s0.disposableBeans.Keys
    requires s0.destroyTrace <= sA.destroyTrace <= sC.destroyTrace
    requires TraceCovers(s0, sA, {}) && TraceOnce(s0, sA)
    requires TraceCovers(sA, sC, Elems(OwnCall(b, bean)))
    requires TraceOnce(s2, sC) && NewTrace(sA, sC) == OwnCall(b, bean) + NewTrace(s2, sC)
    requires Elems(NewTrace(s2, sC)) == sA.disposableBeans.Keys - sC.disposableBeans.Keys
    requires s3.destroyTrace == sC.destroyTrace && s3.disposableBeans == sC.disposableBeans
    ensures TraceCovers(s0, s3, Elems(OwnCall(b, bean)))
    ensures (bean.None? || b !in s0.disposableBeans) ==> TraceOnce(s0, s3)
  {
    if bean.None? || b !in s0.disposableBeans {
      OwnCallOnce(sA, s2, sC, b, bean);
    }
    TraceJoin(s0, sA, sC, {}, Elems(OwnCall(b, bean)));
    assert NewTrace(s0, s3) == NewTrace(s0, sC);
  }

  /** A bean that is not (or no longer) disposable is not destroyed again by the cascade after its own call. */
  lemma OwnCallOnce(sA: RegistryState, s2: RegistryState, sC: RegistryState, b: Name, bean: Option<DisposableBean>)
    requires bean.None? || b !in sA.disposableBeans
    requires |sA.destroyTrace| <= |sC.destroyTrace|
    requires TraceOnce(s2, sC) && NewTrace(sA, sC) == OwnCall(b, bean) + NewTrace(s2, sC)
    requires Elems(NewTrace(s2, sC)) <= sA.disposableBeans.Keys
    ensures TraceOnce(sA, sC)
  {
    NoDupConcat(OwnCall(b, bean), NewTrace(s2, sC));
  }

  // ---------------------------------------------------------------------
  // destroySingleton and destroySingletons
  // ---------------------------------------------------------------------

  /** What destroySingleton(b) promises about the state it leaves. */
  ghost predicate DestroySingletonDone(s0: RegistryState, s1: RegistryState, b: Name) {
    && Shrinks(s0, s1)
    && TraceCovers(s0, s1, {}) && TraceOnce(s0, s1)
    && Destroyed(s1, b) && Detached(s1, b)
    && DependentsDestroyed(s0, s1, b)
    && ContainedDestroyed(s0, s1, b)
    && (b in s0.disposableBeans ==> DestroyOrder(s0, s1, b))
    && WithinCascade(s0.graph, s0, s1, {b})
    && (NoGraph(s0) ==> NoGraph(s1) && s1.caches == SingletonCaches.RemoveSingleton(s0.caches, b) &&
                        s1.disposableBeans == s0.disposableBeans - {b} &&
                        s1.destroyTrace == s0.destroyTrace + (if b in s0.disposableBeans then [b] else []))
  }

  /** destroySingleton's own step: `b` leaves the caches and the disposable beans, nothing else changes. */
  ghost predicate RemovedFirst(s0: RegistryState, s1: RegistryState, b: Name) {
    && s1.graph == s0.graph && s1.destroyTrace == s0.destroyTrace
    && s1.tracker == s0.tracker && s1.inDestruction == s0.inDestruction
    && s1.disposableBeans == s0.disposableBeans - {b}
    && s1.caches == SingletonCaches.RemoveSingleton(s0.caches, b)
  }

  lemma RemovedFirstShrinks(s0: RegistryState, s1: RegistryState, s2: RegistryState, b: Name)
    requires RemovedFirst(s0, s1, b) && Shrinks(s1, s2)
    ensures Shrinks(s0, s2) && Destroyed(s2, b)
  {
    ShrinksKeeps(s1, s2);
  }

  /** `b` leaving first, then destroyBean within its cascade, stays within the cascade of `b`. */
  lemma RemovedFirstCascade(s0: RegistryState, s1: RegistryState, s2: RegistryState, b: Name)
    requires RemovedFirst(s0, s1, b) && WithinCascade(s1.graph, s1, s2, {b})
    ensures WithinCascade(s0.graph, s0, s2, {b})
  {
    forall S | {b} <= S && Closed(s0.graph, S)
      ensures LeftWithin(s0, s2, S)
    {
      assert LeftWithin(s0, s1, S);
      assert LeftWithin(s1, s2, S);
    }
  }

  lemma RemovedFirstTrace(s0: RegistryState, s1: RegistryState, s2: RegistryState, b: Name,
                          bean: Option<DisposableBean>)
    requires bean.Some? <==> b in s0.disposableBeans
    requires RemovedFirst(s0, s1, b) && Trimmed(s1, s2)
    requires TraceCovers(s1, s2, Elems(OwnCall(b, bean))) && (b !in s1.disposableBeans ==> TraceOnce(s1, s2))
    ensures TraceCovers(s0, s2, {}) && TraceOnce(s0, s2)
  {
    assert NewTrace(s0, s2) == NewTrace(s1, s2);
  }

  lemma RemovedFirstOrder(s0: RegistryState, s1: RegistryState, s2: RegistryState, b: Name)
    requires RemovedFirst(s0, s1, b) && DestroyOrder(s1, s2, b)
    ensures DestroyOrder(s0, s2, b)
  {
    var k: nat :| |s1.destroyTrace| <= k < |s2.destroyTrace| && s2.destroyTrace[k] == b &&
                  OrderedAround(s1, s2, b, k);
    assert OrderedAround(s0, s2, b, k);
  }

  /** removeSingleton and taking the disposable bean out, then destroyBean. */
  lemma DestroySingletonSummary(s0: RegistryState, s1: RegistryState, s2: RegistryState, b: Name,
                                bean: Option<DisposableBean>)
    requires bean == Get(s0.disposableBeans, b)
    requires RemovedFirst(s0, s1, b)
    requires DestroyBeanDone(s1, s2, b, bean)
    ensures DestroySingletonDone(s0, s2, b)
  {
    RemovedFirstShrinks(s0, s1, s2, b);
    RemovedFirstTrace(s0, s1, s2, b, bean);
    RemovedFirstCascade(s0, s1, s2, b);
    if b in s0.disposableBeans {
      RemovedFirstOrder(s0, s1, s2, b);
    }
  }

  /**
   * A bean outside the cascade of `b` (here: outside a set closed under the
   * graph that holds `b`) keeps its cache entries and its disposable bean.
   */
  lemma OutsideCascadeUntouched(s0: RegistryState, s1: RegistryState, b: Name, S: set<Name>, n: Name)
    requires DestroySingletonDone(s0, s1, b)
    requires b in S && Closed(s0.graph, S) && n !in S
    ensures Get(s1.caches.singletonObjects, n) == Get(s0.caches.singletonObjects, n)
    ensures Get(s1.caches.earlySingletonObjects, n) == Get(s0.caches.earlySingletonObjects, n)
    ensures Get(s1.caches.singletonFactories, n) == Get(s0.caches.singletonFactories, n)
    ensures Get(s1.disposableBeans, n) == Get(s0.disposableBeans, n)
  {
    assert LeftWithin(s0, s1, S);
  }

  /** destroySingletons' backward walk over the disposable names, one name further. */
  lemma BackwardStep(names: seq<Name>, i: nat)
    requires NoDup(names) && i < |names|
    ensures Reverse(names[i..]) == Reverse(names[i + 1..]) + [names[i]]
    ensures Elems(names[..i + 1]) - {names[i]} == Elems(names[..i])
    ensures names[i] in Elems(names[..i + 1])
  {
    assert names[i..][1..] == names[i + 1..];
    assert names[..i + 1] == names[..i] + [names[i]];
    assert names[i] !in names[..i];
  }

  /** One round of destroyBean's loops: `b`, still to do, is destroyed. */
  lemma EachStep(s0: RegistryState, prev: RegistryState, cur: RegistryState,
                 names: set<Name>, todo: set<Name>, b: Name)
    requires DestroyedAll(s0, prev, names - todo) && b in todo && todo <= names
    requires DestroySingletonDone(prev, cur, b)
    ensures DestroyedAll(s0, cur, names - (todo - {b}))
  {
    DestroyedAllStep(s0, prev, cur, names - todo, b);
    assert names - (todo - {b}) == (names - todo) + {b};
  }

  /** One round of destroySingletons' backward walk: `names[i]` destroyed after `names[i + 1..]`. */
  lemma ReverseStep(s0: RegistryState, prev: RegistryState, cur: RegistryState, names: seq<Name>, i: nat)
    requires i < |names|
    requires DestroyedAll(s0, prev, Elems(names[i + 1..]))
    requires DestroySingletonDone(prev, cur, names[i])
    ensures DestroyedAll(s0, cur, Elems(names[i..]))
  {
    DestroyedAllStep(s0, prev, cur, Elems(names[i + 1..]), names[i]);
    assert Elems(names[i..]) == Elems(names[i + 1..]) + {names[i]} by {
      assert names[i..] == [names[i]] + names[i + 1..];
    }
  }

  // ---------------------------------------------------------------------
  // The rounds of destroySingletons' backward walk
  // ---------------------------------------------------------------------

  /** The calls of the rounds, the last round's first. */
  function Backward(rounds: seq<seq<Name>>): seq<Name> {
    if rounds == [] then [] else Backward(rounds[1..]) + rounds[0]
  }

  /** Every destroy() call of `round` is for a bean in the cascade of `b` in `g`. */
  ghost predicate InCascade(g: Graph, b: Name, round: seq<Name>) {
    forall S :: b in S && Closed(g, S) ==> Elems(round) <= S
  }

  /**
   * The round of `names[k]` calls only beans in its cascade in `g`, and by
   * its end `names[k]` has had its call, in this round or in the round of a
   * later name.
   */
  ghost predicate RoundDone(g: Graph, names: seq<Name>, rounds: seq<seq<Name>>, k: int) {
    && 0 <= k < |names| && k < |rounds|
    && InCascade(g, names[k], rounds[k])
    && names[k] in Backward(rounds[k..])
  }

  /** `after` extends `before` by one round of destroy() calls per name, made from the last name to the first. */
  ghost predicate WalkedBack(g: Graph, before: seq<Name>, after: seq<Name>, names: seq<Name>, rounds: seq<seq<Name>>) {
    && |rounds| == |names|
    && after == before + Backward(rounds)
    && forall k :: 0 <= k < |names| ==> RoundDone(g, names, rounds, k)
  }

  /** destroySingletons' walk over `names`, last first, took `before` to `after`. */
  ghost predicate DestroyedInRounds(g: Graph, before: seq<Name>, after: seq<Name>, names: seq<Name>) {
    exists rounds :: WalkedBack(g, before, after, names, rounds)
  }

  /** The calls destroySingleton(b) made between `prev` and `cur` lie in the cascade of `b` at the walk's start. */
  lemma RoundCascade(s0: RegistryState, prev: RegistryState, cur: RegistryState, b: Name)
    requires Trimmed(s0, prev) && TraceCovers(prev, cur, {}) && WithinCascade(prev.graph, prev, cur, {b})
    ensures InCascade(s0.graph, b, NewTrace(prev, cur))
  {
    forall S | b in S && Closed(s0.graph, S)
      ensures Elems(NewTrace(prev, cur)) <= S
    {
      ClosedShrinks(s0.graph, prev.graph, S);
      assert LeftWithin(prev, cur, S);
    }
  }

  /** The rounds of the later names keep their meaning once the round of `names[i]` is put in front. */
  lemma RoundShift(g: Graph, names: seq<Name>, later: seq<Name>, rounds: seq<seq<Name>>, round: seq<Name>)
    requires names != [] && later == names[1..] && |rounds| == |later|
    requires forall k :: 0 <= k < |later| ==> RoundDone(g, later, rounds, k)
    requires RoundDone(g, names, [round] + rounds, 0)
    ensures forall k :: 0 <= k < |names| ==> RoundDone(g, names, [round] + rounds, k)
  {
    forall k | 1 <= k < |names|
      ensures RoundDone(g, names, [round] + rounds, k)
    {
      assert RoundDone(g, later, rounds, k - 1);
      assert names[k] == later[k - 1];
      assert ([round] + rounds)[k..] == rounds[k - 1..];
    }
  }

  /** The round of `names[i]` is the calls destroySingleton(names[i]) made between `prev` and `cur`. */
  lemma RoundStep(s0: RegistryState, prev: RegistryState, cur: RegistryState, names: seq<Name>, i: nat,
                  rounds: seq<seq<Name>>)
    requires i < |names| && names[i] in s0.disposableBeans
    requires WalkedBack(s0.graph, s0.destroyTrace, prev.destroyTrace, names[i + 1..], rounds)
    requires Trimmed(s0, prev) && Trimmed(prev, cur)
    requires TraceCovers(prev, cur, {}) && WithinCascade(prev.graph, prev, cur, {names[i]})
    requires TraceCovers(s0, cur, {}) && Destroyed(cur, names[i])
    ensures WalkedBack(s0.graph, s0.destroyTrace, cur.destroyTrace, names[i..], [NewTrace(prev, cur)] + rounds)
  {
    var round := NewTrace(prev, cur);
    var rounds' := [round] + rounds;
    assert rounds'[1..] == rounds;
    assert cur.destroyTrace == prev.destroyTrace + round;
    assert Backward(rounds') == Backward(rounds) + round;
    RoundCascade(s0, prev, cur, names[i]);
    assert NewTrace(s0, cur) == Backward(rounds');
    assert names[i] in Elems(NewTrace(s0, cur));
    assert names[i] in Backward(rounds'[0..]) by {
      assert rounds'[0..] == rounds';
    }
    assert names[i..][1..] == names[i + 1..];
    RoundShift(s0.graph, names[i..], names[i + 1..], rounds, round);
  }

  /** `x` is called in the rounds exactly when it is called in one of them. */
  lemma {:induction false} InBackward(rounds: seq<seq<Name>>, x: Name)
    ensures x in Backward(rounds) <==> exists j :: 0 <= j < |rounds| && x in rounds[j]
  {
    if rounds != [] {
      InBackward(rounds[1..], x);
      if x in Backward(rounds[1..]) {
        var j :| 0 <= j < |rounds[1..]| && x in rounds[1..][j];
        assert x in rounds[j + 1];
      }
      if exists j :: 0 <= j < |rounds| && x in rounds[j] {
        var j :| 0 <= j < |rounds| && x in rounds[j];
        if j > 0 {
          assert x in rounds[1..][j - 1];
        }
      }
    }
  }

  lemma NoDupParts(a: seq<Name>, b: seq<Name>)
    requires NoDup(a + b)
    ensures NoDup(a) && NoDup(b)
  {
    forall i, j | 0 <= i < j < |a|
      ensures a[i] != a[j]
    {
      assert a[i] == (a + b)[i] && a[j] == (a + b)[j];
    }
    forall i, j | 0 <= i < j < |b|
      ensures b[i] != b[j]
    {
      assert b[i] == (a + b)[|a| + i] && b[j] == (a + b)[|a| + j];
    }
  }

  /** No bean is called twice in the rounds, so none twice in any one round. */
  lemma {:induction false} NoDupRounds(rounds: seq<seq<Name>>)
    requires NoDup(Backward(rounds))
    ensures forall j :: 0 <= j < |rounds| ==> NoDup(rounds[j])
  {
    if rounds != [] {
      NoDupParts(Backward(rounds[1..]), rounds[0]);
      NoDupRounds(rounds[1..]);
      forall j | 1 <= j < |rounds|
        ensures NoDup(rounds[j])
      {
        assert rounds[j] == rounds[1..][j - 1];
      }
    }
  }

  /** One call per round, for the round's own name: the walk in reverse. */
  lemma {:induction false} BackwardSingles(names: seq<Name>, rounds: seq<seq<Name>>)
    requires |rounds| == |names|
    requires forall k :: 0 <= k < |names| ==> rounds[k] == [names[k]]
    ensures Backward(rounds) == Reverse(names)
  {
    if rounds != [] {
      BackwardSingles(names[1..], rounds[1..]);
    }
  }

  /** Without dependencies and containments, the round of `names[k]` is its one call. */
  lemma SingleRound(g: Graph, names: seq<Name>, rounds: seq<seq<Name>>, k: nat)
    requires g.dependentBeanMap == map[] && g.containedBeanMap == map[]
    requires NoDup(names) && |rounds| == |names| && k < |names|
    requires forall j :: 0 <= j < |names| ==> RoundDone(g, names, rounds, j)
    requires forall j :: 0 <= j < |rounds| ==> NoDup(rounds[j])
    ensures rounds[k] == [names[k]]
  {
    assert Closed(g, {names[k]});
    assert RoundDone(g, names, rounds, k);
    assert Elems(rounds[k]) <= {names[k]};
    InBackward(rounds[k..], names[k]);
    var j :| 0 <= j < |rounds[k..]| && names[k] in rounds[k..][j];
    assert Closed(g, {names[k + j]});
    assert RoundDone(g, names, rounds, k + j);
    assert names[k] in Elems(rounds[k + j]) && Elems(rounds[k + j]) <= {names[k + j]};
    assert j == 0;
    assert names[k] in Elems(rounds[k]);
    NoDupCard(rounds[k]);
    assert Elems(rounds[k]) == {names[k]};
    assert rounds[k][0] in Elems(rounds[k]);
  }

  /**
   * Without dependencies and containments each cascade is its own bean, so
   * a walk that calls no bean twice calls them in exactly the reverse of
   * `names`.
   */
  lemma RoundsWithoutGraph(g: Graph, before: seq<Name>, after: seq<Name>, names: seq<Name>)
    requires g.dependentBeanMap == map[] && g.containedBeanMap == map[]
    requires NoDup(names) && DestroyedInRounds(g, before, after, names)
    requires NoDup(after[|before|..])
    ensures after == before + Reverse(names)
  {
    var rounds :| WalkedBack(g, before, after, names, rounds);
    assert after[|before|..] == Backward(rounds);
    NoDupRounds(rounds);
    forall k | 0 <= k < |names|
      ensures rounds[k] == [names[k]]
    {
      SingleRound(g, names, rounds, k);
    }
    BackwardSingles(names, rounds);
  }

  /** Once every disposable bean of `s0` is destroyed, none is left and each destroy() ran exactly once. */
  lemma DestroyedEveryDisposable(s0: RegistryState, s1: RegistryState)
    requires DestroyedAll(s0, s1, s0.disposableBeans.Keys)
    ensures s1.disposableBeans == map[]
    ensures EachDestroyedOnce(s0.destroyTrace, s1.destroyTrace, s0.disposableBeans.Keys)
    ensures s1.tracker == s0.tracker
  {
    assert s1.disposableBeans.Keys == {};
  }
}
