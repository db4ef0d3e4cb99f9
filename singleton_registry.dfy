/**
 * DefaultSingletonBeanRegistry: the shared-instance registry of a bean
 * factory. One object owns the three cache tiers, the in-creation
 * bookkeeping, the disposable beans in registration order and the three
 * dependency maps; every public operation updates them in place.
 *
 * Source: spring-beans/.../support/DefaultSingletonBeanRegistry.java.
 * The class is modelled as one sequential object: its locks are left out.
 */
module SingletonRegistry {
  import opened Lang
  import opened Collections
  import opened CreationTracker
  import opened SingletonCaches
  import opened DependencyGraph
  import opened DestroyCascade

  /** Every map of the graph keeps only non-empty sets. */
  ghost predicate NonEmptySets(m: Relation) {
    forall k :: k in m ==> m[k] != {}
  }

  const EmptyCaches := Caches(map[], map[], map[], [])
  const EmptyGraph := Graph(map[], map[], map[])

  class DefaultSingletonBeanRegistry {
    /** Primary tier: bean name -> finished singleton. */
    var singletonObjects: map<Name, Instance>
    /** Factory tier: bean name -> factory for an early reference. */
    var singletonFactories: map<Name, ObjectFactory>
    /** Early tier: bean name -> early reference already handed out. */
    var earlySingletonObjects: map<Name, Instance>
    /** The cached names in registration order. */
    var registeredSingletons: seq<Name>
    var singletonsCurrentlyInCreation: set<Name>
    var inCreationCheckExclusions: set<Name>
    var singletonsCurrentlyInDestruction: bool
    /** Disposable beans by name; `disposableBeanOrder` is the map's insertion order. */
    var disposableBeans: map<Name, DisposableBean>
    var disposableBeanOrder: seq<Name>
    var containedBeanMap: Relation
    var dependentBeanMap: Relation
    var dependenciesForBeanMap: Relation
    /** The names whose DisposableBean.destroy() was called, in call order, whether it threw or not. */
    ghost var destroyTrace: seq<Name>

    ghost function CacheView(): Caches
      reads this`singletonObjects, this`earlySingletonObjects, this`singletonFactories, this`registeredSingletons
    {
      Caches(singletonObjects, earlySingletonObjects, singletonFactories, registeredSingletons)
    }

    ghost function TrackerView(): Tracker
      reads this`singletonsCurrentlyInCreation, this`inCreationCheckExclusions
    {
      Tracker(singletonsCurrentlyInCreation, inCreationCheckExclusions)
    }

    ghost function GraphView(): Graph
      reads this`containedBeanMap, this`dependentBeanMap, this`dependenciesForBeanMap
    {
      Graph(containedBeanMap, dependentBeanMap, dependenciesForBeanMap)
    }

    ghost function State(): RegistryState
      reads this
    {
      RegistryState(CacheView(), TrackerView(), singletonsCurrentlyInDestruction,
                    disposableBeans, disposableBeanOrder, GraphView(), destroyTrace)
    }

    ghost predicate Valid()
      reads this`singletonObjects, this`earlySingletonObjects, this`singletonFactories, this`registeredSingletons
      reads this`disposableBeans, this`disposableBeanOrder
      reads this`containedBeanMap, this`dependentBeanMap, this`dependenciesForBeanMap
    {
      CachesValid() && DisposablesValid() && GraphValid()
    }

    /** The three tiers are exclusive and every cached name is registered once. */
    ghost predicate CachesValid()
      reads this`singletonObjects, this`earlySingletonObjects, this`singletonFactories, this`registeredSingletons
    {
      TiersValid(CacheView())
    }

    /** `disposableBeanOrder` lists each disposable bean name once. */
    ghost predicate DisposablesValid()
      reads this`disposableBeans, this`disposableBeanOrder
    {
      NoDup(disposableBeanOrder) && Elems(disposableBeanOrder) == disposableBeans.Keys
    }

    /** A name with no related beans has no entry. */
    ghost predicate GraphValid()
      reads this`containedBeanMap, this`dependentBeanMap, this`dependenciesForBeanMap
    {
      NonEmptySets(containedBeanMap) && NonEmptySets(dependentBeanMap) && NonEmptySets(dependenciesForBeanMap)
    }

    constructor ()
      ensures Valid()
      ensures State() == RegistryState(EmptyCaches, Tracker({}, {}), false, map[], [], EmptyGraph, [])
    {
      singletonObjects, singletonFactories, earlySingletonObjects := map[], map[], map[];
      registeredSingletons := [];
      singletonsCurrentlyInCreation, inCreationCheckExclusions := {}, {};
      singletonsCurrentlyInDestruction := false;
      disposableBeans, disposableBeanOrder := map[], [];
      containedBeanMap, dependentBeanMap, dependenciesForBeanMap := map[], map[], map[];
      destroyTrace := [];
    }

    // -------------------------------------------------------------------
    // Cache tiers
    // -------------------------------------------------------------------

    /** registerSingleton: binds a finished instance, refusing a name that is already bound. */
    method RegisterSingleton(beanName: Name, singletonObject: Instance) returns (outcome: Outcome)
      requires Valid()
      modifies this`singletonObjects, this`singletonFactories, this`earlySingletonObjects, this`registeredSingletons
      ensures Valid()
      ensures old(beanName in singletonObjects) ==>
        outcome == Fail(IllegalStateException) && CacheView() == old(CacheView())
      ensures old(beanName !in singletonObjects) ==>
        outcome == Pass && CacheView() == SingletonCaches.AddSingleton(old(CacheView()), beanName, singletonObject)
    {
      if beanName in singletonObjects {
        return Fail(IllegalStateException);
      }
      AddSingleton(beanName, singletonObject);
      outcome := Pass;
    }

    /** addSingleton */
    method AddSingleton(beanName: Name, singletonObject: Instance)
      requires Valid()
      modifies this`singletonObjects, this`singletonFactories, this`earlySingletonObjects, this`registeredSingletons
      ensures Valid()
      ensures CacheView() == SingletonCaches.AddSingleton(old(CacheView()), beanName, singletonObject)
    {
      AddSingletonPlacesInPrimary(CacheView(), beanName, singletonObject);
      singletonObjects := singletonObjects[beanName := singletonObject];
      singletonFactories := singletonFactories - {beanName};
      earlySingletonObjects := earlySingletonObjects - {beanName};
      registeredSingletons := AddLast(registeredSingletons, beanName);
    }

    /** addSingletonFactory */
    method AddSingletonFactory(beanName: Name, singletonFactory: ObjectFactory)
      requires Valid()
      modifies this`singletonObjects, this`singletonFactories, this`earlySingletonObjects, this`registeredSingletons
      ensures Valid()
      ensures CacheView() == SingletonCaches.AddSingletonFactory(old(CacheView()), beanName, singletonFactory)
    {
      AddSingletonFactoryInstalls(CacheView(), beanName, singletonFactory);
      if beanName !in singletonObjects {
        singletonFactories := singletonFactories[beanName := singletonFactory];
        earlySingletonObjects := earlySingletonObjects - {beanName};
        registeredSingletons := AddLast(registeredSingletons, beanName);
      }
    }

    /** getSingleton(beanName): a lookup that allows early references. */
    method GetSingleton(beanName: Name) returns (r: Result<Option<Instance>>)
      requires Valid()
      modifies this`singletonObjects, this`singletonFactories, this`earlySingletonObjects, this`registeredSingletons
      ensures Valid()
      ensures (r, CacheView()) ==
        SingletonCaches.GetSingleton(old(CacheView()), beanName in singletonsCurrentlyInCreation, beanName, true)
    {
      r := GetSingletonReference(beanName, true);
    }

    /** getSingleton(beanName, allowEarlyReference) */
    method GetSingletonReference(beanName: Name, allowEarlyReference: bool) returns (r: Result<Option<Instance>>)
      requires Valid()
      modifies this`singletonObjects, this`singletonFactories, this`earlySingletonObjects, this`registeredSingletons
      ensures Valid()
      ensures (r, CacheView()) ==
        SingletonCaches.GetSingleton(old(CacheView()), beanName in singletonsCurrentlyInCreation, beanName, allowEarlyReference)
    {
      GetSingletonOnlyPromotes(CacheView(), beanName in singletonsCurrentlyInCreation, beanName, allowEarlyReference);
      var singletonObject := Get(singletonObjects, beanName);
      if singletonObject.None? && IsSingletonCurrentlyInCreation(beanName) {
        singletonObject := Get(earlySingletonObjects, beanName);
        if singletonObject.None? && allowEarlyReference && beanName in singletonFactories {
          match singletonFactories[beanName]
          case Throws(e) =>
            return Err(e);
          case Returns(v) =>
            singletonObject := Some(v);
            earlySingletonObjects := earlySingletonObjects[beanName := v];
            singletonFactories := singletonFactories - {beanName};
        }
      }
      r := Ok(singletonObject);
    }

    /**
     * getSingleton(beanName, singletonFactory). The factory's `getObject()`
     * is given by its outcome; `registeredMeanwhile` is the instance that
     * the callback itself bound under `beanName`, if any.
     */
    method GetSingletonOrCreate(beanName: Name, singletonFactory: ObjectFactory, registeredMeanwhile: Option<Instance>)
      returns (r: Result<Instance>)
      requires Valid()
      modifies this`singletonObjects, this`singletonFactories, this`earlySingletonObjects, this`registeredSingletons
      modifies this`singletonsCurrentlyInCreation
      ensures Valid()
      ensures (r, CacheView()) == GetOrCreate(old(CacheView()), old(TrackerView()), old(singletonsCurrentlyInDestruction),
                                              beanName, singletonFactory, registeredMeanwhile)
      ensures TrackerView() == old(TrackerView())
    {
      if beanName in singletonObjects {
        return Ok(singletonObjects[beanName]);
      }
      if singletonsCurrentlyInDestruction {
        return Err(BeanCreationNotAllowedException(beanName));
      }
      ghost var t0 := TrackerView();
      var before := BeforeSingletonCreation(beanName);
      if before.Fail? {
        return Err(before.error);
      }
      CreationBracketRoundTrip(t0, beanName);
      var newSingleton := false;
      // singletonFactory.getObject(), including what it registered re-entrantly
      if registeredMeanwhile.Some? {
        AddSingleton(beanName, registeredMeanwhile.value);
      }
      assert CacheView() == AfterCallback(old(CacheView()), beanName, registeredMeanwhile);
      var singletonObject: Result<Instance>;
      match singletonFactory {
        case Returns(v) =>
          singletonObject := Ok(v);
          newSingleton := true;
        case Throws(e) =>
          if e == IllegalStateException && beanName in singletonObjects {
            singletonObject := Ok(singletonObjects[beanName]);
          } else {
            singletonObject := Err(e);
          }
      }
      // finally
      var after := AfterSingletonCreation(beanName);
      // the bracket opened above closes without an IllegalStateException
      assert after == Pass;
      if newSingleton {
        AddSingleton(beanName, singletonObject.value);
      }
      r := singletonObject;
    }

    /** removeSingleton */
    method RemoveSingleton(beanName: Name)
      requires Valid()
      modifies this`singletonObjects, this`singletonFactories, this`earlySingletonObjects, this`registeredSingletons
      ensures Valid()
      ensures CacheView() == SingletonCaches.RemoveSingleton(old(CacheView()), beanName)
    {
      RemoveSingletonForgets(CacheView(), beanName);
      singletonObjects := singletonObjects - {beanName};
      singletonFactories := singletonFactories - {beanName};
      earlySingletonObjects := earlySingletonObjects - {beanName};
      registeredSingletons := Without(registeredSingletons, beanName);
    }

    /** containsSingleton: a finished singleton is in no other tier and is registered. */
    function ContainsSingleton(beanName: Name): (r: bool)
      requires Valid()
      reads this
      ensures r <==> beanName in singletonObjects
      ensures r ==> beanName !in earlySingletonObjects && beanName !in singletonFactories
      ensures r ==> beanName in registeredSingletons
    {
      beanName in singletonObjects
    }

    /** getSingletonNames: each cached name once, in registration order. */
    function GetSingletonNames(): (r: seq<Name>)
      requires Valid()
      reads this
      ensures NoDup(r) && Elems(r) == Cached(CacheView())
      ensures r == CacheView().registeredSingletons
    {
      registeredSingletons
    }

    /** getSingletonCount: the number of distinct cached names. */
    function GetSingletonCount(): (r: nat)
      requires Valid()
      reads this
      ensures r == |Cached(CacheView())|
    {
      SingletonCountIsCachedNames(CacheView());
      |registeredSingletons|
    }

    // -------------------------------------------------------------------
    // Creation tracker
    // -------------------------------------------------------------------

    /** setCurrentlyInCreation */
    method SetCurrentlyInCreation(beanName: Name, inCreation: bool)
      modifies this`inCreationCheckExclusions
      ensures TrackerView() == CreationTracker.SetCurrentlyInCreation(old(TrackerView()), beanName, inCreation)
    {
      if !inCreation {
        inCreationCheckExclusions := inCreationCheckExclusions + {beanName};
      } else {
        inCreationCheckExclusions := inCreationCheckExclusions - {beanName};
      }
    }

    /** isCurrentlyInCreation */
    function IsCurrentlyInCreation(beanName: Name): (r: bool)
      reads this
      ensures r <==> CreationTracker.IsCurrentlyInCreation(TrackerView(), beanName)
    {
      beanName !in inCreationCheckExclusions && IsActuallyInCreation(beanName)
    }

    /** isActuallyInCreation */
    function IsActuallyInCreation(beanName: Name): (r: bool)
      reads this
      ensures r <==> beanName in singletonsCurrentlyInCreation
    {
      IsSingletonCurrentlyInCreation(beanName)
    }

    /** isSingletonCurrentlyInCreation: ignores the exclusions. */
    function IsSingletonCurrentlyInCreation(beanName: Name): (r: bool)
      reads this
      ensures r <==> beanName in singletonsCurrentlyInCreation
    {
      beanName in singletonsCurrentlyInCreation
    }

    /** beforeSingletonCreation */
    method BeforeSingletonCreation(beanName: Name) returns (outcome: Outcome)
      modifies this`singletonsCurrentlyInCreation
      ensures match CreationTracker.BeforeSingletonCreation(old(TrackerView()), beanName)
        case Ok(t) => outcome == Pass && TrackerView() == t
        case Err(e) => outcome == Fail(e) && TrackerView() == old(TrackerView())
    {
      if beanName !in inCreationCheckExclusions {
        if beanName in singletonsCurrentlyInCreation {
          return Fail(BeanCurrentlyInCreationException(beanName));
        }
        singletonsCurrentlyInCreation := singletonsCurrentlyInCreation + {beanName};
      }
      outcome := Pass;
    }

    /** afterSingletonCreation */
    method AfterSingletonCreation(beanName: Name) returns (outcome: Outcome)
      modifies this`singletonsCurrentlyInCreation
      ensures match CreationTracker.AfterSingletonCreation(old(TrackerView()), beanName)
        case Ok(t) => outcome == Pass && TrackerView() == t
        case Err(e) => outcome == Fail(e) && TrackerView() == old(TrackerView())
    {
      if beanName !in inCreationCheckExclusions {
        if beanName !in singletonsCurrentlyInCreation {
          return Fail(IllegalStateException);
        }
        singletonsCurrentlyInCreation := singletonsCurrentlyInCreation - {beanName};
      }
      outcome := Pass;
    }

    // -------------------------------------------------------------------
    // Disposable beans and the dependency graph
    // -------------------------------------------------------------------

    /** registerDisposableBean: a new name goes last; a known name keeps its place. */
    method RegisterDisposableBean(beanName: Name, bean: DisposableBean)
      requires Valid()
      modifies this
      ensures Valid()
      ensures State() == old(State()).(disposableBeans := old(disposableBeans)[beanName := bean],
                                       disposableBeanOrder := AddLast(old(disposableBeanOrder), beanName))
    {
      disposableBeans := disposableBeans[beanName := bean];
      disposableBeanOrder := AddLast(disposableBeanOrder, beanName);
    }

    /** registerContainedBean */
    method RegisterContainedBean(containedBeanName: Name, containingBeanName: Name)
      requires Valid()
      modifies this
      ensures Valid()
      ensures State() == old(State()).(graph := RegisterContained(old(GraphView()), containedBeanName, containingBeanName))
    {
      var containedBeans := Related(containedBeanMap, containingBeanName);
      if containedBeanName in containedBeans {
        return;
      }
      containedBeanMap := containedBeanMap[containingBeanName := containedBeans + {containedBeanName}];
      RegisterDependentBean(containedBeanName, containingBeanName);
    }

    /** registerDependentBean */
    method RegisterDependentBean(beanName: Name, dependentBeanName: Name)
      requires Valid()
      modifies this
      ensures Valid()
      ensures State() == old(State()).(graph := RegisterDependent(old(GraphView()), beanName, dependentBeanName))
    {
      var canonicalName := beanName;
      var dependentBeans := Related(dependentBeanMap, canonicalName);
      if dependentBeanName in dependentBeans {
        return;
      }
      dependentBeanMap := dependentBeanMap[canonicalName := dependentBeans + {dependentBeanName}];
      var dependenciesForBean := Related(dependenciesForBeanMap, dependentBeanName);
      dependenciesForBeanMap := dependenciesForBeanMap[dependentBeanName := dependenciesForBean + {canonicalName}];
    }

    /**
     * isDependent(beanName, dependentBeanName): whether `dependentBeanName`
     * depends on `beanName` directly or through other beans. The search
     * terminates on cyclic graphs.
     */
    method IsDependent(beanName: Name, dependentBeanName: Name) returns (r: bool)
      ensures r == Reachable(dependentBeanMap, beanName, dependentBeanName)
    {
      var seen;
      r, seen := IsDependentSearch(beanName, dependentBeanName, {});
      if !r {
        ExploredUnreachable(dependentBeanMap, beanName, dependentBeanName, seen);
      }
    }

    /**
     * The private recursive isDependent. `alreadySeen` is the set the
     * recursive calls share (Java passes one mutable set down the calls;
     * here it goes in and comes back out as `seen`); `null` is the empty set.
     * A true answer is a path; a false answer leaves every newly seen name
     * explored.
     */
    method IsDependentSearch(beanName: Name, dependentBeanName: Name, alreadySeen: set<Name>)
      returns (r: bool, seen: set<Name>)
      ensures alreadySeen <= seen
      ensures r ==> Reachable(dependentBeanMap, beanName, dependentBeanName)
      ensures !r ==> beanName in seen || Leaf(dependentBeanMap, beanName)
      ensures !r ==> forall z :: z in seen - alreadySeen ==> Explored(dependentBeanMap, dependentBeanName, z, seen)
      decreases |dependentBeanMap.Keys - alreadySeen|
    {
      seen := alreadySeen;
      if beanName in alreadySeen {
        return false, seen;
      }
      var canonicalName := beanName;
      if canonicalName !in dependentBeanMap {
        return false, seen;
      }
      var dependentBeans := dependentBeanMap[canonicalName];
      if dependentBeanName in dependentBeans {
        DirectEdgeReachable(dependentBeanMap, beanName, dependentBeanName);
        return true, seen;
      }
      var todo := dependentBeans;
      while todo != {}
        invariant todo <= dependentBeans
        invariant alreadySeen <= seen
        invariant todo != dependentBeans ==> beanName in seen
        invariant forall y :: y in dependentBeans - todo ==> y in seen || Leaf(dependentBeanMap, y)
        invariant forall z :: z in seen - alreadySeen - {beanName} ==> Explored(dependentBeanMap, dependentBeanName, z, seen)
        decreases todo
      {
        var transitiveDependency :| transitiveDependency in todo;
        ghost var prev := seen;
        todo := todo - {transitiveDependency};
        seen := seen + {beanName};
        StrictSubsetCard(dependentBeanMap.Keys - seen, dependentBeanMap.Keys - alreadySeen, beanName);
        var found;
        found, seen := IsDependentSearch(transitiveDependency, dependentBeanName, seen);
        if found {
          ReachableStep(dependentBeanMap, beanName, transitiveDependency, dependentBeanName);
          return true, seen;
        }
        ExploredGrows(dependentBeanMap, dependentBeanName, prev, seen);
        forall z | z in seen - alreadySeen - {beanName}
          ensures Explored(dependentBeanMap, dependentBeanName, z, seen)
        {
          if z in prev {
            assert Explored(dependentBeanMap, dependentBeanName, z, prev);
          }
        }
      }
      assert Explored(dependentBeanMap, dependentBeanName, beanName, seen);
      r := false;
    }

    /** hasDependentBean: some bean depends on `beanName`. */
    function HasDependentBean(beanName: Name): (r: bool)
      requires Valid()
      reads this
      ensures r <==> Related(dependentBeanMap, beanName) != {}
    {
      beanName in dependentBeanMap
    }

    /** getDependentBeans: the beans that depend on `beanName` directly (empty if none). */
    function GetDependentBeans(beanName: Name): (r: set<Name>)
      reads this
      ensures forall d :: d in r ==> Reachable(dependentBeanMap, beanName, d)
      ensures r == Related(dependentBeanMap, beanName)
    {
      var dependentBeans := Related(dependentBeanMap, beanName);
      DirectEdgesReachable(dependentBeanMap, beanName);
      dependentBeans
    }

    /** getDependenciesForBean: the beans `beanName` depends on directly (empty if none). */
    function GetDependenciesForBean(beanName: Name): (r: set<Name>)
      reads this
      ensures r == Related(dependenciesForBeanMap, beanName)
    {
      Related(dependenciesForBeanMap, beanName)
    }

    // -------------------------------------------------------------------
    // Destruction
    // -------------------------------------------------------------------

    /**
     * destroySingletons: destroys every disposable bean, last registered
     * first, with the in-destruction flag raised, then empties the graph and
     * the caches. Each disposable bean is destroyed exactly once; when no
     * dependencies or containments are registered the order is exactly the
     * reverse of registration.
     */
    method DestroySingletons()
      requires Valid()
      modifies this
      ensures Valid()
      ensures CacheView() == EmptyCaches && GraphView() == EmptyGraph
      ensures disposableBeans == map[] && disposableBeanOrder == []
      ensures TrackerView() == old(TrackerView()) && !singletonsCurrentlyInDestruction
      ensures EachDestroyedOnce(old(destroyTrace), destroyTrace, old(disposableBeans).Keys)
      ensures DestroyedInRounds(old(GraphView()), old(destroyTrace), destroyTrace, old(disposableBeanOrder))
      ensures old(dependentBeanMap) == map[] && old(containedBeanMap) == map[] ==>
        destroyTrace == old(destroyTrace) + Reverse(old(disposableBeanOrder))
    {
      singletonsCurrentlyInDestruction := true;
      var disposableBeanNames := disposableBeanOrder;
      DestroyInReverseOrder(disposableBeanNames);
      ClearDependencyMaps();
      ClearSingletonCache();
    }

    /** destroySingletons' clearing of the containment, dependent and dependency maps. */
    method ClearDependencyMaps()
      modifies this`containedBeanMap, this`dependentBeanMap, this`dependenciesForBeanMap
      ensures GraphValid() && GraphView() == EmptyGraph
    {
      containedBeanMap := map[];
      dependentBeanMap := map[];
      dependenciesForBeanMap := map[];
    }

    /** destroySingletons' loop: destroySingleton for every disposable bean name, last registered first. */
    method DestroyInReverseOrder(disposableBeanNames: seq<Name>)
      requires Valid() && disposableBeanNames == disposableBeanOrder
      modifies this`singletonObjects, this`singletonFactories, this`earlySingletonObjects, this`registeredSingletons
      modifies this`disposableBeans, this`disposableBeanOrder, this`destroyTrace
      modifies this`containedBeanMap, this`dependentBeanMap, this`dependenciesForBeanMap
      ensures disposableBeans == map[] && disposableBeanOrder == []
      ensures TrackerView() == old(TrackerView())
      ensures singletonsCurrentlyInDestruction == old(singletonsCurrentlyInDestruction)
      ensures EachDestroyedOnce(old(destroyTrace), destroyTrace, old(disposableBeans).Keys)
      ensures DestroyedInRounds(old(GraphView()), old(destroyTrace), destroyTrace, disposableBeanNames)
      ensures old(dependentBeanMap) == map[] && old(containedBeanMap) == map[] ==>
        destroyTrace == old(destroyTrace) + Reverse(disposableBeanNames)
    {
      ghost var s0 := State();
      NoStep(s0);
      ghost var rounds: seq<seq<Name>> := [];
      var i := |disposableBeanNames|;
      while i > 0
        invariant 0 <= i <= |disposableBeanNames|
        invariant Valid()
        invariant DestroyedAll(s0, State(), Elems(disposableBeanNames[i..]))
        invariant WalkedBack(s0.graph, s0.destroyTrace, destroyTrace, disposableBeanNames[i..], rounds)
        decreases i
      {
        i := i - 1;
        ghost var prev := State();
        DestroySingleton(disposableBeanNames[i]);
        ReverseStep(s0, prev, State(), disposableBeanNames, i);
        RoundStep(s0, prev, State(), disposableBeanNames, i, rounds);
        rounds := [NewTrace(prev, State())] + rounds;
      }
      assert disposableBeanNames[0..] == disposableBeanNames;
      DestroyedEveryDisposable(s0, State());
      NoDupCard(disposableBeanOrder);
      if NoGraph(s0) {
        RoundsWithoutGraph(s0.graph, s0.destroyTrace, destroyTrace, disposableBeanNames);
      }
    }

    /** clearSingletonCache: empties the cache tiers and lowers the in-destruction flag. */
    method ClearSingletonCache()
      modifies this`singletonObjects, this`singletonFactories, this`earlySingletonObjects, this`registeredSingletons
      modifies this`singletonsCurrentlyInDestruction
      ensures CachesValid()
      ensures CacheView() == EmptyCaches && !singletonsCurrentlyInDestruction
    {
      singletonObjects := map[];
      singletonFactories := map[];
      earlySingletonObjects := map[];
      registeredSingletons := [];
      singletonsCurrentlyInDestruction := false;
    }

    /**
     * destroySingleton: forgets the cached singleton, takes its disposable
     * bean out of the registry and destroys it, together with every bean
     * that depends on it and every bean it contains (DestroySingletonDone).
     */
    method DestroySingleton(beanName: Name)
      requires Valid()
      modifies this`singletonObjects, this`singletonFactories, this`earlySingletonObjects, this`registeredSingletons
      modifies this`disposableBeans, this`disposableBeanOrder, this`destroyTrace
      modifies this`containedBeanMap, this`dependentBeanMap, this`dependenciesForBeanMap
      decreases |dependentBeanMap| + |containedBeanMap|, 2
      ensures Valid()
      ensures DestroySingletonDone(old(State()), State(), beanName)
    {
      ghost var s0 := State();
      var disposableBean := RemoveSingletonAndDisposable(beanName);
      ghost var s1 := State();
      DestroyBean(beanName, disposableBean);
      DestroySingletonSummary(s0, s1, State(), beanName, disposableBean);
    }

    /**
     * destroySingleton's first step: the cached singleton is forgotten and
     * the disposable bean registered under `beanName`, if any, is taken out.
     */
    method RemoveSingletonAndDisposable(beanName: Name) returns (disposableBean: Option<DisposableBean>)
      requires Valid()
      modifies this`singletonObjects, this`singletonFactories, this`earlySingletonObjects, this`registeredSingletons
      modifies this`disposableBeans, this`disposableBeanOrder
      ensures Valid()
      ensures disposableBean == Get(old(disposableBeans), beanName)
      ensures RemovedFirst(old(State()), State(), beanName)
    {
      ghost var s0 := State();
      RemoveSingleton(beanName);
      disposableBean := Get(disposableBeans, beanName);
      disposableBeans := disposableBeans - {beanName};
      disposableBeanOrder := Without(disposableBeanOrder, beanName);
      assert State() == s0.(caches := CacheView(), disposableBeans := disposableBeans,
                            disposableBeanOrder := disposableBeanOrder);
    }

    /**
     * destroyBean: destroys the beans that depend on `beanName`, then
     * `bean` itself (a failing destroy() is logged and ignored), then the
     * beans it contains, and finally detaches `beanName` from the graph
     * (DestroyBeanDone).
     */
    method DestroyBean(beanName: Name, bean: Option<DisposableBean>)
      requires Valid()
      modifies this`singletonObjects, this`singletonFactories, this`earlySingletonObjects, this`registeredSingletons
      modifies this`disposableBeans, this`disposableBeanOrder, this`destroyTrace
      modifies this`containedBeanMap, this`dependentBeanMap, this`dependenciesForBeanMap
      decreases |dependentBeanMap| + |containedBeanMap|, 1
      ensures Valid()
      ensures DestroyBeanDone(old(State()), State(), beanName, bean)
    {
      ghost var s0 := State();
      // Destroy every bean that depends on beanName.
      var dependencies, s1 := DestroyDependentBeans(beanName);
      ghost var sA := State();
      // beanName's own destroy() call, when it has a disposable bean.
      CallDestroy(beanName, bean);
      ghost var sB := State();
      // Destroy every bean that beanName contains.
      var containedBeans, s2 := DestroyContainedBeans(beanName);
      ghost var sC := State();
      RemoveDestroyedBean(beanName);
      DestroyBeanSummary(s0, s1, sA, sB, s2, sC, State(), beanName, bean, dependencies, containedBeans);
    }

    /** destroyBean's first step: take the set of beans depending on `beanName` out and destroy each. */
    method DestroyDependentBeans(beanName: Name) returns (dependencies: set<Name>, ghost s1: RegistryState)
      requires Valid()
      modifies this`singletonObjects, this`singletonFactories, this`earlySingletonObjects, this`registeredSingletons
      modifies this`disposableBeans, this`disposableBeanOrder, this`destroyTrace
      modifies this`containedBeanMap, this`dependentBeanMap, this`dependenciesForBeanMap
      decreases |dependentBeanMap| + |containedBeanMap|, 0
      ensures Valid()
      ensures dependencies == Related(old(dependentBeanMap), beanName)
      ensures TookDependents(old(State()), s1, beanName)
      ensures DestroyedAll(s1, State(), dependencies)
      ensures dependencies == {} ==> State() == s1
      ensures |dependentBeanMap| + |containedBeanMap| <= old(|dependentBeanMap| + |containedBeanMap|)
    {
      ghost var s0 := State();
      dependencies := Related(dependentBeanMap, beanName);
      dependentBeanMap := dependentBeanMap - {beanName};
      s1 := State();
      if dependencies != {} {
        MapRemoveCard(s0.graph.dependentBeanMap, beanName);
        DestroyEach(dependencies);
        ShrinksSize(s1, State());
      } else {
        NoStep(s1);
      }
    }

    /**
     * destroyBean's second step: DisposableBean.destroy() on `bean`, if there
     * is one. Its effect on the bean is outside the registry; the call is
     * recorded in `destroyTrace`, and an exception it throws is logged and
     * swallowed.
     */
    method CallDestroy(beanName: Name, bean: Option<DisposableBean>)
      modifies this`destroyTrace
      ensures CalledDestroy(old(State()), State(), beanName, bean)
    {
      if bean.Some? {
        destroyTrace := destroyTrace + [beanName];
      }
    }

    /** destroyBean's third step: take the set of beans contained in `beanName` out and destroy each. */
    method DestroyContainedBeans(beanName: Name) returns (containedBeans: set<Name>, ghost s2: RegistryState)
      requires Valid()
      modifies this`singletonObjects, this`singletonFactories, this`earlySingletonObjects, this`registeredSingletons
      modifies this`disposableBeans, this`disposableBeanOrder, this`destroyTrace
      modifies this`containedBeanMap, this`dependentBeanMap, this`dependenciesForBeanMap
      decreases |dependentBeanMap| + |containedBeanMap|, 0
      ensures Valid()
      ensures containedBeans == Related(old(containedBeanMap), beanName)
      ensures TookContained(old(State()), s2, beanName)
      ensures DestroyedAll(s2, State(), containedBeans)
      ensures containedBeans == {} ==> State() == s2
    {
      ghost var s0 := State();
      containedBeans := Related(containedBeanMap, beanName);
      containedBeanMap := containedBeanMap - {beanName};
      s2 := State();
      if containedBeans != {} {
        MapRemoveCard(s0.graph.containedBeanMap, beanName);
        DestroyEach(containedBeans);
      } else {
        NoStep(s2);
      }
    }

    /** destroyBean's last step: `beanName` leaves every dependent set and its own dependency set goes. */
    method RemoveDestroyedBean(beanName: Name)
      requires Valid()
      modifies this`dependentBeanMap, this`dependenciesForBeanMap
      ensures Valid()
      ensures PrunedOut(old(State()), State(), beanName)
    {
      // Drop beanName from the dependent sets that remain.
      RemoveFromDependents(beanName);
      // Drop beanName's own dependency set.
      dependenciesForBeanMap := dependenciesForBeanMap - {beanName};
    }

    /** destroyBean's loops: destroySingleton for each name in the (detached) set. */
    method DestroyEach(beanNames: set<Name>)
      requires Valid()
      modifies this`singletonObjects, this`singletonFactories, this`earlySingletonObjects, this`registeredSingletons
      modifies this`disposableBeans, this`disposableBeanOrder, this`destroyTrace
      modifies this`containedBeanMap, this`dependentBeanMap, this`dependenciesForBeanMap
      decreases |dependentBeanMap| + |containedBeanMap|, 3
      ensures Valid()
      ensures DestroyedAll(old(State()), State(), beanNames)
    {
      ghost var s0 := State();
      NoStep(s0);
      var todo := beanNames;
      while todo != {}
        invariant todo <= beanNames
        invariant Valid()
        invariant DestroyedAll(s0, State(), beanNames - todo)
        decreases todo
      {
        var beanName :| beanName in todo;
        ghost var prev := State();
        ShrinksSize(s0, prev);
        DestroySingleton(beanName);
        EachStep(s0, prev, State(), beanNames, todo, beanName);
        todo := todo - {beanName};
      }
    }

    /** The pruning loop of destroyBean: `beanName` leaves every set of dependent beans. */
    method RemoveFromDependents(beanName: Name)
      modifies this`dependentBeanMap
      ensures dependentBeanMap == Pruned(old(dependentBeanMap), beanName)
    {
      ghost var m0 := dependentBeanMap;
      var todo := dependentBeanMap.Keys;
      assert PartlyPruned(m0, beanName, todo) == m0;
      while todo != {}
        invariant todo <= m0.Keys
        invariant dependentBeanMap == PartlyPruned(m0, beanName, todo)
        decreases todo
      {
        var key :| key in todo;
        var dependenciesToClean := dependentBeanMap[key] - {beanName};
        if dependenciesToClean == {} {
          dependentBeanMap := dependentBeanMap - {key};
        } else {
          dependentBeanMap := dependentBeanMap[key := dependenciesToClean];
        }
        todo := todo - {key};
      }
      assert PartlyPruned(m0, beanName, {}) == Pruned(m0, beanName);
    }
  }

  /** Exploration stays valid as the seen set grows. */
  lemma ExploredGrows(m: Relation, target: Name, seen: set<Name>, more: set<Name>)
    requires seen <= more
    ensures forall z :: Explored(m, target, z, seen) ==> Explored(m, target, z, more)
  {
  }

  lemma DirectEdgesReachable(m: Relation, from: Name)
    ensures forall d :: d in Related(m, from) ==> Reachable(m, from, d)
  {
    forall d | d in Related(m, from) ensures Reachable(m, from, d) {
      DirectEdgeReachable(m, from, d);
    }
  }
}
