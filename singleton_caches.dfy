/**
 * The three cache tiers of the singleton registry and the operations that
 * move a bean name between them: the factory tier (a factory for an early
 * reference), the early tier (an early reference already handed out) and the
 * primary tier (the finished singleton).
 *
 * Source: DefaultSingletonBeanRegistry.java lines 74-88 (fields), 118-172,
 * 209-316 and 337-363.
 */
module SingletonCaches {
  import opened Lang
  import opened Collections
  import opened CreationTracker

  /** A bean instance; the registry never looks inside one. */
  datatype Instance = Instance(id: nat)

  /** What an `ObjectFactory` does when `getObject()` is called on it. */
  datatype ObjectFactory = Returns(value: Instance) | Throws(error: Exception)

  datatype Caches = Caches(
    singletonObjects: map<Name, Instance>,
    earlySingletonObjects: map<Name, Instance>,
    singletonFactories: map<Name, ObjectFactory>,
    registeredSingletons: seq<Name>)

  /** The names that have an entry in some tier. */
  function Cached(c: Caches): set<Name> {
    c.singletonObjects.Keys + c.earlySingletonObjects.Keys + c.singletonFactories.Keys
  }

  /**
   * The invariant every operation keeps: a name sits in at most one tier,
   * and `registeredSingletons` lists the cached names once each.
   */
  ghost predicate TiersValid(c: Caches) {
    && c.singletonObjects.Keys !! c.earlySingletonObjects.Keys
    && c.singletonObjects.Keys !! c.singletonFactories.Keys
    && c.earlySingletonObjects.Keys !! c.singletonFactories.Keys
    && NoDup(c.registeredSingletons)
    && Elems(c.registeredSingletons) == Cached(c)
  }

  /** No name other than `beanName` changes tier or value. */
  ghost predicate SameOtherwise(c: Caches, c': Caches, beanName: Name) {
    forall n :: n != beanName ==>
      && (n in c'.singletonObjects <==> n in c.singletonObjects)
      && (n in c'.singletonObjects ==> c'.singletonObjects[n] == c.singletonObjects[n])
      && (n in c'.earlySingletonObjects <==> n in c.earlySingletonObjects)
      && (n in c'.earlySingletonObjects ==> c'.earlySingletonObjects[n] == c.earlySingletonObjects[n])
      && (n in c'.singletonFactories <==> n in c.singletonFactories)
      && (n in c'.singletonFactories ==> c'.singletonFactories[n] == c.singletonFactories[n])
  }

  function Get<V>(m: map<Name, V>, beanName: Name): Option<V> {
    if beanName in m then Some(m[beanName]) else None
  }

  /** addSingleton: the finished instance enters the primary tier and leaves the other two. */
  function AddSingleton(c: Caches, beanName: Name, singletonObject: Instance): Caches {
    Caches(
      c.singletonObjects[beanName := singletonObject],
      c.earlySingletonObjects - {beanName},
      c.singletonFactories - {beanName},
      AddLast(c.registeredSingletons, beanName))
  }

  /**
   * addSingletonFactory: unless the name is already finished, installs the
   * factory and drops a stale early reference.
   */
  function AddSingletonFactory(c: Caches, beanName: Name, singletonFactory: ObjectFactory): Caches {
    if beanName in c.singletonObjects then c
    else Caches(
      c.singletonObjects,
      c.earlySingletonObjects - {beanName},
      c.singletonFactories[beanName := singletonFactory],
      AddLast(c.registeredSingletons, beanName))
  }

  /** removeSingleton: the name leaves every tier and the registered names. */
  function RemoveSingleton(c: Caches, beanName: Name): Caches {
    Caches(
      c.singletonObjects - {beanName},
      c.earlySingletonObjects - {beanName},
      c.singletonFactories - {beanName},
      Without(c.registeredSingletons, beanName))
  }

  /**
   * getSingleton(beanName, allowEarlyReference), given whether the name is
   * in the in-creation set: the result and the caches afterwards. A factory
   * that throws leaves the caches as they were.
   */
  function GetSingleton(c: Caches, inCreation: bool, beanName: Name, allowEarlyReference: bool)
    : (Result<Option<Instance>>, Caches)
  {
    if beanName in c.singletonObjects then (Ok(Some(c.singletonObjects[beanName])), c)
    else if !inCreation then (Ok(None), c)
    else if beanName in c.earlySingletonObjects then (Ok(Some(c.earlySingletonObjects[beanName])), c)
    else if !allowEarlyReference || beanName !in c.singletonFactories then (Ok(None), c)
    else match c.singletonFactories[beanName]
      case Returns(v) =>
        (Ok(Some(v)), c.(earlySingletonObjects := c.earlySingletonObjects[beanName := v],
                         singletonFactories := c.singletonFactories - {beanName}))
      case Throws(e) => (Err(e), c)
  }

  /** The caches once the factory callback has bound `beanName` itself, if it did. */
  function AfterCallback(c: Caches, beanName: Name, registeredMeanwhile: Option<Instance>): Caches {
    match registeredMeanwhile
    case None => c
    case Some(v) => AddSingleton(c, beanName, v)
  }

  /**
   * getSingleton(beanName, singletonFactory): the result and the caches
   * afterwards. `registeredMeanwhile` is what the factory callback itself
   * bound under `beanName` in the primary tier before it returned or threw.
   * The in-creation bracket is `BeforeSingletonCreation` and, whatever the
   * outcome, `AfterSingletonCreation`, which restores the tracker
   * (`CreationBracketRoundTrip`).
   */
  function GetOrCreate(c: Caches, t: Tracker, inDestruction: bool, beanName: Name,
                       singletonFactory: ObjectFactory, registeredMeanwhile: Option<Instance>)
    : (Result<Instance>, Caches)
  {
    if beanName in c.singletonObjects then (Ok(c.singletonObjects[beanName]), c)
    else if inDestruction then (Err(BeanCreationNotAllowedException(beanName)), c)
    else if BeforeSingletonCreation(t, beanName).Err? then (Err(BeforeSingletonCreation(t, beanName).error), c)
    else
      var c1 := AfterCallback(c, beanName, registeredMeanwhile);
      match singletonFactory
      case Returns(v) => (Ok(v), AddSingleton(c1, beanName, v))
      case Throws(e) =>
        if e == IllegalStateException && beanName in c1.singletonObjects
        then (Ok(c1.singletonObjects[beanName]), c1)
        else (Err(e), c1)
  }

  // ---------------------------------------------------------------------
  // Properties
  // ---------------------------------------------------------------------

  /** addSingleton leaves the name only in the primary tier, registered, and nothing else moved. */
  lemma AddSingletonPlacesInPrimary(c: Caches, beanName: Name, singletonObject: Instance)
    requires TiersValid(c)
    ensures var r := AddSingleton(c, beanName, singletonObject);
      && TiersValid(r)
      && Get(r.singletonObjects, beanName) == Some(singletonObject)
      && beanName !in r.earlySingletonObjects && beanName !in r.singletonFactories
      && beanName in r.registeredSingletons
      && (beanName !in c.registeredSingletons ==> r.registeredSingletons == c.registeredSingletons + [beanName])
      && (beanName in c.registeredSingletons ==> r.registeredSingletons == c.registeredSingletons)
      && Cached(r) == Cached(c) + {beanName}
      && SameOtherwise(c, r, beanName)
  {
    var r := AddSingleton(c, beanName, singletonObject);
    assert Elems(r.registeredSingletons) == Cached(r);
  }

  /**
   * addSingletonFactory is a no-op for a finished name; otherwise the name is
   * in the factory tier only, so early and factory tiers stay disjoint.
   */
  lemma AddSingletonFactoryInstalls(c: Caches, beanName: Name, singletonFactory: ObjectFactory)
    requires TiersValid(c)
    ensures var r := AddSingletonFactory(c, beanName, singletonFactory);
      && TiersValid(r)
      && (beanName in c.singletonObjects ==> r == c)
      && (beanName !in c.singletonObjects ==>
            && Get(r.singletonFactories, beanName) == Some(singletonFactory)
            && beanName !in r.earlySingletonObjects
            && beanName in r.registeredSingletons
            && (beanName !in c.registeredSingletons ==> r.registeredSingletons == c.registeredSingletons + [beanName])
            && SameOtherwise(c, r, beanName))
  {
    var r := AddSingletonFactory(c, beanName, singletonFactory);
    assert Elems(r.registeredSingletons) == Cached(r);
  }

  /** removeSingleton forgets the name everywhere and nothing else; the other
      registered names keep their order. */
  lemma RemoveSingletonForgets(c: Caches, beanName: Name)
    requires TiersValid(c)
    ensures var r := RemoveSingleton(c, beanName);
      && TiersValid(r)
      && Cached(r) == Cached(c) - {beanName}
      && beanName !in r.registeredSingletons
      && SameOtherwise(c, r, beanName)
    ensures var names := c.registeredSingletons;
      beanName !in names ==> RemoveSingleton(c, beanName).registeredSingletons == names
    ensures var names := c.registeredSingletons;
      beanName in names ==>
        exists k :: 0 <= k < |names| && names[k] == beanName
          && RemoveSingleton(c, beanName).registeredSingletons == names[..k] + names[k+1..]
  {
    var r := RemoveSingleton(c, beanName);
    assert Elems(r.registeredSingletons) == Cached(r);
    WithoutDropsOne(c.registeredSingletons, beanName);
  }

  /** getSingletonCount: one registered name per cached name. */
  lemma SingletonCountIsCachedNames(c: Caches)
    requires TiersValid(c)
    ensures |c.registeredSingletons| == |Cached(c)|
  {
    NoDupCard(c.registeredSingletons);
  }

  /**
   * getSingleton(beanName, allowEarlyReference) keeps the invariant, never
   * touches the primary tier or the registered names, and at most moves the
   * name from the factory tier to the early tier.
   */
  lemma GetSingletonOnlyPromotes(c: Caches, inCreation: bool, beanName: Name, allowEarlyReference: bool)
    requires TiersValid(c)
    ensures var (r, c') := GetSingleton(c, inCreation, beanName, allowEarlyReference);
      && TiersValid(c')
      && c'.singletonObjects == c.singletonObjects
      && c'.registeredSingletons == c.registeredSingletons
      && Cached(c') == Cached(c)
      && SameOtherwise(c, c', beanName)
      && (c' != c ==> beanName in c.singletonFactories && beanName !in c'.singletonFactories
                      && r.Ok? && r.value.Some? && Get(c'.earlySingletonObjects, beanName) == r.value)
  {
    var (r, c') := GetSingleton(c, inCreation, beanName, allowEarlyReference);
    if c' != c {
      var v := c.singletonFactories[beanName].value;
      assert c' == c.(earlySingletonObjects := c.earlySingletonObjects[beanName := v],
                      singletonFactories := c.singletonFactories - {beanName});
      assert Cached(c') == Cached(c);
    }
  }

  /** A name that is not in creation is looked up in the primary tier only. */
  lemma GetSingletonPrimaryOnlyUnlessInCreation(c: Caches, beanName: Name, allowEarlyReference: bool)
    ensures GetSingleton(c, false, beanName, allowEarlyReference) == (Ok(Get(c.singletonObjects, beanName)), c)
  {
  }

  /**
   * The early factory runs at most once: after a lookup that invoked it,
   * every later lookup of the name while it is in creation returns the same
   * early reference and changes nothing, whether early references are allowed
   * or not.
   */
  lemma EarlyFactoryRunsAtMostOnce(c: Caches, beanName: Name, allowEarlyReference: bool, allowAgain: bool)
    requires TiersValid(c)
    requires GetSingleton(c, true, beanName, allowEarlyReference).1 != c
    ensures var (r, c') := GetSingleton(c, true, beanName, allowEarlyReference);
      && beanName !in c'.singletonFactories
      && GetSingleton(c', true, beanName, allowAgain) == (r, c')
  {
  }

  /** A returned reference is the one the caches hold for the name afterwards. */
  lemma GetSingletonReturnsCached(c: Caches, inCreation: bool, beanName: Name, allowEarlyReference: bool)
    requires TiersValid(c)
    ensures var (r, c') := GetSingleton(c, inCreation, beanName, allowEarlyReference);
      r.Ok? && r.value.Some? ==>
        Get(c'.singletonObjects, beanName) == r.value || Get(c'.earlySingletonObjects, beanName) == r.value
  {
  }

  /** A primary hit is returned as it is, without calling the factory or changing anything. */
  lemma GetOrCreateHitSkipsFactory(c: Caches, t: Tracker, inDestruction: bool, beanName: Name,
                                   singletonFactory: ObjectFactory, registeredMeanwhile: Option<Instance>)
    requires beanName in c.singletonObjects
    ensures GetOrCreate(c, t, inDestruction, beanName, singletonFactory, registeredMeanwhile)
      == (Ok(c.singletonObjects[beanName]), c)
  {
  }

  /** A miss while the registry is destroying its singletons is refused and changes nothing. */
  lemma GetOrCreateRefusedDuringDestruction(c: Caches, t: Tracker, beanName: Name,
                                            singletonFactory: ObjectFactory, registeredMeanwhile: Option<Instance>)
    requires beanName !in c.singletonObjects
    ensures GetOrCreate(c, t, true, beanName, singletonFactory, registeredMeanwhile)
      == (Err(BeanCreationNotAllowedException(beanName)), c)
  {
  }

  /** A name already in creation (and not excluded) is a circular reference. */
  lemma GetOrCreateRejectsCircularReference(c: Caches, t: Tracker, beanName: Name,
                                            singletonFactory: ObjectFactory, registeredMeanwhile: Option<Instance>)
    requires beanName !in c.singletonObjects
    requires IsCurrentlyInCreation(t, beanName)
    ensures GetOrCreate(c, t, false, beanName, singletonFactory, registeredMeanwhile)
      == (Err(BeanCurrentlyInCreationException(beanName)), c)
  {
  }

  /**
   * Whatever happens, the invariant holds afterwards; a successful call
   * leaves its result in the primary tier; a failed call changes no more
   * than the callback itself did.
   */
  lemma GetOrCreateOutcome(c: Caches, t: Tracker, inDestruction: bool, beanName: Name,
                           singletonFactory: ObjectFactory, registeredMeanwhile: Option<Instance>)
    requires TiersValid(c)
    ensures var (r, c') := GetOrCreate(c, t, inDestruction, beanName, singletonFactory, registeredMeanwhile);
      && TiersValid(c')
      && (r.Ok? ==> Get(c'.singletonObjects, beanName) == Some(r.value))
      && (r.Err? ==> c' == AfterCallback(c, beanName, registeredMeanwhile) || c' == c)
      && SameOtherwise(c, c', beanName)
  {
    if beanName !in c.singletonObjects && !inDestruction && BeforeSingletonCreation(t, beanName).Ok? {
      var c1 := AfterCallback(c, beanName, registeredMeanwhile);
      AfterCallbackKeepsOthers(c, beanName, registeredMeanwhile);
      if singletonFactory.Returns? {
        AddSingletonPlacesInPrimary(c1, beanName, singletonFactory.value);
      }
    }
  }

  lemma AfterCallbackKeepsOthers(c: Caches, beanName: Name, registeredMeanwhile: Option<Instance>)
    requires TiersValid(c)
    ensures var c1 := AfterCallback(c, beanName, registeredMeanwhile);
      && TiersValid(c1)
      && SameOtherwise(c, c1, beanName)
      && (registeredMeanwhile.Some? ==> Get(c1.singletonObjects, beanName) == registeredMeanwhile)
      && (registeredMeanwhile.None? ==> c1 == c)
  {
    if registeredMeanwhile.Some? {
      AddSingletonPlacesInPrimary(c, beanName, registeredMeanwhile.value);
    }
  }

  /**
   * The factory that throws IllegalStateException is forgiven exactly when
   * an instance appeared in the primary tier meanwhile: that instance is
   * returned; otherwise the exception is rethrown.
   */
  lemma GetOrCreateIllegalStateRecovery(c: Caches, t: Tracker, beanName: Name,
                                        registeredMeanwhile: Option<Instance>)
    requires beanName !in c.singletonObjects
    requires !IsCurrentlyInCreation(t, beanName)
    ensures GetOrCreate(c, t, false, beanName, Throws(IllegalStateException), registeredMeanwhile).0 ==
      match registeredMeanwhile
      case Some(v) => Ok(v)
      case None => Err(IllegalStateException)
  {
  }

  /**
   * Single creation: once a call has produced an instance, every later call
   * for the name returns that same instance, leaves the caches unchanged
   * and never invokes its factory, whatever the factory would do.
   */
  lemma GetOrCreateOnce(c: Caches, t: Tracker, inDestruction: bool, beanName: Name,
                        singletonFactory: ObjectFactory, registeredMeanwhile: Option<Instance>,
                        t2: Tracker, inDestruction2: bool, singletonFactory2: ObjectFactory,
                        registeredMeanwhile2: Option<Instance>)
    requires GetOrCreate(c, t, inDestruction, beanName, singletonFactory, registeredMeanwhile).0.Ok?
    ensures var (r, c') := GetOrCreate(c, t, inDestruction, beanName, singletonFactory, registeredMeanwhile);
      GetOrCreate(c', t2, inDestruction2, beanName, singletonFactory2, registeredMeanwhile2) == (r, c')
  {
  }
}
