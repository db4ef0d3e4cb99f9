/**
 * The in-creation bookkeeping of the singleton registry: the names of
 * singletons currently being created and the names excluded from that check.
 *
 * Source: DefaultSingletonBeanRegistry.java lines 90-96 (fields) and 366-417.
 */
module CreationTracker {
  import opened Lang

  datatype Tracker = Tracker(
    singletonsCurrentlyInCreation: set<Name>,
    inCreationCheckExclusions: set<Name>)

  /** isCurrentlyInCreation: tracked and not excluded from the check. */
  predicate IsCurrentlyInCreation(t: Tracker, beanName: Name) {
    beanName !in t.inCreationCheckExclusions && beanName in t.singletonsCurrentlyInCreation
  }

  /**
   * setCurrentlyInCreation(beanName, inCreation): `false` excludes the name
   * from the in-creation check, `true` lifts the exclusion.
   */
  function SetCurrentlyInCreation(t: Tracker, beanName: Name, inCreation: bool): (r: Tracker)
    ensures r.singletonsCurrentlyInCreation == t.singletonsCurrentlyInCreation
    ensures IsCurrentlyInCreation(r, beanName) <==> inCreation && beanName in t.singletonsCurrentlyInCreation
    ensures forall n :: n != beanName ==> (IsCurrentlyInCreation(r, n) <==> IsCurrentlyInCreation(t, n))
  {
    if !inCreation then t.(inCreationCheckExclusions := t.inCreationCheckExclusions + {beanName})
    else t.(inCreationCheckExclusions := t.inCreationCheckExclusions - {beanName})
  }

  /**
   * beforeSingletonCreation: a name that is not excluded enters the
   * in-creation set, and fails if it is in it already (a circular reference).
   * An excluded name is neither checked nor added.
   */
  function BeforeSingletonCreation(t: Tracker, beanName: Name): (r: Result<Tracker>)
    ensures r.Err? <==> IsCurrentlyInCreation(t, beanName)
    ensures r.Err? ==> r.error == BeanCurrentlyInCreationException(beanName)
    ensures r.Ok? ==> r.value.inCreationCheckExclusions == t.inCreationCheckExclusions
    ensures r.Ok? && beanName !in t.inCreationCheckExclusions ==> IsCurrentlyInCreation(r.value, beanName)
    ensures r.Ok? ==> forall n :: n != beanName ==>
      (n in r.value.singletonsCurrentlyInCreation <==> n in t.singletonsCurrentlyInCreation)
  {
    if beanName !in t.inCreationCheckExclusions then
      if beanName in t.singletonsCurrentlyInCreation then Err(BeanCurrentlyInCreationException(beanName))
      else Ok(t.(singletonsCurrentlyInCreation := t.singletonsCurrentlyInCreation + {beanName}))
    else Ok(t)
  }

  /**
   * afterSingletonCreation: a name that is not excluded leaves the
   * in-creation set, and it is an IllegalStateException if it was not in it.
   */
  function AfterSingletonCreation(t: Tracker, beanName: Name): (r: Result<Tracker>)
    ensures r.Err? <==> beanName !in t.inCreationCheckExclusions && beanName !in t.singletonsCurrentlyInCreation
    ensures r.Err? ==> r.error == IllegalStateException
    ensures r.Ok? ==> !IsCurrentlyInCreation(r.value, beanName)
    ensures r.Ok? ==> r.value.inCreationCheckExclusions == t.inCreationCheckExclusions
    ensures r.Ok? ==> forall n :: n != beanName ==>
      (n in r.value.singletonsCurrentlyInCreation <==> n in t.singletonsCurrentlyInCreation)
  {
    if beanName !in t.inCreationCheckExclusions then
      if beanName !in t.singletonsCurrentlyInCreation then Err(IllegalStateException)
      else Ok(t.(singletonsCurrentlyInCreation := t.singletonsCurrentlyInCreation - {beanName}))
    else Ok(t)
  }

  /**
   * The two callbacks bracket a creation exactly: whatever state entering
   * succeeds from, leaving restores it.
   */
  lemma CreationBracketRoundTrip(t: Tracker, beanName: Name)
    requires BeforeSingletonCreation(t, beanName).Ok?
    ensures AfterSingletonCreation(BeforeSingletonCreation(t, beanName).value, beanName) == Ok(t)
  {
  }

  /**
   * A name that is not excluded cannot enter creation twice: the second
   * attempt is the circular-reference failure.
   */
  lemma ReentryRejected(t: Tracker, beanName: Name)
    requires BeforeSingletonCreation(t, beanName).Ok?
    requires beanName !in t.inCreationCheckExclusions
    ensures BeforeSingletonCreation(BeforeSingletonCreation(t, beanName).value, beanName)
      == Err(BeanCurrentlyInCreationException(beanName))
  {
  }

  /** An excluded name passes both callbacks and changes nothing. */
  lemma ExcludedNamesBypassChecks(t: Tracker, beanName: Name)
    requires beanName in t.inCreationCheckExclusions
    ensures BeforeSingletonCreation(t, beanName) == Ok(t)
    ensures AfterSingletonCreation(t, beanName) == Ok(t)
    ensures !IsCurrentlyInCreation(t, beanName)
  {
  }
}
