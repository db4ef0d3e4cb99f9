# A verified model of Spring's singleton registry and AOP proxy configuration

This Dafny project models three pieces of the Spring Framework.

- **`DefaultSingletonBeanRegistry`** (spring-beans) is the shared-instance registry behind every bean factory. It keeps singletons in three cache tiers: finished instances, early references already handed out, and factories that can produce an early reference. It also tracks which names are in creation. It records disposable beans in registration order, and keeps three relations between bean names: containment, "is depended on by" and the inverse of the second. Destroying a singleton cascades through these relations: dependents are destroyed before the bean, and contained beans after it.
- **`AopConfigUtils`** (spring-aop) implements the escalation protocol for the single auto-proxy creator of a context. The creator definition lives under one reserved bean name. A request may only move its class up a fixed three-entry priority list.
- **`DefaultAopProxyFactory`** (spring-aop) chooses between a JDK dynamic proxy and a CGLIB (Objenesis) proxy for an AOP configuration.

The modules follow the sources.

- `lang.dfy` holds nullable references, exceptions and results.
- `collections.dfy` holds sequence and set helpers, such as insertion-ordered sets and the duplicate-free property.
- `singleton_caches.dfy`, `creation_tracker.dfy` and `dependency_graph.dfy` hold the value-level behaviour of the three parts of the registry's state and the properties proved about them.
- `destroy_cascade.dfy` states, on snapshots of the whole registry, what destroying beans promises and how the steps compose.
- `singleton_registry.dfy` holds the registry itself:
  - It is a class with the Java fields.
  - Each method updates them in place.
  - Each method is proved against the value-level functions.
  - A class invariant `Valid()` says three things:
    - a name sits in at most one cache tier;
    - the registered names and the disposable-bean order list each name once;
    - no relation keeps an empty set.
- `aop_config_utils.dfy` holds a bean-definition registry class, the priority search, the escalation as a value-level function, the static entry points as methods, and the escalation properties.
- `default_aop_proxy_factory.dfy` holds the proxy choice as a pure function with its case analysis.

Outside input is modelled as follows:

- **Object factories.** An object factory is given by its outcome: it returns an instance or throws. For `getSingleton(beanName, singletonFactory)`, the instance the callback itself may bind under the same name, re-entrantly, is an explicit parameter.
- **`DisposableBean.destroy()` calls.** These are recorded in a ghost trace, whether they throw or not. The registry ignores their failure.

## Model

| member | source | states |
|---|---|---|
| SingletonRegistry.DefaultSingletonBeanRegistry.constructor | spring-beans/src/main/java/org/springframework/beans/factory/support/DefaultSingletonBeanRegistry.java:76-115 | A new registry holds no singleton, no name in creation, no disposable bean and no dependency, and satisfies the invariant |
| SingletonRegistry.DefaultSingletonBeanRegistry.RegisterSingleton | spring-beans/src/main/java/org/springframework/beans/factory/support/DefaultSingletonBeanRegistry.java:119-130 | A name already bound to a finished instance is refused with IllegalStateException and nothing changes; otherwise the instance is bound as by addSingleton; the tier invariant is kept |
| SingletonRegistry.DefaultSingletonBeanRegistry.AddSingleton | spring-beans/src/main/java/org/springframework/beans/factory/support/DefaultSingletonBeanRegistry.java:138-150 | The caches become `AddSingleton` of the old caches (see AddSingletonPlacesInPrimary); the tier invariant is kept |
| SingletonCaches.AddSingletonPlacesInPrimary | spring-beans/src/main/java/org/springframework/beans/factory/support/DefaultSingletonBeanRegistry.java:138-150 | After addSingleton the name is in the primary tier with the given instance, in neither other tier, and registered: appended last when new, with the registered order otherwise unchanged. The cached names gain just that name, every other name keeps its tier and value, and the invariant holds |
| SingletonRegistry.DefaultSingletonBeanRegistry.AddSingletonFactory | spring-beans/src/main/java/org/springframework/beans/factory/support/DefaultSingletonBeanRegistry.java:160-172 | The caches become `AddSingletonFactory` of the old caches; the tier invariant is kept |
| SingletonCaches.AddSingletonFactoryInstalls | spring-beans/src/main/java/org/springframework/beans/factory/support/DefaultSingletonBeanRegistry.java:160-172 | For a finished name nothing changes. Otherwise the factory is installed, a stale early reference is dropped, the name is registered (appended last when new) and nothing else moves. The invariant holds |
| SingletonRegistry.DefaultSingletonBeanRegistry.GetSingleton | spring-beans/src/main/java/org/springframework/beans/factory/support/DefaultSingletonBeanRegistry.java:184-187 | The one-argument lookup is the two-argument lookup with early references allowed |
| SingletonRegistry.DefaultSingletonBeanRegistry.GetSingletonReference | spring-beans/src/main/java/org/springframework/beans/factory/support/DefaultSingletonBeanRegistry.java:209-242 | The result and the new caches are those of the value-level `GetSingleton`, given whether the name is in creation; the tier invariant is kept |
| SingletonCaches.GetSingletonOnlyPromotes | spring-beans/src/main/java/org/springframework/beans/factory/support/DefaultSingletonBeanRegistry.java:209-242 | A lookup never touches the primary tier or the registered names, and never changes the set of cached names or any other name. It changes something only when it moves the name from the factory tier to the early tier and returns that new early reference |
| SingletonCaches.GetSingletonPrimaryOnlyUnlessInCreation | spring-beans/src/main/java/org/springframework/beans/factory/support/DefaultSingletonBeanRegistry.java:211-217 | For a name not in creation only the primary tier is consulted and nothing changes |
| SingletonCaches.EarlyFactoryRunsAtMostOnce | spring-beans/src/main/java/org/springframework/beans/factory/support/DefaultSingletonBeanRegistry.java:221-236 | After a lookup that invoked the early factory, the factory is gone. Every later lookup while in creation returns the same early reference and changes nothing |
| SingletonCaches.GetSingletonReturnsCached | spring-beans/src/main/java/org/springframework/beans/factory/support/DefaultSingletonBeanRegistry.java:209-242 | A returned reference is the one the primary or early tier holds for the name afterwards |
| SingletonRegistry.DefaultSingletonBeanRegistry.GetSingletonOrCreate | spring-beans/src/main/java/org/springframework/beans/factory/support/DefaultSingletonBeanRegistry.java:253-316 | The result and the new caches are those of the value-level `GetOrCreate`. The creation tracker ends as it started, because the in-creation bracket closes. The tier invariant is kept |
| SingletonCaches.GetOrCreateHitSkipsFactory | spring-beans/src/main/java/org/springframework/beans/factory/support/DefaultSingletonBeanRegistry.java:259-261 | A primary hit is returned without calling the factory and without any change |
| SingletonCaches.GetOrCreateRefusedDuringDestruction | spring-beans/src/main/java/org/springframework/beans/factory/support/DefaultSingletonBeanRegistry.java:262-266 | A miss while singletons are being destroyed fails with BeanCreationNotAllowedException and changes nothing |
| SingletonCaches.GetOrCreateRejectsCircularReference | spring-beans/src/main/java/org/springframework/beans/factory/support/DefaultSingletonBeanRegistry.java:259-272 | A miss for a name already in creation fails with BeanCurrentlyInCreationException and changes nothing |
| SingletonCaches.GetOrCreateOutcome | spring-beans/src/main/java/org/springframework/beans/factory/support/DefaultSingletonBeanRegistry.java:253-316 | The invariant holds afterwards. A success leaves its result in the primary tier. A failure changes no more than the callback did. No other name changes |
| SingletonCaches.GetOrCreateIllegalStateRecovery | spring-beans/src/main/java/org/springframework/beans/factory/support/DefaultSingletonBeanRegistry.java:284-291 | A factory's IllegalStateException is forgiven exactly when an instance appeared in the primary tier meanwhile: that instance is returned. Otherwise the exception is rethrown |
| SingletonCaches.GetOrCreateOnce | spring-beans/src/main/java/org/springframework/beans/factory/support/DefaultSingletonBeanRegistry.java:253-316 | Once a call has produced an instance, every later call returns that same instance and changes nothing, whatever its factory would do |
| SingletonRegistry.DefaultSingletonBeanRegistry.RemoveSingleton | spring-beans/src/main/java/org/springframework/beans/factory/support/DefaultSingletonBeanRegistry.java:337-344 | The caches become `RemoveSingleton` of the old caches; the tier invariant is kept |
| SingletonCaches.RemoveSingletonForgets | spring-beans/src/main/java/org/springframework/beans/factory/support/DefaultSingletonBeanRegistry.java:337-344 | The name leaves every tier and the registered names; nothing else changes; the invariant holds; the other registered names keep their order: the list is unchanged when the name was absent, and otherwise loses exactly the one position that held it |
| Collections.WithoutDropsOne | spring-beans/src/main/java/org/springframework/beans/factory/support/DefaultSingletonBeanRegistry.java:342-342 | Removing a name from an ordered name set leaves it unchanged when the name is absent, and otherwise drops exactly the one position holding it, keeping the rest in order |
| SingletonRegistry.DefaultSingletonBeanRegistry.ContainsSingleton | spring-beans/src/main/java/org/springframework/beans/factory/support/DefaultSingletonBeanRegistry.java:347-349 | True exactly for a finished singleton, which is then in no other tier and is registered |
| SingletonRegistry.DefaultSingletonBeanRegistry.GetSingletonNames | spring-beans/src/main/java/org/springframework/beans/factory/support/DefaultSingletonBeanRegistry.java:352-356 | Every cached name, once each, as the registered-names sequence, which keeps registration order: a new name is appended last (AddSingletonPlacesInPrimary, AddSingletonFactoryInstalls) |
| SingletonRegistry.DefaultSingletonBeanRegistry.GetSingletonCount | spring-beans/src/main/java/org/springframework/beans/factory/support/DefaultSingletonBeanRegistry.java:359-363 | The number of distinct cached names |
| SingletonCaches.SingletonCountIsCachedNames | spring-beans/src/main/java/org/springframework/beans/factory/support/DefaultSingletonBeanRegistry.java:359-363 | Under the invariant the registered list has one entry per cached name |
| SingletonRegistry.DefaultSingletonBeanRegistry.SetCurrentlyInCreation | spring-beans/src/main/java/org/springframework/beans/factory/support/DefaultSingletonBeanRegistry.java:366-374 | The tracker becomes `SetCurrentlyInCreation` of the old one |
| CreationTracker.SetCurrentlyInCreation | spring-beans/src/main/java/org/springframework/beans/factory/support/DefaultSingletonBeanRegistry.java:366-374 | The in-creation set is untouched. The name counts as in creation afterwards exactly when `inCreation` holds and it is in the set. No other name's status changes |
| SingletonRegistry.DefaultSingletonBeanRegistry.IsCurrentlyInCreation | spring-beans/src/main/java/org/springframework/beans/factory/support/DefaultSingletonBeanRegistry.java:376-379 | In creation and not excluded from the check |
| SingletonRegistry.DefaultSingletonBeanRegistry.IsActuallyInCreation | spring-beans/src/main/java/org/springframework/beans/factory/support/DefaultSingletonBeanRegistry.java:381-383 | In the in-creation set, exclusions ignored |
| SingletonRegistry.DefaultSingletonBeanRegistry.IsSingletonCurrentlyInCreation | spring-beans/src/main/java/org/springframework/beans/factory/support/DefaultSingletonBeanRegistry.java:390-392 | In the in-creation set |
| SingletonRegistry.DefaultSingletonBeanRegistry.BeforeSingletonCreation | spring-beans/src/main/java/org/springframework/beans/factory/support/DefaultSingletonBeanRegistry.java:401-405 | Outcome and new tracker as `CreationTracker.BeforeSingletonCreation`; a failure leaves the tracker unchanged |
| CreationTracker.BeforeSingletonCreation | spring-beans/src/main/java/org/springframework/beans/factory/support/DefaultSingletonBeanRegistry.java:401-405 | Fails with BeanCurrentlyInCreationException exactly when the name is already in creation and not excluded. Otherwise a non-excluded name is in creation afterwards, and no other name and no exclusion changes |
| SingletonRegistry.DefaultSingletonBeanRegistry.AfterSingletonCreation | spring-beans/src/main/java/org/springframework/beans/factory/support/DefaultSingletonBeanRegistry.java:413-417 | Outcome and new tracker as `CreationTracker.AfterSingletonCreation`; a failure leaves the tracker unchanged |
| CreationTracker.AfterSingletonCreation | spring-beans/src/main/java/org/springframework/beans/factory/support/DefaultSingletonBeanRegistry.java:413-417 | Fails with IllegalStateException exactly when a non-excluded name is not in creation. Otherwise the name is no longer in creation, and no other name and no exclusion changes |
| CreationTracker.CreationBracketRoundTrip | spring-beans/src/main/java/org/springframework/beans/factory/support/DefaultSingletonBeanRegistry.java:272-305 | Leaving creation after a successful entry restores the tracker exactly |
| CreationTracker.ReentryRejected | spring-beans/src/main/java/org/springframework/beans/factory/support/DefaultSingletonBeanRegistry.java:401-405 | A non-excluded name cannot enter creation twice |
| CreationTracker.ExcludedNamesBypassChecks | spring-beans/src/main/java/org/springframework/beans/factory/support/DefaultSingletonBeanRegistry.java:401-417 | An excluded name passes both callbacks unchanged and never counts as in creation |
| SingletonRegistry.DefaultSingletonBeanRegistry.RegisterDisposableBean | spring-beans/src/main/java/org/springframework/beans/factory/support/DefaultSingletonBeanRegistry.java:429-433 | The bean is bound under the name. A new name goes last in the destruction order; a known name keeps its place. Nothing else changes |
| SingletonRegistry.DefaultSingletonBeanRegistry.RegisterContainedBean | spring-beans/src/main/java/org/springframework/beans/factory/support/DefaultSingletonBeanRegistry.java:444-453 | The graph becomes `RegisterContained` of the old graph; nothing else changes |
| DependencyGraph.RegisterContained | spring-beans/src/main/java/org/springframework/beans/factory/support/DefaultSingletonBeanRegistry.java:444-453 | The containment relation gains exactly the one edge. An edge already present changes nothing. A new one also makes the containing bean a dependent of the contained one |
| DependencyGraph.RegisterContainedAddsEdgeOnce | spring-beans/src/main/java/org/springframework/beans/factory/support/DefaultSingletonBeanRegistry.java:444-453 | Registering a containment twice is the same as once; a new containment adds the dependency edge |
| DependencyGraph.RegisterContainedKeepsInverse | spring-beans/src/main/java/org/springframework/beans/factory/support/DefaultSingletonBeanRegistry.java:444-477 | The dependency map stays the exact inverse of the dependent map |
| SingletonRegistry.DefaultSingletonBeanRegistry.RegisterDependentBean | spring-beans/src/main/java/org/springframework/beans/factory/support/DefaultSingletonBeanRegistry.java:461-477 | The graph becomes `RegisterDependent` of the old graph; nothing else changes |
| DependencyGraph.RegisterDependent | spring-beans/src/main/java/org/springframework/beans/factory/support/DefaultSingletonBeanRegistry.java:461-477 | The dependent relation gains exactly the one edge, and the containment relation is untouched. An edge already present changes nothing. A new one is recorded in both directions |
| DependencyGraph.RegisterDependentIdempotent | spring-beans/src/main/java/org/springframework/beans/factory/support/DefaultSingletonBeanRegistry.java:467-469 | Registering a dependency twice is the same as once |
| DependencyGraph.RegisterDependentKeepsInverse | spring-beans/src/main/java/org/springframework/beans/factory/support/DefaultSingletonBeanRegistry.java:461-477 | The dependency map stays the exact inverse of the dependent map |
| SingletonRegistry.DefaultSingletonBeanRegistry.IsDependent | spring-beans/src/main/java/org/springframework/beans/factory/support/DefaultSingletonBeanRegistry.java:486-490 | True exactly when a path of one or more dependent edges leads from the bean to the candidate; the search terminates on cyclic graphs |
| SingletonRegistry.DefaultSingletonBeanRegistry.IsDependentSearch | spring-beans/src/main/java/org/springframework/beans/factory/support/DefaultSingletonBeanRegistry.java:492-514 | The shared seen set only grows. A true answer is a path. A false answer leaves every newly seen name fully explored |
| DependencyGraph.ExploredUnreachable | spring-beans/src/main/java/org/springframework/beans/factory/support/DefaultSingletonBeanRegistry.java:492-514 | When every seen name is fully explored without meeting the target, no path reaches it |
| SingletonRegistry.DefaultSingletonBeanRegistry.HasDependentBean | spring-beans/src/main/java/org/springframework/beans/factory/support/DefaultSingletonBeanRegistry.java:520-522 | True exactly when some bean depends on the name |
| SingletonRegistry.DefaultSingletonBeanRegistry.GetDependentBeans | spring-beans/src/main/java/org/springframework/beans/factory/support/DefaultSingletonBeanRegistry.java:529-537 | The direct dependents, empty when none; each is reachable in the sense of isDependent |
| SingletonRegistry.DefaultSingletonBeanRegistry.GetDependenciesForBean | spring-beans/src/main/java/org/springframework/beans/factory/support/DefaultSingletonBeanRegistry.java:545-553 | The direct dependencies, empty when none |
| SingletonRegistry.DefaultSingletonBeanRegistry.DestroySingletons | spring-beans/src/main/java/org/springframework/beans/factory/support/DefaultSingletonBeanRegistry.java:555-576 | Afterwards everything is empty except the creation tracker (unchanged) and the destroy trace, and the flag is down. Every disposable bean's destroy() was called exactly once, and no other. The calls come in one round per disposable name, from the last registered to the first (`DestroyedInRounds`). Each round calls only beans in that name's cascade of dependents and contained beans, and by its end that name has had its call. Without dependencies or containments the calls are exactly in reverse registration order |
| SingletonRegistry.DefaultSingletonBeanRegistry.DestroyInReverseOrder | spring-beans/src/main/java/org/springframework/beans/factory/support/DefaultSingletonBeanRegistry.java:563-569 | The backward walk leaves no disposable bean and destroys each once. It proceeds in rounds, last name first, each within the cascade of its name (`DestroyedInRounds`). With no graph it is exactly reverse order |
| DestroyCascade.RoundsWithoutGraph | spring-beans/src/main/java/org/springframework/beans/factory/support/DefaultSingletonBeanRegistry.java:563-569 | Without dependencies or containments each round of the backward walk is exactly its own name's call, so a walk that calls no bean twice is the reverse of the registration order |
| DestroyCascade.DestroyedEveryDisposable | spring-beans/src/main/java/org/springframework/beans/factory/support/DefaultSingletonBeanRegistry.java:563-569 | Once every disposable bean is destroyed none is left and the destroy() calls made are one per disposable bean |
| SingletonRegistry.DefaultSingletonBeanRegistry.ClearDependencyMaps | spring-beans/src/main/java/org/springframework/beans/factory/support/DefaultSingletonBeanRegistry.java:571-573 | The three relations are empty |
| SingletonRegistry.DefaultSingletonBeanRegistry.ClearSingletonCache | spring-beans/src/main/java/org/springframework/beans/factory/support/DefaultSingletonBeanRegistry.java:582-590 | The cache tiers and registered names are empty and the in-destruction flag is down |
| SingletonRegistry.DefaultSingletonBeanRegistry.DestroySingleton | spring-beans/src/main/java/org/springframework/beans/factory/support/DefaultSingletonBeanRegistry.java:598-608 | `DestroySingletonDone`: the bean and its disposable bean are gone and detached from the graph. Every dependent and every contained bean is destroyed. Each destroy() call is for a departing disposable bean, once. The bean's own call comes after its dependents' and before its contained beans'. Only beans in its cascade (the bean, plus every bean reachable from it over dependent and contained edges) leave the tiers or the disposable beans. Every entry that stays keeps its value. Without a graph the caches become exactly removeSingleton of the old ones and only its own disposable bean goes |
| DestroyCascade.OutsideCascadeUntouched | spring-beans/src/main/java/org/springframework/beans/factory/support/DefaultSingletonBeanRegistry.java:598-668 | After destroySingleton(b), a bean outside b's cascade (outside some set that holds b and is closed under the dependent and contained edges) keeps each cache entry and its disposable bean exactly as before |
| SingletonRegistry.DefaultSingletonBeanRegistry.RemoveSingletonAndDisposable | spring-beans/src/main/java/org/springframework/beans/factory/support/DefaultSingletonBeanRegistry.java:600-606 | The disposable bean returned is the one registered under the name. The caches become exactly `RemoveSingleton` of the old ones and the disposable beans lose just that name. The graph, trace, tracker and flag are unchanged |
| DestroyCascade.DestroySingletonSummary | spring-beans/src/main/java/org/springframework/beans/factory/support/DefaultSingletonBeanRegistry.java:598-608 | removeSingleton plus taking out the disposable bean, then destroyBean, together satisfy `DestroySingletonDone` |
| SingletonRegistry.DefaultSingletonBeanRegistry.DestroyBean | spring-beans/src/main/java/org/springframework/beans/factory/support/DefaultSingletonBeanRegistry.java:616-668 | `DestroyBeanDone`: dependents are destroyed first, then the bean's own destroy() runs, then contained beans are destroyed. The name is detached from every relation. Only beans in its cascade leave the tiers or the disposable beans, and every entry that stays keeps its value. The trace gains one call per departing disposable bean plus the bean's own. Without a graph the caches and disposable beans are unchanged |
| DestroyCascade.DestroyBeanSummary | spring-beans/src/main/java/org/springframework/beans/factory/support/DefaultSingletonBeanRegistry.java:616-668 | The four steps of destroyBean compose to `DestroyBeanDone` |
| DestroyCascade.DestroyBeanOrder | spring-beans/src/main/java/org/springframework/beans/factory/support/DefaultSingletonBeanRegistry.java:616-652 | The bean's destroy() call sits after every disposable dependent's call and before the call of every contained disposable bean not already destroyed |
| SingletonRegistry.DefaultSingletonBeanRegistry.DestroyDependentBeans | spring-beans/src/main/java/org/springframework/beans/factory/support/DefaultSingletonBeanRegistry.java:618-630 | The dependent set is taken out of the map and each dependent is destroyed (`DestroyedAll`). Only beans in the dependents' cascade leave, entries that stay keep their values, and destroy() calls are made only for departing disposable beans, once each |
| SingletonRegistry.DefaultSingletonBeanRegistry.CallDestroy | spring-beans/src/main/java/org/springframework/beans/factory/support/DefaultSingletonBeanRegistry.java:633-640 | The bean's destroy() is recorded if it has a disposable bean, and nothing else changes |
| SingletonRegistry.DefaultSingletonBeanRegistry.DestroyContainedBeans | spring-beans/src/main/java/org/springframework/beans/factory/support/DefaultSingletonBeanRegistry.java:643-652 | The containment set is taken out of the map and each contained bean is destroyed (`DestroyedAll`). Only beans in their cascade leave, and entries that stay keep their values |
| SingletonRegistry.DefaultSingletonBeanRegistry.DestroyEach | spring-beans/src/main/java/org/springframework/beans/factory/support/DefaultSingletonBeanRegistry.java:627-629 | Every name of the set is destroyed. Nothing outside the set's cascade leaves the tiers or the disposable beans, and entries that stay keep their values. Each destroy() call is for a departing disposable bean, once |
| SingletonRegistry.DefaultSingletonBeanRegistry.RemoveDestroyedBean | spring-beans/src/main/java/org/springframework/beans/factory/support/DefaultSingletonBeanRegistry.java:655-667 | The name leaves every dependent set (emptied sets are dropped) and the dependency map |
| SingletonRegistry.DefaultSingletonBeanRegistry.RemoveFromDependents | spring-beans/src/main/java/org/springframework/beans/factory/support/DefaultSingletonBeanRegistry.java:655-664 | The dependent map becomes `Pruned` of the old one |
| DependencyGraph.Pruned | spring-beans/src/main/java/org/springframework/beans/factory/support/DefaultSingletonBeanRegistry.java:655-664 | Exactly the edges to other names survive, no set is left empty, and no edge is added |
| AopConfigUtils.IndexOf | spring-aop/src/main/java/org/springframework/aop/config/AopConfigUtils.java:180 | The first position of the class in the list, or -1 exactly when it is absent |
| AopConfigUtils.PriorityForClass | spring-aop/src/main/java/org/springframework/aop/config/AopConfigUtils.java:179-181 | -1 exactly for a class outside the priority list; otherwise the position holding that class |
| AopConfigUtils.PriorityForClassName | spring-aop/src/main/java/org/springframework/aop/config/AopConfigUtils.java:183-192 | IllegalArgumentException exactly for a missing or unlisted class name; otherwise the class's priority |
| AopConfigUtils.FindPriorityForClassName | spring-aop/src/main/java/org/springframework/aop/config/AopConfigUtils.java:183-192 | The scan returns the position whose class has the given name, or IllegalArgumentException when none does |
| AopConfigUtils.PriorityIdentifiesClass | spring-aop/src/main/java/org/springframework/aop/config/AopConfigUtils.java:58-67 | Two listed classes have the same priority exactly when they are the same class |
| AopConfigUtils.RegisterOrEscalateApcAsRequired | spring-aop/src/main/java/org/springframework/aop/config/AopConfigUtils.java:144-177 | Result and new registry are those of `RegisterOrEscalate`; an error leaves the registry unchanged |
| AopConfigUtils.RegisterCreatesWhenAbsent | spring-aop/src/main/java/org/springframework/aop/config/AopConfigUtils.java:170-176 | Without a creator definition, one for the requested class is registered and returned. It has order HIGHEST_PRECEDENCE, role infrastructure and the given source. No other entry changes |
| AopConfigUtils.RegisterNeverAddsWhenPresent | spring-aop/src/main/java/org/springframework/aop/config/AopConfigUtils.java:151-168 | With a creator definition the call returns null and adds nothing. Only the resident definition's class name may change |
| AopConfigUtils.RegisterFailsOnlyForUnknownResident | spring-aop/src/main/java/org/springframework/aop/config/AopConfigUtils.java:155-191 | The call fails, with IllegalArgumentException, exactly when the resident class differs from the requested one and is missing or unlisted |
| AopConfigUtils.EscalationTakesHigherPriority | spring-aop/src/main/java/org/springframework/aop/config/AopConfigUtils.java:155-165 | The resident class changes exactly when the requested class has strictly higher priority, and then becomes the requested class. The resident priority becomes the larger of the two, so it never decreases |
| AopConfigUtils.RegisterIdempotent | spring-aop/src/main/java/org/springframework/aop/config/AopConfigUtils.java:155 | Repeating a successful request returns null and changes nothing |
| AopConfigUtils.RegisterEachResidesHighest | spring-aop/src/main/java/org/springframework/aop/config/AopConfigUtils.java:151-168 | After any series of requests for listed classes, the resident priority is the highest among the old resident and the requests |
| AopConfigUtils.RegisterEachFromEmpty | spring-aop/src/main/java/org/springframework/aop/config/AopConfigUtils.java:151-176 | From an empty slot, a series of requests leaves exactly one new definition, whose class has the highest requested priority |
| AopConfigUtils.RegisterEachKeepsKeys | spring-aop/src/main/java/org/springframework/aop/config/AopConfigUtils.java:151-168 | Once a creator is resident, further requests add no definition |
| AopConfigUtils.RegisterAutoProxyCreatorIfNecessary | spring-aop/src/main/java/org/springframework/aop/config/AopConfigUtils.java:75-80 | The escalation protocol for the infrastructure advisor creator |
| AopConfigUtils.RegisterAspectJAutoProxyCreatorIfNecessary | spring-aop/src/main/java/org/springframework/aop/config/AopConfigUtils.java:87-93 | The escalation protocol for the AspectJ-aware advisor creator |
| AopConfigUtils.RegisterAspectJAnnotationAutoProxyCreatorIfNecessary | spring-aop/src/main/java/org/springframework/aop/config/AopConfigUtils.java:107-112 | The escalation protocol for the annotation-aware AspectJ creator |
| AopConfigUtils.ForceAutoProxyCreatorToUseClassProxying | spring-aop/src/main/java/org/springframework/aop/config/AopConfigUtils.java:114-119 | The registry becomes `ForceProperty(_, "proxyTargetClass")` of the old one |
| AopConfigUtils.ForceAutoProxyCreatorToExposeProxy | spring-aop/src/main/java/org/springframework/aop/config/AopConfigUtils.java:126-131 | The registry becomes `ForceProperty(_, "exposeProxy")` of the old one |
| AopConfigUtils.ForceSetsOnlyWhenPresent | spring-aop/src/main/java/org/springframework/aop/config/AopConfigUtils.java:114-131 | Without a creator definition nothing changes. With one, only its property values change: the forced property becomes true and every other property is kept |
| AopConfigUtils.ForcedPropertySurvivesEscalation | spring-aop/src/main/java/org/springframework/aop/config/AopConfigUtils.java:114-165 | A forced property is still true after any later successful escalation |
| DefaultAopProxyFactory.HasNoUserSuppliedProxyInterfaces | spring-aop/src/main/java/org/springframework/aop/framework/DefaultAopProxyFactory.java:97-100 | True exactly when at most one interface is listed and every listed one is assignable to SpringProxy |
| DefaultAopProxyFactory.CreateAopProxy | spring-aop/src/main/java/org/springframework/aop/framework/DefaultAopProxyFactory.java:72-90 | The proxy always wraps the given configuration. AopConfigException is thrown exactly when optimize, proxyTargetClass or "no user interfaces" holds and there is no target class. A CGLIB proxy is returned exactly when one of them holds and the target is neither an interface nor a JDK proxy class; otherwise a JDK proxy |
| DefaultAopProxyFactory.UserInterfacesGetJdkProxy | spring-aop/src/main/java/org/springframework/aop/framework/DefaultAopProxyFactory.java:73-89 | With neither flag set and a user interface listed, the result is a JDK proxy whatever the target |
| DefaultAopProxyFactory.InterfaceTargetGetsJdkProxy | spring-aop/src/main/java/org/springframework/aop/framework/DefaultAopProxyFactory.java:80-89 | An interface or JDK proxy class as target always gets a JDK proxy |
| DefaultAopProxyFactory.ProxyTargetClassGetsCglib | spring-aop/src/main/java/org/springframework/aop/framework/DefaultAopProxyFactory.java:73-84 | With optimize or proxyTargetClass set, a concrete, non-proxy target class always gets a CGLIB proxy |
| DefaultAopProxyFactory.NotClassBasedIgnoresTarget | spring-aop/src/main/java/org/springframework/aop/framework/DefaultAopProxyFactory.java:86-89 | When no condition for class-based proxying holds, the target class does not matter, not even when it is missing |

## Left out

- Concurrency: the `synchronized` blocks and the concurrent maps are left out. The registry is one sequential object.
- `getSingletonMutex` returns the lock object. It has no counterpart in a sequential model.
- `onSuppressedException` and the suppressed-exception list are not modelled. They only attach related causes to a BeanCreationException before it is rethrown; the model rethrows the exception itself.
- Logging is left out, as is the exception a `destroy()` call throws (the registry logs and swallows it). The ghost destroy trace records the call either way.
- `canonicalName` (alias resolution, defined outside this class) is taken as the identity.
- Null-argument assertions (`Assert.notNull`) are left out: Dafny references and names are never null.
- Order is kept where it matters and dropped elsewhere:
  - `LinkedHashSet` iteration order is not kept for the three relations. Sets are used, so the cascade is proved for every iteration order.
  - `registeredSingletons` and the disposable beans keep their insertion order.
- The factory callback of `getSingleton(beanName, singletonFactory)` is reduced to its outcome. Its re-entrant effect on the registry is reduced to binding the same name in the primary tier (`registeredMeanwhile`). Other re-entrant changes are not modelled.
- The one-argument overloads of the three `register*IfNecessary` entry points (AopConfigUtils.java:71-73, 83-85, 96-98) are not separate members: they pass a null source, which is `None` here.
- `Assert.notNull(registry)` in registerOrEscalateApcAsRequired is left out for the same reason as the other null checks.
- Bean definitions are values. The in-place `setBeanClassName` is modelled as replacing the registry's entry, so aliasing between the returned definition and the registered one is not captured.
- `MutablePropertyValues` is a map from property name to value. Its list order and value merging are not modelled.
- Reflection in DefaultAopProxyFactory is replaced by booleans in the configuration: `Class.isInterface`, `Proxy.isProxyClass` and `SpringProxy.class.isAssignableFrom`. Proxy construction itself is out of scope; the result only names the proxy kind over the configuration.
- SingletonRegistry.DefaultSingletonBeanRegistry.DestroyBean: the bound on what leaves covers the cache tiers and the disposable beans. For the graph it states only that entries and edges are removed, never added or changed otherwise, because pruning may drop the emptied dependent set of a bean outside the cascade. The registered names are tied to the tiers by the invariant; their order after a cascade is stated only without a graph.
- SingletonRegistry.DefaultSingletonBeanRegistry.DestroySingleton: the same bound as DestroyBean.
- SingletonRegistry.DefaultSingletonBeanRegistry.ClearSingletonCache: proved on its own fields only. It does not require the whole-registry invariant.
- SingletonRegistry.DefaultSingletonBeanRegistry.RegisterDisposableBean: a registration while singletons are being destroyed is accepted, as in the source; the destruction guarantees are stated for the names present when destruction starts.
- destroySingletons, destroySingleton and destroyBean are split into smaller methods, each covering a block of the Java method: `DestroyInReverseOrder`, `ClearDependencyMaps`, `RemoveSingletonAndDisposable`, `DestroyDependentBeans`, `CallDestroy`, `DestroyContainedBeans`, `RemoveDestroyedBean` and `DestroyEach`. The statements are unchanged.
