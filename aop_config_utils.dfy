/**
 * AopConfigUtils: the escalation protocol for the single auto-proxy creator
 * of an application context. One bean definition name is reserved for the
 * creator; a request for a creator class registers a definition for it when
 * none exists, and otherwise may only move the resident class UP a fixed
 * three-entry priority list.
 *
 * A class is identified by its fully qualified name (`Class.getName()`).
 * A bean definition is a value: updating the registered definition in place
 * is modelled as replacing the registry's entry for the reserved name.
 */
module AopConfigUtils {
  import opened Lang

  /** A class, identified by its fully qualified name. */
  type ClassName = string

  /** The name reserved for the single auto-proxy creator definition. */
  const AUTO_PROXY_CREATOR_BEAN_NAME: Name := "org.springframework.aop.config.internalAutoProxyCreator"

  const INFRASTRUCTURE_ADVISOR_APC: ClassName :=
    "org.springframework.aop.framework.autoproxy.InfrastructureAdvisorAutoProxyCreator"
  const ASPECTJ_AWARE_ADVISOR_APC: ClassName :=
    "org.springframework.aop.aspectj.autoproxy.AspectJAwareAdvisorAutoProxyCreator"
  const ANNOTATION_AWARE_ASPECTJ_APC: ClassName :=
    "org.springframework.aop.aspectj.annotation.AnnotationAwareAspectJAutoProxyCreator"

  /** Creator classes ranked from lowest to highest: a later entry outranks an earlier one. */
  const APC_PRIORITY_LIST: seq<ClassName> :=
    [INFRASTRUCTURE_ADVISOR_APC, ASPECTJ_AWARE_ADVISOR_APC, ANNOTATION_AWARE_ASPECTJ_APC]

  /** `Ordered.HIGHEST_PRECEDENCE`, that is `Integer.MIN_VALUE`. */
  const HIGHEST_PRECEDENCE: int := -2147483648

  /** `BeanDefinition.ROLE_INFRASTRUCTURE`. */
  const ROLE_INFRASTRUCTURE: int := 2

  /** The names of the two properties the `force*` methods set. */
  const PROXY_TARGET_CLASS: string := "proxyTargetClass"
  const EXPOSE_PROXY: string := "exposeProxy"
  const ORDER: string := "order"

  /** The configuration source object a definition records (opaque). */
  datatype Source = Source(id: nat)

  /** A property value the modelled code stores: an `Integer` or a `Boolean`. */
  datatype PropertyValue = IntValue(intValue: int) | BoolValue(boolValue: bool)

  /** The parts of a bean definition the protocol reads or writes. */
  datatype BeanDefinition = BeanDefinition(
    beanClassName: Option<ClassName>,
    source: Option<Source>,
    propertyValues: map<string, PropertyValue>,
    role: int)

  // ---------------------------------------------------------------------
  // Priorities
  // ---------------------------------------------------------------------

  /** `List.indexOf`: the first position of `x`, or -1 when it is absent. */
  function IndexOf(s: seq<ClassName>, x: ClassName): (r: int)
    ensures -1 <= r < |s|
    ensures r == -1 <==> x !in s
    ensures r >= 0 ==> s[r] == x && forall j :: 0 <= j < r ==> s[j] != x
  {
    if |s| == 0 then -1
    else if s[0] == x then 0
    else
      var k := IndexOf(s[1..], x);
      if k == -1 then -1 else k + 1
  }

  /** findPriorityForClass(Class): the class's place in the list, -1 for a class outside it. */
  function PriorityForClass(cls: ClassName): (r: int)
    ensures r == -1 <==> cls !in APC_PRIORITY_LIST
    ensures r >= 0 ==> r < |APC_PRIORITY_LIST| && APC_PRIORITY_LIST[r] == cls
  {
    IndexOf(APC_PRIORITY_LIST, cls)
  }

  /**
   * findPriorityForClass(String), as a value: the place of the named class
   * in the list, or IllegalArgumentException for a name outside it (and for
   * a definition without a class name).
   */
  function PriorityForClassName(className: Option<ClassName>): (r: Result<int>)
    ensures r.Err? <==> className.None? || className.value !in APC_PRIORITY_LIST
    ensures r.Err? ==> r.error == IllegalArgumentException
    ensures r.Ok? ==> r.value == PriorityForClass(className.value) && 0 <= r.value
  {
    if className.Some? && className.value in APC_PRIORITY_LIST then Ok(IndexOf(APC_PRIORITY_LIST, className.value))
    else Err(IllegalArgumentException)
  }

  /** findPriorityForClass(String): a scan of the priority list. */
  method FindPriorityForClassName(className: Option<ClassName>) returns (r: Result<int>)
    ensures r == PriorityForClassName(className)
    ensures r.Ok? ==> 0 <= r.value < |APC_PRIORITY_LIST| && className == Some(APC_PRIORITY_LIST[r.value])
  {
    var i := 0;
    while i < |APC_PRIORITY_LIST|
      invariant 0 <= i <= |APC_PRIORITY_LIST|
      invariant forall j :: 0 <= j < i ==> className != Some(APC_PRIORITY_LIST[j])
    {
      var clazz := APC_PRIORITY_LIST[i];
      if className == Some(clazz) {
        return Ok(i);
      }
      i := i + 1;
    }
    return Err(IllegalArgumentException);
  }

  /** The priority list names each class once, so a priority names one class. */
  lemma PriorityIdentifiesClass(a: ClassName, b: ClassName)
    requires a in APC_PRIORITY_LIST && b in APC_PRIORITY_LIST
    ensures PriorityForClass(a) == PriorityForClass(b) <==> a == b
  {
    var pa, pb := PriorityForClass(a), PriorityForClass(b);
    assert APC_PRIORITY_LIST[pa] == a && APC_PRIORITY_LIST[pb] == b;
  }

  // ---------------------------------------------------------------------
  // registerOrEscalateApcAsRequired, as a value
  // ---------------------------------------------------------------------

  /** What a registration returns (`null` is None) and the registry's definitions afterwards. */
  datatype Registration = Registration(returned: Option<BeanDefinition>, definitions: map<Name, BeanDefinition>)

  /** The definition created for `cls` when none is registered yet. */
  function NewApcDefinition(cls: ClassName, source: Option<Source>): BeanDefinition {
    BeanDefinition(Some(cls), source, map[ORDER := IntValue(HIGHEST_PRECEDENCE)], ROLE_INFRASTRUCTURE)
  }

  /**
   * registerOrEscalateApcAsRequired. With a definition under the reserved
   * name: nothing is returned, and its class is replaced by `cls` only when
   * `cls` is of strictly higher priority; the resident class's priority is
   * looked up first and an unknown one throws. Without one: a new
   * definition for `cls` is registered and returned.
   */
  function RegisterOrEscalate(defs: map<Name, BeanDefinition>, cls: ClassName, source: Option<Source>)
    : Result<Registration>
  {
    if AUTO_PROXY_CREATOR_BEAN_NAME in defs then
      var apcDefinition := defs[AUTO_PROXY_CREATOR_BEAN_NAME];
      if Some(cls) == apcDefinition.beanClassName then Ok(Registration(None, defs))
      else match PriorityForClassName(apcDefinition.beanClassName)
        case Err(e) => Err(e)
        case Ok(currentPriority) =>
          var requiredPriority := PriorityForClass(cls);
          if currentPriority < requiredPriority then
            Ok(Registration(None, defs[AUTO_PROXY_CREATOR_BEAN_NAME := apcDefinition.(beanClassName := Some(cls))]))
          else Ok(Registration(None, defs))
    else
      var beanDefinition := NewApcDefinition(cls, source);
      Ok(Registration(Some(beanDefinition), defs[AUTO_PROXY_CREATOR_BEAN_NAME := beanDefinition]))
  }

  /** The class registered under the reserved name, if any. */
  function ResidentClass(defs: map<Name, BeanDefinition>): Option<ClassName> {
    if AUTO_PROXY_CREATOR_BEAN_NAME in defs then defs[AUTO_PROXY_CREATOR_BEAN_NAME].beanClassName else None
  }

  /**
   * Without a definition under the reserved name, one is registered for
   * `cls` (order HIGHEST_PRECEDENCE, role infrastructure, the given source)
   * and returned; no other entry changes.
   */
  lemma RegisterCreatesWhenAbsent(defs: map<Name, BeanDefinition>, cls: ClassName, source: Option<Source>)
    requires AUTO_PROXY_CREATOR_BEAN_NAME !in defs
    ensures var r := RegisterOrEscalate(defs, cls, source);
      && r.Ok? && r.value.returned.Some?
      && var bd := r.value.returned.value;
      && bd.beanClassName == Some(cls) && bd.source == source && bd.role == ROLE_INFRASTRUCTURE
      && bd.propertyValues == map[ORDER := IntValue(HIGHEST_PRECEDENCE)]
      && r.value.definitions == defs[AUTO_PROXY_CREATOR_BEAN_NAME := bd]
  {
  }

  /**
   * With a definition under the reserved name nothing is returned or added:
   * the keys stay, every other entry stays, and the resident definition
   * changes at most in its class name.
   */
  lemma RegisterNeverAddsWhenPresent(defs: map<Name, BeanDefinition>, cls: ClassName, source: Option<Source>)
    requires AUTO_PROXY_CREATOR_BEAN_NAME in defs
    requires RegisterOrEscalate(defs, cls, source).Ok?
    ensures var reg := RegisterOrEscalate(defs, cls, source).value;
      && reg.returned == None
      && reg.definitions.Keys == defs.Keys
      && (forall n :: n in defs && n != AUTO_PROXY_CREATOR_BEAN_NAME ==> reg.definitions[n] == defs[n])
      && reg.definitions[AUTO_PROXY_CREATOR_BEAN_NAME]
         == defs[AUTO_PROXY_CREATOR_BEAN_NAME].(beanClassName := reg.definitions[AUTO_PROXY_CREATOR_BEAN_NAME].beanClassName)
  {
  }

  /**
   * The registration fails exactly when a definition is present with a
   * class other than `cls` that the list does not know; the error is an
   * IllegalArgumentException.
   */
  lemma RegisterFailsOnlyForUnknownResident(defs: map<Name, BeanDefinition>, cls: ClassName, source: Option<Source>)
    ensures var r := RegisterOrEscalate(defs, cls, source);
      r.Err? <==> (&& AUTO_PROXY_CREATOR_BEAN_NAME in defs
                   && ResidentClass(defs) != Some(cls)
                   && (ResidentClass(defs).None? || ResidentClass(defs).value !in APC_PRIORITY_LIST))
    ensures var r := RegisterOrEscalate(defs, cls, source);
      r.Err? ==> r.error == IllegalArgumentException
  {
  }

  /**
   * Escalation: a known resident class is replaced only by a class of
   * strictly higher priority, so afterwards the resident priority is the
   * larger of the old one and the requested one; it never decreases.
   */
  lemma EscalationTakesHigherPriority(defs: map<Name, BeanDefinition>, cls: ClassName, source: Option<Source>)
    requires AUTO_PROXY_CREATOR_BEAN_NAME in defs
    requires PriorityForClassName(ResidentClass(defs)).Ok?
    ensures var r := RegisterOrEscalate(defs, cls, source);
      && r.Ok?
      && var current := PriorityForClassName(ResidentClass(defs)).value;
      && var after := ResidentClass(r.value.definitions);
      && (after != ResidentClass(defs) <==> current < PriorityForClass(cls))
      && (after != ResidentClass(defs) ==> after == Some(cls))
      && PriorityForClassName(after) == Ok(if current < PriorityForClass(cls) then PriorityForClass(cls) else current)
  {
    var current := PriorityForClassName(ResidentClass(defs)).value;
    if ResidentClass(defs) == Some(cls) {
      assert current == PriorityForClass(cls);
    }
  }

  /** Requesting the resident class, or repeating a successful request, changes nothing. */
  lemma RegisterIdempotent(defs: map<Name, BeanDefinition>, cls: ClassName, source: Option<Source>, source': Option<Source>)
    requires RegisterOrEscalate(defs, cls, source).Ok?
    ensures var defs' := RegisterOrEscalate(defs, cls, source).value.definitions;
      RegisterOrEscalate(defs', cls, source') == Ok(Registration(None, defs'))
  {
  }

  // ---------------------------------------------------------------------
  // A series of requests
  // ---------------------------------------------------------------------

  /** The registry after each of `classes` has been requested in turn, or the first error. */
  function RegisterEach(defs: map<Name, BeanDefinition>, classes: seq<ClassName>, source: Option<Source>)
    : Result<map<Name, BeanDefinition>>
    decreases |classes|
  {
    if |classes| == 0 then Ok(defs)
    else match RegisterOrEscalate(defs, classes[0], source)
      case Err(e) => Err(e)
      case Ok(reg) => RegisterEach(reg.definitions, classes[1..], source)
  }

  /** The highest priority among `classes` and `floor`. */
  function MaxPriority(floor: int, classes: seq<ClassName>): int
    decreases |classes|
  {
    if |classes| == 0 then floor
    else
      var p := PriorityForClass(classes[0]);
      MaxPriority(if floor < p then p else floor, classes[1..])
  }

  /**
   * Whatever the order of requests for listed classes, once a creator is
   * resident the resident class ends up as the requested or resident class
   * of highest priority.
   */
  lemma {:induction false} RegisterEachResidesHighest(defs: map<Name, BeanDefinition>, classes: seq<ClassName>, source: Option<Source>)
    requires AUTO_PROXY_CREATOR_BEAN_NAME in defs
    requires PriorityForClassName(ResidentClass(defs)).Ok?
    requires forall i :: 0 <= i < |classes| ==> classes[i] in APC_PRIORITY_LIST
    ensures var r := RegisterEach(defs, classes, source);
      && r.Ok?
      && AUTO_PROXY_CREATOR_BEAN_NAME in r.value
      && PriorityForClassName(ResidentClass(r.value))
         == Ok(MaxPriority(PriorityForClassName(ResidentClass(defs)).value, classes))
    decreases |classes|
  {
    if |classes| > 0 {
      EscalationTakesHigherPriority(defs, classes[0], source);
      var reg := RegisterOrEscalate(defs, classes[0], source).value;
      assert forall i :: 0 <= i < |classes[1..]| ==> classes[1..][i] in APC_PRIORITY_LIST by {
        forall i | 0 <= i < |classes[1..]| ensures classes[1..][i] in APC_PRIORITY_LIST {
          assert classes[1..][i] == classes[i + 1];
        }
      }
      RegisterEachResidesHighest(reg.definitions, classes[1..], source);
    }
  }

  /**
   * Starting from an empty slot, a non-empty series of requests for listed
   * classes leaves exactly one creator definition, whose class is the
   * requested one of highest priority.
   */
  lemma RegisterEachFromEmpty(defs: map<Name, BeanDefinition>, classes: seq<ClassName>, source: Option<Source>)
    requires AUTO_PROXY_CREATOR_BEAN_NAME !in defs
    requires |classes| > 0
    requires forall i :: 0 <= i < |classes| ==> classes[i] in APC_PRIORITY_LIST
    ensures var r := RegisterEach(defs, classes, source);
      && r.Ok?
      && r.value.Keys == defs.Keys + {AUTO_PROXY_CREATOR_BEAN_NAME}
      && PriorityForClassName(ResidentClass(r.value)) == Ok(MaxPriority(PriorityForClass(classes[0]), classes[1..]))
  {
    var reg := RegisterOrEscalate(defs, classes[0], source).value;
    assert forall i :: 0 <= i < |classes[1..]| ==> classes[1..][i] in APC_PRIORITY_LIST by {
      forall i | 0 <= i < |classes[1..]| ensures classes[1..][i] in APC_PRIORITY_LIST {
        assert classes[1..][i] == classes[i + 1];
      }
    }
    RegisterEachResidesHighest(reg.definitions, classes[1..], source);
    RegisterEachKeepsKeys(reg.definitions, classes[1..], source);
  }

  /** Once a creator is resident, further requests add no definition. */
  lemma {:induction false} RegisterEachKeepsKeys(defs: map<Name, BeanDefinition>, classes: seq<ClassName>, source: Option<Source>)
    requires AUTO_PROXY_CREATOR_BEAN_NAME in defs
    ensures var r := RegisterEach(defs, classes, source);
      r.Ok? ==> r.value.Keys == defs.Keys
    decreases |classes|
  {
    if |classes| > 0 {
      var r0 := RegisterOrEscalate(defs, classes[0], source);
      if r0.Ok? {
        RegisterNeverAddsWhenPresent(defs, classes[0], source);
        RegisterEachKeepsKeys(r0.value.definitions, classes[1..], source);
      }
    }
  }

  // ---------------------------------------------------------------------
  // forceAutoProxyCreatorTo*, as a value
  // ---------------------------------------------------------------------

  /**
   * forceAutoProxyCreatorToUseClassProxying / ...ToExposeProxy: the named
   * property of the resident definition is set to true, if there is one.
   */
  function ForceProperty(defs: map<Name, BeanDefinition>, property: string): map<Name, BeanDefinition> {
    if AUTO_PROXY_CREATOR_BEAN_NAME in defs then
      var definition := defs[AUTO_PROXY_CREATOR_BEAN_NAME];
      defs[AUTO_PROXY_CREATOR_BEAN_NAME := definition.(propertyValues := definition.propertyValues[property := BoolValue(true)])]
    else defs
  }

  /**
   * A force sets its property on the resident definition only, keeps its
   * other properties and fields, and changes nothing when there is none.
   */
  lemma ForceSetsOnlyWhenPresent(defs: map<Name, BeanDefinition>, property: string)
    ensures var defs' := ForceProperty(defs, property);
      && defs'.Keys == defs.Keys
      && (forall n :: n in defs && n != AUTO_PROXY_CREATOR_BEAN_NAME ==> defs'[n] == defs[n])
      && (AUTO_PROXY_CREATOR_BEAN_NAME !in defs ==> defs' == defs)
      && (AUTO_PROXY_CREATOR_BEAN_NAME in defs ==>
            var before, after := defs[AUTO_PROXY_CREATOR_BEAN_NAME], defs'[AUTO_PROXY_CREATOR_BEAN_NAME];
            && after.propertyValues.Keys == before.propertyValues.Keys + {property}
            && after.propertyValues[property] == BoolValue(true)
            && (forall p :: p in before.propertyValues && p != property ==> after.propertyValues[p] == before.propertyValues[p])
            && after == before.(propertyValues := after.propertyValues))
  {
  }

  /** A forced property survives any later escalation: escalation only rewrites the class name. */
  lemma ForcedPropertySurvivesEscalation(defs: map<Name, BeanDefinition>, property: string, cls: ClassName, source: Option<Source>)
    requires AUTO_PROXY_CREATOR_BEAN_NAME in defs
    requires RegisterOrEscalate(ForceProperty(defs, property), cls, source).Ok?
    ensures var defs' := RegisterOrEscalate(ForceProperty(defs, property), cls, source).value.definitions;
      && AUTO_PROXY_CREATOR_BEAN_NAME in defs'
      && property in defs'[AUTO_PROXY_CREATOR_BEAN_NAME].propertyValues
      && defs'[AUTO_PROXY_CREATOR_BEAN_NAME].propertyValues[property] == BoolValue(true)
  {
    RegisterNeverAddsWhenPresent(ForceProperty(defs, property), cls, source);
  }

  // ---------------------------------------------------------------------
  // The registry and the static entry points
  // ---------------------------------------------------------------------

  /** The bean definition registry the utilities register into. */
  class BeanDefinitionRegistry {
    var beanDefinitions: map<Name, BeanDefinition>

    constructor (definitions: map<Name, BeanDefinition>)
      ensures beanDefinitions == definitions
    {
      beanDefinitions := definitions;
    }
  }

  /** The call returned `r` and left `after`, as RegisterOrEscalate prescribes; an error changes nothing. */
  ghost predicate RegisteredAs(before: map<Name, BeanDefinition>, after: map<Name, BeanDefinition>,
                               r: Result<Option<BeanDefinition>>, cls: ClassName, source: Option<Source>) {
    match RegisterOrEscalate(before, cls, source)
    case Ok(reg) => r == Ok(reg.returned) && after == reg.definitions
    case Err(e) => r == Err(e) && after == before
  }

  /** registerOrEscalateApcAsRequired */
  method RegisterOrEscalateApcAsRequired(cls: ClassName, registry: BeanDefinitionRegistry, source: Option<Source>)
    returns (r: Result<Option<BeanDefinition>>)
    modifies registry
    ensures RegisteredAs(old(registry.beanDefinitions), registry.beanDefinitions, r, cls, source)
  {
    if AUTO_PROXY_CREATOR_BEAN_NAME in registry.beanDefinitions {
      var apcDefinition := registry.beanDefinitions[AUTO_PROXY_CREATOR_BEAN_NAME];
      if Some(cls) != apcDefinition.beanClassName {
        var currentPriority := FindPriorityForClassName(apcDefinition.beanClassName);
        if currentPriority.Err? {
          return Err(currentPriority.error);
        }
        var requiredPriority := PriorityForClass(cls);
        if currentPriority.value < requiredPriority {
          registry.beanDefinitions := registry.beanDefinitions[AUTO_PROXY_CREATOR_BEAN_NAME :=
            apcDefinition.(beanClassName := Some(cls))];
        }
      }
      return Ok(None);
    }
    var beanDefinition := NewApcDefinition(cls, source);
    registry.beanDefinitions := registry.beanDefinitions[AUTO_PROXY_CREATOR_BEAN_NAME := beanDefinition];
    return Ok(Some(beanDefinition));
  }

  /** registerAutoProxyCreatorIfNecessary: requests the infrastructure advisor creator. */
  method RegisterAutoProxyCreatorIfNecessary(registry: BeanDefinitionRegistry, source: Option<Source>)
    returns (r: Result<Option<BeanDefinition>>)
    modifies registry
    ensures RegisteredAs(old(registry.beanDefinitions), registry.beanDefinitions, r, INFRASTRUCTURE_ADVISOR_APC, source)
  {
    r := RegisterOrEscalateApcAsRequired(INFRASTRUCTURE_ADVISOR_APC, registry, source);
  }

  /** registerAspectJAutoProxyCreatorIfNecessary: requests the AspectJ-aware advisor creator. */
  method RegisterAspectJAutoProxyCreatorIfNecessary(registry: BeanDefinitionRegistry, source: Option<Source>)
    returns (r: Result<Option<BeanDefinition>>)
    modifies registry
    ensures RegisteredAs(old(registry.beanDefinitions), registry.beanDefinitions, r, ASPECTJ_AWARE_ADVISOR_APC, source)
  {
    r := RegisterOrEscalateApcAsRequired(ASPECTJ_AWARE_ADVISOR_APC, registry, source);
  }

  /** registerAspectJAnnotationAutoProxyCreatorIfNecessary: requests the annotation-aware AspectJ creator. */
  method RegisterAspectJAnnotationAutoProxyCreatorIfNecessary(registry: BeanDefinitionRegistry, source: Option<Source>)
    returns (r: Result<Option<BeanDefinition>>)
    modifies registry
    ensures RegisteredAs(old(registry.beanDefinitions), registry.beanDefinitions, r, ANNOTATION_AWARE_ASPECTJ_APC, source)
  {
    r := RegisterOrEscalateApcAsRequired(ANNOTATION_AWARE_ASPECTJ_APC, registry, source);
  }

  /** forceAutoProxyCreatorToUseClassProxying */
  method ForceAutoProxyCreatorToUseClassProxying(registry: BeanDefinitionRegistry)
    modifies registry
    ensures registry.beanDefinitions == ForceProperty(old(registry.beanDefinitions), PROXY_TARGET_CLASS)
  {
    if AUTO_PROXY_CREATOR_BEAN_NAME in registry.beanDefinitions {
      var definition := registry.beanDefinitions[AUTO_PROXY_CREATOR_BEAN_NAME];
      registry.beanDefinitions := registry.beanDefinitions[AUTO_PROXY_CREATOR_BEAN_NAME :=
        definition.(propertyValues := definition.propertyValues[PROXY_TARGET_CLASS := BoolValue(true)])];
    }
  }

  /** forceAutoProxyCreatorToExposeProxy */
  method ForceAutoProxyCreatorToExposeProxy(registry: BeanDefinitionRegistry)
    modifies registry
    ensures registry.beanDefinitions == ForceProperty(old(registry.beanDefinitions), EXPOSE_PROXY)
  {
    if AUTO_PROXY_CREATOR_BEAN_NAME in registry.beanDefinitions {
      var definition := registry.beanDefinitions[AUTO_PROXY_CREATOR_BEAN_NAME];
      registry.beanDefinitions := registry.beanDefinitions[AUTO_PROXY_CREATOR_BEAN_NAME :=
        definition.(propertyValues := definition.propertyValues[EXPOSE_PROXY := BoolValue(true)])];
    }
  }
}
