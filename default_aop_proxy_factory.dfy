/**
 * DefaultAopProxyFactory: the choice between a JDK dynamic proxy and a
 * CGLIB (Objenesis) proxy for an AOP configuration. The reflective facts
 * the choice reads (is the target class an interface, is it a JDK proxy
 * class, is a proxied interface assignable to SpringProxy) are fields of
 * the configuration.
 */
module DefaultAopProxyFactory {
  import opened Lang

  /** What the choice reads of the target class. */
  datatype TargetClass = TargetClass(isInterface: bool, isProxyClass: bool)

  /** A proxied interface: whether `SpringProxy` is assignable from it. */
  datatype ProxiedInterface = ProxiedInterface(springProxyAssignable: bool)

  /** The parts of an `AdvisedSupport` configuration the choice reads. */
  datatype AdvisedConfig = AdvisedConfig(
    optimize: bool,
    proxyTargetClass: bool,
    proxiedInterfaces: seq<ProxiedInterface>,
    targetClass: Option<TargetClass>)

  /** The two kinds of proxy, each built over the configuration. */
  datatype AopProxy = JdkDynamicAopProxy(config: AdvisedConfig) | ObjenesisCglibAopProxy(config: AdvisedConfig)

  /** The configuration names no interface of the user's: every listed one is SpringProxy itself, and there is at most one. */
  ghost predicate OnlySpringProxyInterfaces(config: AdvisedConfig) {
    && |config.proxiedInterfaces| <= 1
    && forall i :: 0 <= i < |config.proxiedInterfaces| ==> config.proxiedInterfaces[i].springProxyAssignable
  }

  /**
   * hasNoUserSuppliedProxyInterfaces: no proxied interface at all, or just
   * one and SpringProxy is assignable from it.
   */
  function HasNoUserSuppliedProxyInterfaces(config: AdvisedConfig): (r: bool)
    ensures r <==> OnlySpringProxyInterfaces(config)
  {
    var ifcs := config.proxiedInterfaces;
    |ifcs| == 0 || (|ifcs| == 1 && ifcs[0].springProxyAssignable)
  }

  /** Whether the configuration asks for, or leaves no choice but, a class-based proxy. */
  function ClassBased(config: AdvisedConfig): bool {
    config.optimize || config.proxyTargetClass || HasNoUserSuppliedProxyInterfaces(config)
  }

  /**
   * createAopProxy. A configuration that is not class-based gets a JDK
   * proxy. A class-based one needs a target class (AopConfigException
   * otherwise); an interface or JDK proxy class still gets a JDK proxy,
   * any other class a CGLIB proxy.
   */
  function CreateAopProxy(config: AdvisedConfig): (r: Result<AopProxy>)
    ensures r.Ok? ==> r.value.config == config
    ensures r.Err? <==> ClassBased(config) && config.targetClass.None?
    ensures r.Err? ==> r.error == AopConfigException
    ensures r.Ok? && r.value.ObjenesisCglibAopProxy? <==>
      && (config.optimize || config.proxyTargetClass || OnlySpringProxyInterfaces(config))
      && config.targetClass.Some?
      && !config.targetClass.value.isInterface && !config.targetClass.value.isProxyClass
  {
    if ClassBased(config) then
      match config.targetClass
      case None => Err(AopConfigException)
      case Some(targetClass) =>
        if targetClass.isInterface || targetClass.isProxyClass then Ok(JdkDynamicAopProxy(config))
        else Ok(ObjenesisCglibAopProxy(config))
    else Ok(JdkDynamicAopProxy(config))
  }

  /**
   * Without optimize or proxyTargetClass, a configuration that lists an
   * interface of the user's always gets a JDK proxy, whatever its target.
   */
  lemma UserInterfacesGetJdkProxy(config: AdvisedConfig)
    requires !config.optimize && !config.proxyTargetClass
    requires exists i :: 0 <= i < |config.proxiedInterfaces| && !config.proxiedInterfaces[i].springProxyAssignable
    ensures CreateAopProxy(config) == Ok(JdkDynamicAopProxy(config))
  {
  }

  /** An interface or JDK proxy class as target always gets a JDK proxy, whatever the flags. */
  lemma InterfaceTargetGetsJdkProxy(config: AdvisedConfig)
    requires config.targetClass.Some?
    requires config.targetClass.value.isInterface || config.targetClass.value.isProxyClass
    ensures CreateAopProxy(config) == Ok(JdkDynamicAopProxy(config))
  {
  }

  /**
   * Asking for target-class proxying of a concrete, non-proxy class always
   * gets a CGLIB proxy, whatever interfaces are listed.
   */
  lemma ProxyTargetClassGetsCglib(config: AdvisedConfig)
    requires config.proxyTargetClass || config.optimize
    requires config.targetClass.Some?
    requires !config.targetClass.value.isInterface && !config.targetClass.value.isProxyClass
    ensures CreateAopProxy(config) == Ok(ObjenesisCglibAopProxy(config))
  {
  }

  /** The choice never depends on what the target class is when the configuration is not class-based. */
  lemma NotClassBasedIgnoresTarget(config: AdvisedConfig, target: Option<TargetClass>)
    requires !ClassBased(config)
    ensures CreateAopProxy(config.(targetClass := target)) == Ok(JdkDynamicAopProxy(config.(targetClass := target)))
  {
  }
}
