/** The method handler of an intercepted instance: which interception a call starts, and
    the per-method cache of interceptor chains. */
module InterceptorHandlers {
  import opened Outcomes

  type Method = string
  type Instance = string

  /** An interceptor chain: the interceptor method invocations, in order. */
  type Chain = seq<string>

  datatype InterceptionType = POST_CONSTRUCT | PRE_DESTROY | AROUND_INVOKE

  /** The reserved names of the lifecycle callbacks the proxy forwards without a proceed
      method (`InterceptionUtils.POST_CONSTRUCT` and `PRE_DESTROY`, whose values are not
      part of this model). */
  datatype LifecycleNames = LifecycleNames(postConstruct: Method, preDestroy: Method)

  /** The interception context's services: building the chain for a method (none for a
      lifecycle callback) and the target class's own interceptor methods. */
  datatype InterceptionContext = InterceptionContext(
    buildChain: (Instance, Option<Method>, InterceptionType) -> Chain,
    isInterceptorMethod: Method -> bool)

  datatype Handler = Handler(ctx: InterceptionContext, cachedChains: map<Method, Chain>)

  /** What a call ends up doing. */
  datatype Dispatch =
    | ReturnNull                                   // nothing to run
    | ProceedDirectly(proceedMethod: Method)       // the proceed method is called, bypassing any chain
    | ProceedUnwrapped(targetMethod: Method)       // empty chain: the proceed method is called reflectively
    | RunChain(chain: Chain, interceptionType: InterceptionType)

  /** `getInterceptionChain`: for a method, the cached chain, or a newly built one stored
      with put-if-absent; `raced` is an entry another thread stored in between, which then
      wins. A lifecycle callback (no method) is built every time and never cached. */
  function GetInterceptionChain(h: Handler, instance: Instance, target: Option<Method>, interceptionType: InterceptionType,
                                raced: Option<Chain>): (r: (Handler, Chain))
    ensures r.0.ctx == h.ctx
    ensures target.None? ==> r.0 == h && r.1 == h.ctx.buildChain(instance, None, interceptionType)
    ensures target.Some? && target.value in h.cachedChains ==> r == (h, h.cachedChains[target.value])
    ensures target.Some? && target.value !in h.cachedChains ==>
              && r.1 == (if raced.Some? then raced.value else h.ctx.buildChain(instance, target, interceptionType))
              && r.0.cachedChains == h.cachedChains[target.value := r.1]
    ensures target.Some? ==> target.value in r.0.cachedChains && r.0.cachedChains[target.value] == r.1
    ensures forall m :: m in h.cachedChains ==> m in r.0.cachedChains && r.0.cachedChains[m] == h.cachedChains[m]
  {
    match target
    case None => (h, h.ctx.buildChain(instance, None, interceptionType))
    case Some(m) =>
      if m in h.cachedChains then (h, h.cachedChains[m])
      else
        var built := h.ctx.buildChain(instance, target, interceptionType);
        var chain := if raced.Some? then raced.value else built;
        (h.(cachedChains := h.cachedChains[m := chain]), chain)
  }

  /** `executeInterception`: an empty chain means no interceptors, so the call goes straight
      to the proceed method, or returns null when there is none. */
  function ExecuteInterception(h: Handler, instance: Instance, target: Option<Method>, proceed: Option<Method>,
                               interceptionType: InterceptionType, raced: Option<Chain>): (r: (Handler, Dispatch))
    ensures var (h1, chain) := GetInterceptionChain(h, instance, target, interceptionType, raced);
            && r.0 == h1
            && (|chain| == 0 && proceed.None? ==> r.1 == ReturnNull)
            && (|chain| == 0 && proceed.Some? ==> r.1 == ProceedUnwrapped(proceed.value))
            && (|chain| > 0 ==> r.1 == RunChain(chain, interceptionType))
  {
    var (h1, chain) := GetInterceptionChain(h, instance, target, interceptionType, raced);
    if |chain| == 0 then
      if proceed.None? then (h1, ReturnNull) else (h1, ProceedUnwrapped(proceed.value))
    else (h1, RunChain(chain, interceptionType))
  }

  /** `invoke`: without a proceed method only the two lifecycle callbacks are intercepted
      (any other name returns null); with one, the target class's own interceptor methods
      are called directly and every other method goes through AROUND_INVOKE. */
  function Invoke(h: Handler, names: LifecycleNames, self: Instance, thisMethod: Method, proceed: Option<Method>,
                  raced: Option<Chain>): (r: (Handler, Dispatch))
    ensures proceed.None? && thisMethod == names.postConstruct ==>
              r == ExecuteInterception(h, self, None, None, POST_CONSTRUCT, raced)
    ensures proceed.None? && thisMethod != names.postConstruct && thisMethod == names.preDestroy ==>
              r == ExecuteInterception(h, self, None, None, PRE_DESTROY, raced)
    ensures proceed.None? && thisMethod != names.postConstruct && thisMethod != names.preDestroy ==>
              r == (h, ReturnNull)
    ensures proceed.Some? && h.ctx.isInterceptorMethod(thisMethod) ==> r == (h, ProceedDirectly(proceed.value))
    ensures proceed.Some? && !h.ctx.isInterceptorMethod(thisMethod) ==>
              r == ExecuteInterception(h, self, Some(thisMethod), proceed, AROUND_INVOKE, raced)
    ensures proceed.None? ==> r.0 == h
  {
    if proceed.None? then
      if thisMethod == names.postConstruct then ExecuteInterception(h, self, None, None, POST_CONSTRUCT, raced)
      else if thisMethod == names.preDestroy then ExecuteInterception(h, self, None, None, PRE_DESTROY, raced)
      else (h, ReturnNull)
    else if h.ctx.isInterceptorMethod(thisMethod) then (h, ProceedDirectly(proceed.value))
    else ExecuteInterception(h, self, Some(thisMethod), proceed, AROUND_INVOKE, raced)
  }

  // ---- properties ----

  /** The first chain stored for a method is the one every later lookup returns, whatever
      a later build or race would give. */
  lemma FirstStoredChainWins(h: Handler, i1: Instance, i2: Instance, m: Method, t1: InterceptionType, t2: InterceptionType,
                             race1: Option<Chain>, race2: Option<Chain>)
    ensures var (h1, c1) := GetInterceptionChain(h, i1, Some(m), t1, race1);
            GetInterceptionChain(h1, i2, Some(m), t2, race2) == (h1, c1)
  {
  }

  /** Lifecycle callbacks never add cache entries. */
  lemma LifecycleCallbacksNotCached(h: Handler, names: LifecycleNames, self: Instance, thisMethod: Method, raced: Option<Chain>)
    ensures Invoke(h, names, self, thisMethod, None, raced).0.cachedChains == h.cachedChains
  {
  }

  /** A business method with no interceptors is forwarded to its proceed method, and its
      (empty) chain is cached. */
  lemma UninterceptedMethodProceeds(h: Handler, names: LifecycleNames, self: Instance, m: Method, proceed: Method)
    requires !h.ctx.isInterceptorMethod(m) && m !in h.cachedChains
    requires h.ctx.buildChain(self, Some(m), AROUND_INVOKE) == []
    ensures var (h1, d) := Invoke(h, names, self, m, Some(proceed), None);
            d == ProceedUnwrapped(proceed) && h1.cachedChains == h.cachedChains[m := []]
  {
  }
}
