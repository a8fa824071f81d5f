/** The AfterBeanDiscovery event: the checks made on beans, contexts and observer methods
    that extensions add, and the registration deferred until every observer has run. */
module AfterBeanDiscovery {
  import opened Outcomes
  import opened JavaTypes
  import opened Throwables
  import opened SeqUtil

  type ObserverRef = string
  type ContextRef = string

  /** What sort of bean an extension supplied, with the metadata each sort is checked on;
      `None` stands for a getter returning null. */
  datatype BeanSort =
    | PlainBean
    | InterceptorBean(interceptorBindings: Option<set<ClassName>>)
    | DecoratorBean(delegateType: Option<JType>, decoratedTypes: Option<set<JType>>, delegateQualifiers: set<ClassName>)

  /** A bean added by an extension. `passivationId` is `None` when the bean is not
      PassivationCapable, and `Some(None)` when its id is null. */
  datatype CustomBean = CustomBean(
    name: string,
    beanClass: Option<ClassName>,
    injectionPoints: Option<set<string>>,
    passivationId: Option<Option<string>>,
    sort: BeanSort)

  /** The services the checks consult; none is part of this model. */
  datatype Checks = Checks(
    withinObserverNotification: bool,
    validateBeanAttributes: CustomBean -> Option<Throwable>,
    isInterceptorBinding: ClassName -> bool,
    validateQualifiers: set<ClassName> -> Option<Throwable>,
    validateObserverMethod: ObserverRef -> Option<Throwable>,
    contextScope: ContextRef -> Option<ClassName>)

  /** The event's state: beans and observers waiting for `finish`, and the contexts handed
      to the bean manager right away. */
  datatype Event = Event(additionalBeans: seq<CustomBean>, additionalObservers: seq<ObserverRef>, addedContexts: seq<ContextRef>)

  const EMPTY_EVENT: Event := Event([], [], [])

  const OUTSIDE_OBSERVER_NOTIFICATION: Throwable := IllegalState("eventMethodCalledOutsideObserverNotification")
  const GET_BEAN_CLASS_NULL: Throwable := DefinitionProblem("beanMethodReturnsNull getBeanClass")
  const GET_INJECTION_POINTS_NULL: Throwable := DefinitionProblem("beanMethodReturnsNull getInjectionPoints")
  const PASSIVATION_CAPABLE_NULL_ID: Throwable := DefinitionProblem("passivationCapableBeanHasNullId")
  const NULL_INTERCEPTOR_BINDINGS: Throwable := DefinitionProblem("nullInterceptorBindings")
  const GET_DELEGATE_TYPE_NULL: Throwable := DefinitionProblem("decoratorMethodReturnsNull getDelegateType")
  const GET_DECORATED_TYPES_NULL: Throwable := DefinitionProblem("decoratorMethodReturnsNull getDecoratedTypes")
  const CONTEXT_HAS_NULL_SCOPE: Throwable := DefinitionProblem("contextHasNullScope")

  /** `notAnInterceptorBinding`, naming the offending annotation. */
  function NotAnInterceptorBinding(annotation: ClassName): Throwable {
    DefinitionProblem("notAnInterceptorBinding " + annotation)
  }

  /** `Preconditions.checkArgumentNotNull`. */
  function NullArgument(argumentName: string): Throwable {
    IllegalArgument(argumentName)
  }

  /** `validateInterceptor`: the bindings must be non-null and each an interceptor binding;
      the bindings are scanned in their (unspecified) iteration order, so the offender named
      is one of possibly several. */
  method ValidateInterceptor(bindings: Option<set<ClassName>>, checks: Checks) returns (r: Option<Throwable>)
    ensures bindings.None? ==> r == Some(NULL_INTERCEPTOR_BINDINGS)
    ensures bindings.Some? ==>
              (r.None? <==> forall a :: a in bindings.value ==> checks.isInterceptorBinding(a))
    ensures bindings.Some? && r.Some? ==>
              exists a :: a in bindings.value && !checks.isInterceptorBinding(a) && r.value == NotAnInterceptorBinding(a)
  {
    if bindings.None? {
      return Some(NULL_INTERCEPTOR_BINDINGS);
    }
    var remaining := bindings.value;
    while remaining != {}
      invariant remaining <= bindings.value
      invariant forall a :: a in bindings.value - remaining ==> checks.isInterceptorBinding(a)
      decreases |remaining|
    {
      var a :| a in remaining;
      if !checks.isInterceptorBinding(a) {
        return Some(NotAnInterceptorBinding(a));
      }
      remaining := remaining - {a};
    }
    assert bindings.value - remaining == bindings.value;
    return None;
  }

  /** `validateDecorator`: delegate type non-null, qualifiers valid, decorated types
      non-null, checked in that order. */
  function ValidateDecorator(delegateType: Option<JType>, decoratedTypes: Option<set<JType>>, qualifiers: set<ClassName>,
                             checks: Checks): (r: Option<Throwable>)
    ensures r.None? <==> delegateType.Some? && checks.validateQualifiers(qualifiers).None? && decoratedTypes.Some?
    ensures delegateType.None? ==> r == Some(GET_DELEGATE_TYPE_NULL)
    ensures delegateType.Some? && checks.validateQualifiers(qualifiers).Some? ==> r == checks.validateQualifiers(qualifiers)
    ensures delegateType.Some? && checks.validateQualifiers(qualifiers).None? && decoratedTypes.None? ==> r == Some(GET_DECORATED_TYPES_NULL)
  {
    if delegateType.None? then Some(GET_DELEGATE_TYPE_NULL)
    else if checks.validateQualifiers(qualifiers).Some? then checks.validateQualifiers(qualifiers)
    else if decoratedTypes.None? then Some(GET_DECORATED_TYPES_NULL)
    else None
  }

  /** The checks of `validateBean` that come before the sort-specific ones, in order. */
  function ValidateCommon(bean: CustomBean): (r: Option<Throwable>)
    ensures r.None? <==> bean.beanClass.Some? && bean.injectionPoints.Some? && bean.passivationId != Some(None)
    ensures bean.beanClass.None? ==> r == Some(GET_BEAN_CLASS_NULL)
    ensures bean.beanClass.Some? && bean.injectionPoints.None? ==> r == Some(GET_INJECTION_POINTS_NULL)
    ensures bean.beanClass.Some? && bean.injectionPoints.Some? && bean.passivationId == Some(None) ==> r == Some(PASSIVATION_CAPABLE_NULL_ID)
  {
    if bean.beanClass.None? then Some(GET_BEAN_CLASS_NULL)
    else if bean.injectionPoints.None? then Some(GET_INJECTION_POINTS_NULL)
    else if bean.passivationId == Some(None) then Some(PASSIVATION_CAPABLE_NULL_ID)
    else None
  }

  /** A bean every check of `validateBean` accepts. */
  predicate ValidBean(bean: CustomBean, checks: Checks) {
    && ValidateCommon(bean).None?
    && (bean.sort.InterceptorBean? ==>
          bean.sort.interceptorBindings.Some? && forall a :: a in bean.sort.interceptorBindings.value ==> checks.isInterceptorBinding(a))
    && (bean.sort.DecoratorBean? ==>
          ValidateDecorator(bean.sort.delegateType, bean.sort.decoratedTypes, bean.sort.delegateQualifiers, checks).None?)
  }

  /** `validateBean`. */
  method ValidateBean(bean: CustomBean, checks: Checks) returns (r: Option<Throwable>)
    ensures r.None? <==> ValidBean(bean, checks)
    ensures ValidateCommon(bean).Some? ==> r == ValidateCommon(bean)
  {
    r := ValidateCommon(bean);
    if r.Some? {
      return;
    }
    match bean.sort {
      case PlainBean =>
      case InterceptorBean(bindings) =>
        r := ValidateInterceptor(bindings, checks);
      case DecoratorBean(delegateType, decoratedTypes, qualifiers) =>
        r := ValidateDecorator(delegateType, decoratedTypes, qualifiers, checks);
    }
  }

  /** `addBean`: outside a notification, a null bean, invalid attributes and an invalid bean
      are rejected; a valid bean is queued at the end. */
  method AddBean(e: Event, bean: Option<CustomBean>, checks: Checks) returns (r: Result<Event, Throwable>)
    ensures !checks.withinObserverNotification ==> r == Err(OUTSIDE_OBSERVER_NOTIFICATION)
    ensures checks.withinObserverNotification && bean.None? ==> r == Err(NullArgument("bean"))
    ensures r.Ok? <==> checks.withinObserverNotification && bean.Some?
                       && checks.validateBeanAttributes(bean.value).None? && ValidBean(bean.value, checks)
    ensures r.Ok? ==> r.value == e.(additionalBeans := e.additionalBeans + [bean.value])
  {
    if !checks.withinObserverNotification {
      return Err(OUTSIDE_OBSERVER_NOTIFICATION);
    }
    if bean.None? {
      return Err(NullArgument("bean"));
    }
    var attributesProblem := checks.validateBeanAttributes(bean.value);
    if attributesProblem.Some? {
      return Err(attributesProblem.value);
    }
    var problem := ValidateBean(bean.value, checks);
    if problem.Some? {
      return Err(problem.value);
    }
    return Ok(e.(additionalBeans := e.additionalBeans + [bean.value]));
  }

  /** `addContext`: a context with a null scope is rejected; any other is passed to the bean
      manager at once, without checking that the scope is a scope. */
  function AddContext(e: Event, context: Option<ContextRef>, checks: Checks): (r: Result<Event, Throwable>)
    ensures !checks.withinObserverNotification ==> r == Err(OUTSIDE_OBSERVER_NOTIFICATION)
    ensures checks.withinObserverNotification && context.None? ==> r == Err(NullArgument("context"))
    ensures checks.withinObserverNotification && context.Some? && checks.contextScope(context.value).None? ==> r == Err(CONTEXT_HAS_NULL_SCOPE)
    ensures r.Ok? <==> checks.withinObserverNotification && context.Some? && checks.contextScope(context.value).Some?
    ensures r.Ok? ==> r.value == e.(addedContexts := e.addedContexts + [context.value])
  {
    if !checks.withinObserverNotification then Err(OUTSIDE_OBSERVER_NOTIFICATION)
    else if context.None? then Err(NullArgument("context"))
    else if checks.contextScope(context.value).None? then Err(CONTEXT_HAS_NULL_SCOPE)
    else Ok(e.(addedContexts := e.addedContexts + [context.value]))
  }

  /** `addObserverMethod`: a null or invalid observer method is rejected; a valid one is
      queued at the end. */
  function AddObserverMethod(e: Event, observer: Option<ObserverRef>, checks: Checks): (r: Result<Event, Throwable>)
    ensures !checks.withinObserverNotification ==> r == Err(OUTSIDE_OBSERVER_NOTIFICATION)
    ensures checks.withinObserverNotification && observer.None? ==> r == Err(NullArgument("observerMethod"))
    ensures r.Ok? <==> checks.withinObserverNotification && observer.Some? && checks.validateObserverMethod(observer.value).None?
    ensures r.Ok? ==> r.value == e.(additionalObservers := e.additionalObservers + [observer.value])
  {
    if !checks.withinObserverNotification then Err(OUTSIDE_OBSERVER_NOTIFICATION)
    else if observer.None? then Err(NullArgument("observerMethod"))
    else if checks.validateObserverMethod(observer.value).Some? then Err(checks.validateObserverMethod(observer.value).value)
    else Ok(e.(additionalObservers := e.additionalObservers + [observer.value]))
  }

  // ---- deferred registration ----

  /** What `finish` does to the bean managers, in order. */
  datatype Registration =
    | AddedInterceptor(interceptor: CustomBean)
    | AddedDecorator(decorator: CustomBean)   // wrapped in a CustomDecoratorWrapper
    | AddedBean(bean: CustomBean)
    | FiredProcessBean(firedFor: CustomBean)
    | AddedObserver(observer: ObserverRef)

  /** The container services `finish` calls, none part of this model: the ProcessBean and
      ProcessObserverMethod notifications (each may throw; the latter may replace or drop
      the observer) and the enabled check. */
  datatype Services = Services(
    fireProcessBean: CustomBean -> Option<Throwable>,
    isObserverMethodEnabled: ObserverRef -> bool,
    fireProcessObserverMethod: ObserverRef -> Result<Option<ObserverRef>, Throwable>)

  datatype FinishRun = FinishRun(registrations: seq<Registration>, thrown: Option<Throwable>)

  /** `processBean`: the bean is added as an interceptor, a decorator or a plain bean, then
      ProcessBean is fired for it. */
  function ProcessBean(bean: CustomBean): (r: seq<Registration>)
    ensures |r| == 2 && r[1] == FiredProcessBean(bean)
    ensures r[0] == (if bean.sort.InterceptorBean? then AddedInterceptor(bean)
                     else if bean.sort.DecoratorBean? then AddedDecorator(bean) else AddedBean(bean))
  {
    var added := match bean.sort
      case InterceptorBean(_) => AddedInterceptor(bean)
      case DecoratorBean(_, _, _) => AddedDecorator(bean)
      case PlainBean => AddedBean(bean);
    [added, FiredProcessBean(bean)]
  }

  /** The bean loop of `finish`; it stops at the first ProcessBean failure. */
  function ProcessBeans(beans: seq<CustomBean>, services: Services): (r: FinishRun)
    ensures r.thrown.None? <==> forall i :: 0 <= i < |beans| ==> services.fireProcessBean(beans[i]).None?
    ensures r.thrown.Some? ==> exists i :: 0 <= i < |beans| && services.fireProcessBean(beans[i]) == r.thrown
    decreases |beans|
  {
    if |beans| == 0 then FinishRun([], None)
    else
      var steps := ProcessBean(beans[0]);
      var thrown := services.fireProcessBean(beans[0]);
      if thrown.Some? then FinishRun(steps, thrown)
      else
        var rest := ProcessBeans(beans[1..], services);
        FinishRun(steps + rest.registrations, rest.thrown)
  }

  /** What ProcessObserverMethod leaves of an observer: the processed observer, or
      nothing when it was dropped (or the notification failed). */
  function Processed(services: Services, observer: ObserverRef): Option<ObserverRef> {
    match services.fireProcessObserverMethod(observer)
    case Ok(processed) => processed
    case Err(_) => None
  }

  /** The reference for the observer half of `finish`: keep the enabled observers, process
      each, drop the null results, and add the rest in order. */
  function EnabledProcessed(observers: seq<ObserverRef>, services: Services): seq<Registration> {
    var processed := Map(Filter(observers, services.isObserverMethodEnabled), (o: ObserverRef) => Processed(services, o));
    Map(Somes(processed), (o: ObserverRef) => AddedObserver(o))
  }

  lemma EnabledProcessedCons(observers: seq<ObserverRef>, services: Services)
    requires |observers| > 0
    ensures EnabledProcessed(observers, services) ==
              (if services.isObserverMethodEnabled(observers[0]) && Processed(services, observers[0]).Some?
               then [AddedObserver(Processed(services, observers[0]).value)] else [])
              + EnabledProcessed(observers[1..], services)
  {
    var f := (o: ObserverRef) => Processed(services, o);
    var g := (o: ObserverRef) => AddedObserver(o);
    var rest := Filter(observers[1..], services.isObserverMethodEnabled);
    if services.isObserverMethodEnabled(observers[0]) {
      var kept := [observers[0]] + rest;
      assert Filter(observers, services.isObserverMethodEnabled) == kept;
      MapCons(kept, f);
      assert kept[1..] == rest;
      var processed := Map(kept, f);
      assert processed[1..] == Map(rest, f);
      if f(observers[0]).Some? {
        MapCons(Somes(processed), g);
        assert Somes(processed)[1..] == Somes(Map(rest, f));
      }
    }
  }

  /** The observer loop of `finish`: only enabled observers are processed, and only a
      non-null processed observer is added. The first failing notification stops the loop. */
  function ProcessObservers(observers: seq<ObserverRef>, services: Services): (r: FinishRun)
    ensures r.thrown.None? <==>
              forall i :: 0 <= i < |observers| && services.isObserverMethodEnabled(observers[i]) ==>
                services.fireProcessObserverMethod(observers[i]).Ok?
    ensures r.thrown.None? ==> r.registrations == EnabledProcessed(observers, services)
    decreases |observers|
  {
    if |observers| == 0 then FinishRun([], None)
    else
      EnabledProcessedCons(observers, services);
      if !services.isObserverMethodEnabled(observers[0]) then ProcessObservers(observers[1..], services)
      else
        match services.fireProcessObserverMethod(observers[0])
        case Err(t) => FinishRun([], Some(t))
        case Ok(processed) =>
          var rest := ProcessObservers(observers[1..], services);
          FinishRun((if processed.Some? then [AddedObserver(processed.value)] else []) + rest.registrations, rest.thrown)
  }

  /** What the observer loop throws is what some enabled observer's notification threw. */
  lemma {:induction false} ObserverFailureComesFromObserver(observers: seq<ObserverRef>, services: Services)
    requires ProcessObservers(observers, services).thrown.Some?
    ensures exists i :: && 0 <= i < |observers| && services.isObserverMethodEnabled(observers[i])
                        && services.fireProcessObserverMethod(observers[i]) == Err(ProcessObservers(observers, services).thrown.value)
  {
    var t := ProcessObservers(observers, services).thrown.value;
    if services.isObserverMethodEnabled(observers[0]) && services.fireProcessObserverMethod(observers[0]).Err? {
      assert services.fireProcessObserverMethod(observers[0]) == Err(t);
    } else {
      ObserverFailureComesFromObserver(observers[1..], services);
      var i :| && 0 <= i < |observers[1..]| && services.isObserverMethodEnabled(observers[1..][i])
               && services.fireProcessObserverMethod(observers[1..][i]) == Err(t);
      assert observers[i + 1] == observers[1..][i];
    }
  }

  /** A failing ProcessObserverMethod notification stops the loop: the enabled observers
      before it were processed and added unless dropped, and nothing after it is touched. */
  lemma {:induction false} ProcessObserversStopsAtFailure(observers: seq<ObserverRef>, services: Services, k: nat)
    requires k < |observers| && services.isObserverMethodEnabled(observers[k])
    requires services.fireProcessObserverMethod(observers[k]).Err?
    requires forall i :: 0 <= i < k && services.isObserverMethodEnabled(observers[i]) ==>
               services.fireProcessObserverMethod(observers[i]).Ok?
    ensures ProcessObservers(observers, services) ==
              FinishRun(EnabledProcessed(observers[..k], services), Some(services.fireProcessObserverMethod(observers[k]).error))
  {
    if k == 0 {
      assert observers[..0] == [];
    } else {
      ProcessObserversStopsAtFailure(observers[1..], services, k - 1);
      assert observers[..k][1..] == observers[1..][..k - 1];
      EnabledProcessedCons(observers[..k], services);
    }
  }

  /** `finish`: beans first, then observers; an Exception from either loop is wrapped in a
      DefinitionException, while an Error escapes unwrapped. */
  function Finish(e: Event, services: Services): (r: FinishRun)
    ensures r.thrown.None? <==>
              && (forall i :: 0 <= i < |e.additionalBeans| ==> services.fireProcessBean(e.additionalBeans[i]).None?)
              && (forall i :: 0 <= i < |e.additionalObservers| && services.isObserverMethodEnabled(e.additionalObservers[i]) ==>
                    services.fireProcessObserverMethod(e.additionalObservers[i]).Ok?)
    ensures r.thrown.Some? ==>
              exists t :: && ((exists i :: 0 <= i < |e.additionalBeans| && services.fireProcessBean(e.additionalBeans[i]) == Some(t))
                              || (exists i :: 0 <= i < |e.additionalObservers| && services.isObserverMethodEnabled(e.additionalObservers[i])
                                                && services.fireProcessObserverMethod(e.additionalObservers[i]) == Err(t)))
                          && r.thrown == Some(if IsException(t) then DefinitionException([t]) else t)
  {
    var beans := ProcessBeans(e.additionalBeans, services);
    var run := if beans.thrown.Some? then beans
               else
                 var observers := ProcessObservers(e.additionalObservers, services);
                 if observers.thrown.Some? then
                   ObserverFailureComesFromObserver(e.additionalObservers, services);
                   FinishRun(beans.registrations + observers.registrations, observers.thrown)
                 else FinishRun(beans.registrations + observers.registrations, observers.thrown);
    match run.thrown
    case Some(t) => if IsException(t) then FinishRun(run.registrations, Some(DefinitionException([t]))) else run
    case None => run
  }

  // ---- reference definitions and properties ----

  /** The registrations of a run where nothing fails, for beans: each bean's two steps, in
      insertion order. */
  function BeanRegistrations(beans: seq<CustomBean>): (r: seq<Registration>)
    ensures |r| == 2 * |beans|
    ensures forall i :: 0 <= i < |beans| ==> r[2 * i] == ProcessBean(beans[i])[0] && r[2 * i + 1] == FiredProcessBean(beans[i])
  {
    if |beans| == 0 then [] else ProcessBean(beans[0]) + BeanRegistrations(beans[1..])
  }


  /** When no ProcessBean notification fails, every queued bean is registered and announced,
      in insertion order. */
  lemma {:induction false} ProcessBeansInOrder(beans: seq<CustomBean>, services: Services)
    requires forall i :: 0 <= i < |beans| ==> services.fireProcessBean(beans[i]).None?
    ensures ProcessBeans(beans, services) == FinishRun(BeanRegistrations(beans), None)
  {
    if |beans| > 0 {
      ProcessBeansInOrder(beans[1..], services);
    }
  }

  /** A failing ProcessBean notification stops the loop: the beans before it were all
      processed, the failing one was registered, and nothing after it was touched. */
  lemma {:induction false} ProcessBeansStopsAtFailure(beans: seq<CustomBean>, services: Services, k: nat)
    requires k < |beans| && services.fireProcessBean(beans[k]).Some?
    requires forall i :: 0 <= i < k ==> services.fireProcessBean(beans[i]).None?
    ensures ProcessBeans(beans, services) ==
              FinishRun(BeanRegistrations(beans[..k + 1]), services.fireProcessBean(beans[k]))
  {
    if k == 0 {
      assert beans[..1] == [beans[0]];
      assert BeanRegistrations(beans[..1]) == ProcessBean(beans[0]) + BeanRegistrations([]);
    } else {
      ProcessBeansStopsAtFailure(beans[1..], services, k - 1);
      assert beans[1..][..k] == beans[..k + 1][1..];
    }
  }

  /** An observer is added exactly when it comes from an enabled queued observer whose
      ProcessObserverMethod notification left a non-null processed observer. */
  lemma {:induction false} AddedIffEnabledAndProcessed(observers: seq<ObserverRef>, services: Services, x: ObserverRef)
    ensures AddedObserver(x) in EnabledProcessed(observers, services) <==>
              exists i :: 0 <= i < |observers| && services.isObserverMethodEnabled(observers[i])
                          && Processed(services, observers[i]) == Some(x)
  {
    if |observers| > 0 {
      EnabledProcessedCons(observers, services);
      AddedIffEnabledAndProcessed(observers[1..], services, x);
      if exists i :: 0 <= i < |observers| && services.isObserverMethodEnabled(observers[i])
                     && Processed(services, observers[i]) == Some(x) {
        var i :| 0 <= i < |observers| && services.isObserverMethodEnabled(observers[i])
                 && Processed(services, observers[i]) == Some(x);
        if i > 0 {
          assert observers[1..][i - 1] == observers[i];
        }
      }
      if AddedObserver(x) in EnabledProcessed(observers[1..], services) {
        var i :| 0 <= i < |observers[1..]| && services.isObserverMethodEnabled(observers[1..][i])
                 && Processed(services, observers[1..][i]) == Some(x);
        assert observers[i + 1] == observers[1..][i];
      }
    }
  }

  /** A `finish` with no failures registers the queued beans in insertion order and then
      the enabled, non-dropped observers in insertion order. Disabled observers are never
      notified, so only the enabled ones need to succeed. */
  lemma FinishRegistersEverything(e: Event, services: Services)
    requires forall i :: 0 <= i < |e.additionalBeans| ==> services.fireProcessBean(e.additionalBeans[i]).None?
    requires forall i :: 0 <= i < |e.additionalObservers| && services.isObserverMethodEnabled(e.additionalObservers[i]) ==>
               services.fireProcessObserverMethod(e.additionalObservers[i]).Ok?
    ensures Finish(e, services) ==
              FinishRun(BeanRegistrations(e.additionalBeans) + EnabledProcessed(e.additionalObservers, services), None)
  {
    ProcessBeansInOrder(e.additionalBeans, services);
  }

  /** When the `k`-th queued bean is the first whose ProcessBean notification throws an
      Exception `t`, `finish` has registered the beans up to and including it, touched no
      observer, and throws a DefinitionException wrapping exactly `t`. */
  lemma FinishWrapsExceptions(e: Event, services: Services, k: nat)
    requires k < |e.additionalBeans| && services.fireProcessBean(e.additionalBeans[k]).Some?
    requires IsException(services.fireProcessBean(e.additionalBeans[k]).value)
    requires forall i :: 0 <= i < k ==> services.fireProcessBean(e.additionalBeans[i]).None?
    ensures Finish(e, services) ==
              FinishRun(BeanRegistrations(e.additionalBeans[..k + 1]),
                        Some(DefinitionException([services.fireProcessBean(e.additionalBeans[k]).value])))
  {
    ProcessBeansStopsAtFailure(e.additionalBeans, services, k);
  }

  /** When every bean succeeds and the `k`-th queued observer is the first enabled one
      whose ProcessObserverMethod notification throws an Exception `t`, `finish` has
      registered every bean and the observers before it, and throws a DefinitionException
      wrapping exactly `t`. */
  lemma FinishWrapsObserverFailure(e: Event, services: Services, k: nat)
    requires forall i :: 0 <= i < |e.additionalBeans| ==> services.fireProcessBean(e.additionalBeans[i]).None?
    requires k < |e.additionalObservers| && services.isObserverMethodEnabled(e.additionalObservers[k])
    requires services.fireProcessObserverMethod(e.additionalObservers[k]).Err?
    requires IsException(services.fireProcessObserverMethod(e.additionalObservers[k]).error)
    requires forall i :: 0 <= i < k && services.isObserverMethodEnabled(e.additionalObservers[i]) ==>
               services.fireProcessObserverMethod(e.additionalObservers[i]).Ok?
    ensures Finish(e, services) ==
              FinishRun(BeanRegistrations(e.additionalBeans) + EnabledProcessed(e.additionalObservers[..k], services),
                        Some(DefinitionException([services.fireProcessObserverMethod(e.additionalObservers[k]).error])))
  {
    ProcessBeansInOrder(e.additionalBeans, services);
    ProcessObserversStopsAtFailure(e.additionalObservers, services, k);
  }

  /** A bean queued by `addBean` reaches `finish` as the last of the queued beans, so it is
      registered after all beans added before it. */
  lemma AddedBeanIsRegisteredLast(e: Event, bean: CustomBean, services: Services)
    requires forall i :: 0 <= i < |e.additionalBeans| ==> services.fireProcessBean(e.additionalBeans[i]).None?
    requires services.fireProcessBean(bean).None?
    ensures var run := ProcessBeans(e.additionalBeans + [bean], services);
            && run.thrown.None?
            && |run.registrations| == 2 * |e.additionalBeans| + 2
            && run.registrations[2 * |e.additionalBeans| + 1] == FiredProcessBean(bean)
  {
    var all := e.additionalBeans + [bean];
    assert all[|e.additionalBeans|] == bean;
    ProcessBeansInOrder(all, services);
  }
}
