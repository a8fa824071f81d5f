/** An observer method declared on a bean: its definition rules, its identity, and how an
    event is sent to it (which receiver, which creational context, and when that context
    is released). */
module ObserverMethods {
  import opened Outcomes
  import opened JavaTypes
  import opened JavaInts
  import opened Throwables
  import opened Events

  const ID_PREFIX: string := "org.jboss.weld.event"
  const ID_SEPARATOR: string := "-"

  const DEPENDENT: ClassName := "javax.enterprise.context.Dependent"
  const OBSERVES: ClassName := "javax.enterprise.event.Observes"
  const DISPOSES: ClassName := "javax.enterprise.inject.Disposes"
  const PRODUCES: ClassName := "javax.enterprise.inject.Produces"
  const INJECT: ClassName := "javax.inject.Inject"

  const INVALID_SCOPED_CONDITIONAL_OBSERVER: string := "INVALID_SCOPED_CONDITIONAL_OBSERVER"
  const MULTIPLE_EVENT_PARAMETERS: string := "MULTIPLE_EVENT_PARAMETERS"
  const INVALID_DISPOSES_PARAMETER: string := "INVALID_DISPOSES_PARAMETER"
  const INVALID_PRODUCER: string := "INVALID_PRODUCER"
  const INVALID_INITIALIZER: string := "INVALID_INITIALIZER"
  const NON_FIELD_INJECTION_POINT_CANNOT_USE_NAMED: string := "NON_FIELD_INJECTION_POINT_CANNOT_USE_NAMED"

  datatype Reception = ALWAYS | IF_EXISTS

  /** A method parameter: its annotations, and the value of its `@Named` if it has one. */
  datatype Parameter = Parameter(annotations: set<ClassName>, named: Option<string>)

  /** The declared method: its signature, parameters, method-level annotations, whether it
      is static, the `notifyObserver` of its `@Observes`, and the observed parameter's base
      type. */
  datatype MethodDecl = MethodDecl(
    signature: string,
    parameters: seq<Parameter>,
    annotations: set<ClassName>,
    isStatic: bool,
    reception: Reception,
    observedType: JType)

  /** The declaring bean: its class, its scope, and whether the class is an Extension. */
  datatype DeclaringBean = DeclaringBean(beanClass: ClassName, scope: ClassName, isExtension: bool)

  datatype ObserverMethodImpl = ObserverMethodImpl(
    id: string,
    decl: MethodDecl,
    bean: DeclaringBean,
    phase: TransactionPhase,
    types: set<JType>)

  /** The id: package prefix, "ObserverMethod", the bean class name and the signature. */
  function ObserverId(beanClass: ClassName, signature: string): (id: string)
    ensures |id| == |ID_PREFIX + ID_SEPARATOR + "ObserverMethod" + ID_SEPARATOR| + |beanClass| + 1 + |signature|
  {
    ID_PREFIX + ID_SEPARATOR + "ObserverMethod" + ID_SEPARATOR + beanClass + "." + signature
  }

  /** The constructor: id from bean class and signature, phase IN_PROGRESS, and as types the
      closure of the observed type plus Object. */
  function Create(decl: MethodDecl, bean: DeclaringBean, typeClosure: JType -> set<JType>): (m: ObserverMethodImpl)
    ensures m.id == ObserverId(bean.beanClass, decl.signature)
    ensures m.phase == IN_PROGRESS
    ensures ObjectType in m.types && typeClosure(decl.observedType) <= m.types
    ensures forall t :: t in m.types ==> t == ObjectType || t in typeClosure(decl.observedType)
  {
    ObserverMethodImpl(ObserverId(bean.beanClass, decl.signature), decl, bean, IN_PROGRESS,
                       typeClosure(decl.observedType) + {ObjectType})
  }

  function ParametersAnnotatedWith(decl: MethodDecl, annotation: ClassName): (n: nat)
    ensures n <= |decl.parameters|
  {
    CountAnnotated(decl.parameters, annotation)
  }

  function CountAnnotated(ps: seq<Parameter>, annotation: ClassName): (n: nat)
    ensures n <= |ps|
    ensures n == 0 <==> forall i :: 0 <= i < |ps| ==> annotation !in ps[i].annotations
  {
    if |ps| == 0 then 0
    else (if annotation in ps[0].annotations then 1 else 0) + CountAnnotated(ps[1..], annotation)
  }

  /** Some parameter carries `@Named("")`. */
  predicate HasEmptyNamedParameter(decl: MethodDecl) {
    exists i :: 0 <= i < |decl.parameters| && decl.parameters[i].named == Some("")
  }

  /** `checkObserverMethod`: the first violated rule, in this order: a conditional observer
      on a Dependent bean, several `@Observes` parameters, a `@Disposes` parameter, a
      `@Produces` method, an `@Inject` method, a parameter with an empty `@Named`. */
  function CheckObserverMethod(m: ObserverMethodImpl): (r: Option<Throwable>)
    ensures r.None? <==>
              && !(m.decl.reception == IF_EXISTS && m.bean.scope == DEPENDENT)
              && ParametersAnnotatedWith(m.decl, OBSERVES) <= 1
              && ParametersAnnotatedWith(m.decl, DISPOSES) == 0
              && PRODUCES !in m.decl.annotations
              && INJECT !in m.decl.annotations
              && !HasEmptyNamedParameter(m.decl)
    ensures m.decl.reception == IF_EXISTS && m.bean.scope == DEPENDENT ==>
              r == Some(DefinitionProblem(INVALID_SCOPED_CONDITIONAL_OBSERVER))
    ensures r.Some? ==> r.value.DefinitionProblem?
  {
    if m.decl.reception == IF_EXISTS && m.bean.scope == DEPENDENT then Some(DefinitionProblem(INVALID_SCOPED_CONDITIONAL_OBSERVER))
    else if ParametersAnnotatedWith(m.decl, OBSERVES) > 1 then Some(DefinitionProblem(MULTIPLE_EVENT_PARAMETERS))
    else if ParametersAnnotatedWith(m.decl, DISPOSES) > 0 then Some(DefinitionProblem(INVALID_DISPOSES_PARAMETER))
    else if PRODUCES in m.decl.annotations then Some(DefinitionProblem(INVALID_PRODUCER))
    else if INJECT in m.decl.annotations then Some(DefinitionProblem(INVALID_INITIALIZER))
    else if HasEmptyNamedParameter(m.decl) then Some(DefinitionProblem(NON_FIELD_INJECTION_POINT_CANNOT_USE_NAMED))
    else None
  }

  /** `ignore(event)`: a container-lifecycle event is not delivered to an observer declared
      on a class that is not an Extension. `isContainerEvent` stands for
      `AbstractContainerEvent.class.isAssignableFrom(event.getClass())`. */
  predicate Ignore(m: ObserverMethodImpl, event: EventObject, isContainerEvent: JType -> bool) {
    isContainerEvent(event.runtimeType) && !m.bean.isExtension
  }

  /** The observable steps of sending an event. */
  datatype SendStep =
    | CreateCreationalContext
    | LookUpReceiver
    | Invoke(receiver: Option<string>, onInstance: bool, withContext: bool)
    | ReleaseCreationalContext

  /** What the bean manager and the method invocation answer, which are not part of this
      model: the existing receiver of a conditional observer (or the failure of looking it
      up), the reference obtained for an unconditional one (or the failure of obtaining
      it), and the failure of the call. */
  datatype Environment = Environment(
    existingReceiver: Result<Option<string>, Throwable>,
    reference: Result<Option<string>, Throwable>,
    invocationFailure: Option<Throwable>)

  datatype SendRun = SendRun(steps: seq<SendStep>, thrown: Option<Throwable>)

  /** The private `sendEvent(event, receiver, creationalContext)`: invoke on the instance if
      there is a receiver, statically otherwise; release the context afterwards, even on
      failure, when there is one and the bean is Dependent. */
  function InvokeAndRelease(m: ObserverMethodImpl, receiver: Option<string>, withContext: bool, env: Environment): (r: SendRun)
    ensures |r.steps| >= 1 && r.steps[0] == Invoke(receiver, receiver.Some?, withContext)
    ensures ReleaseCreationalContext in r.steps <==> withContext && m.bean.scope == DEPENDENT
    ensures r.thrown == env.invocationFailure
  {
    var release := if withContext && m.bean.scope == DEPENDENT then [ReleaseCreationalContext] else [];
    SendRun([Invoke(receiver, receiver.Some?, withContext)] + release, env.invocationFailure)
  }

  /** `sendEvent(event)`: a static method is invoked with a fresh creational context; a
      conditional observer only when an instance exists (an inactive context counting as
      none), without a context; any other gets a fresh context and then a reference. The
      reference is obtained outside the `try` of the private `sendEvent`, so when obtaining
      it throws, the fresh context is never released. */
  function SendEvent(m: ObserverMethodImpl, env: Environment): (r: SendRun)
    ensures m.decl.isStatic ==> |r.steps| >= 2 && r.steps[0] == CreateCreationalContext && r.steps[1] == Invoke(None, false, true)
    ensures !m.decl.isStatic && m.decl.reception == IF_EXISTS ==>
              && (forall i :: 0 <= i < |r.steps| ==> r.steps[i] != CreateCreationalContext && r.steps[i] != ReleaseCreationalContext)
              && (env.existingReceiver == Err(ContextNotActive) || env.existingReceiver == Ok(None) ==>
                    r == SendRun([LookUpReceiver], None))
              && (env.existingReceiver.Err? && env.existingReceiver.error != ContextNotActive ==>
                    r == SendRun([LookUpReceiver], Some(env.existingReceiver.error)))
    ensures !m.decl.isStatic && m.decl.reception != IF_EXISTS && env.reference.Err? ==>
              r == SendRun([CreateCreationalContext, LookUpReceiver], Some(env.reference.error))
    ensures ReleaseCreationalContext in r.steps <==>
              && CreateCreationalContext in r.steps && m.bean.scope == DEPENDENT
              && (exists i :: 0 <= i < |r.steps| && r.steps[i].Invoke?)
    ensures (exists i :: 0 <= i < |r.steps| && r.steps[i].Invoke?) ==> r.thrown == env.invocationFailure
  {
    if m.decl.isStatic then
      var rest := InvokeAndRelease(m, None, true, env);
      SendRun([CreateCreationalContext] + rest.steps, rest.thrown)
    else if m.decl.reception == IF_EXISTS then
      var receiver: Result<Option<string>, Throwable> :=
        match env.existingReceiver
        case Ok(r) => Ok(r)
        case Err(e) => if e == ContextNotActive then Ok(None) else Err(e);
      match receiver
      case Err(e) => SendRun([LookUpReceiver], Some(e))
      case Ok(None) => SendRun([LookUpReceiver], None)
      case Ok(Some(instance)) =>
        var rest := InvokeAndRelease(m, Some(instance), false, env);
        SendRun([LookUpReceiver] + rest.steps, rest.thrown)
    else
      match env.reference
      case Err(e) => SendRun([CreateCreationalContext, LookUpReceiver], Some(e))
      case Ok(reference) =>
        var rest := InvokeAndRelease(m, reference, true, env);
        var run := SendRun([CreateCreationalContext, LookUpReceiver] + rest.steps, rest.thrown);
        assert run.steps[2] == rest.steps[0];
        run
  }

  /** `notify(event)`: nothing for an ignored event, otherwise `sendEvent`. */
  function NotifyObserver(m: ObserverMethodImpl, event: EventObject, isContainerEvent: JType -> bool, env: Environment): (r: SendRun)
    ensures Ignore(m, event, isContainerEvent) ==> r == SendRun([], None)
    ensures !Ignore(m, event, isContainerEvent) ==> r == SendEvent(m, env)
  {
    if Ignore(m, event, isContainerEvent) then SendRun([], None) else SendEvent(m, env)
  }

  /** `equals`: another ObserverMethodImpl with the same id. */
  function Equals(m: ObserverMethodImpl, o: Option<ObserverMethodImpl>): (r: bool)
    ensures r <==> o.Some? && o.value.id == m.id
  {
    o.Some? && m.id == o.value.id
  }

  /** `hashCode`: the id's string hash. */
  function HashCode(m: ObserverMethodImpl): (h: int)
    ensures IsInt32(h)
  {
    StringHash(m.id)
  }

  // ---- properties ----

  /** Equal observer methods have equal hash codes. */
  lemma EqualsConsistentWithHash(m1: ObserverMethodImpl, m2: ObserverMethodImpl)
    requires Equals(m1, Some(m2))
    ensures HashCode(m1) == HashCode(m2)
  {
  }

  /** On one bean class, two observer methods have the same id exactly when their
      signatures are equal. */
  lemma SameBeanIdIffSameSignature(beanClass: ClassName, s1: string, s2: string)
    ensures ObserverId(beanClass, s1) == ObserverId(beanClass, s2) <==> s1 == s2
  {
    var prefix := ID_PREFIX + ID_SEPARATOR + "ObserverMethod" + ID_SEPARATOR + beanClass + ".";
    assert ObserverId(beanClass, s1) == prefix + s1;
    assert ObserverId(beanClass, s2) == prefix + s2;
    if prefix + s1 == prefix + s2 {
      assert s1 == (prefix + s1)[|prefix|..];
      assert s2 == (prefix + s2)[|prefix|..];
    }
  }

  /** Observer methods created from the same bean class and signature are equal, whatever
      else differs between them. */
  lemma CreatedFromSameSignatureAreEqual(d1: MethodDecl, d2: MethodDecl, b1: DeclaringBean, b2: DeclaringBean, tc: JType -> set<JType>)
    requires d1.signature == d2.signature && b1.beanClass == b2.beanClass
    ensures Equals(Create(d1, b1, tc), Some(Create(d2, b2, tc)))
  {
  }

  /** A conditional observer on a Dependent bean fails definition whatever else it declares. */
  lemma ConditionalDependentAlwaysRejected(m: ObserverMethodImpl)
    requires m.decl.reception == IF_EXISTS && m.bean.scope == DEPENDENT
    ensures CheckObserverMethod(m) == Some(DefinitionProblem(INVALID_SCOPED_CONDITIONAL_OBSERVER))
  {
  }

  /** A container-lifecycle event reaches an Extension observer but not another one. */
  lemma LifecycleEventsOnlyForExtensions(m: ObserverMethodImpl, event: EventObject, isContainerEvent: JType -> bool, env: Environment)
    requires isContainerEvent(event.runtimeType)
    ensures !m.bean.isExtension ==> NotifyObserver(m, event, isContainerEvent, env).steps == []
    ensures m.bean.isExtension ==> NotifyObserver(m, event, isContainerEvent, env) == SendEvent(m, env)
  {
  }

  /** When obtaining the reference of a Dependent declaring bean throws, the context created
      for it is never released and that failure is what the call throws. */
  lemma FailedReferenceLeavesContextUnreleased(m: ObserverMethodImpl, env: Environment)
    requires !m.decl.isStatic && m.decl.reception != IF_EXISTS && m.bean.scope == DEPENDENT
    requires env.reference.Err?
    ensures CreateCreationalContext in SendEvent(m, env).steps
    ensures ReleaseCreationalContext !in SendEvent(m, env).steps
    ensures SendEvent(m, env).thrown == Some(env.reference.error)
  {
  }
}
