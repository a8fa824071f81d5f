/** Container lifecycle events: the shared error list and dispatch fields, and the state
    of the ProcessAnnotatedType and ProcessBeanAttributes events (current value, dirty and
    veto flags). */
module ContainerEvents {
  import opened Outcomes
  import opened JavaTypes
  import opened Throwables

  type Instance = string
  type ObserverMethodRef = string

  /** The state every container event carries: the definition errors collected so far, the
      raw event type with its type arguments, and the receiver and observer method set for
      the notification in progress. */
  datatype ContainerEvent = ContainerEvent(
    errors: seq<Throwable>,
    rawType: ClassName,
    typeArguments: seq<JType>,
    receiver: Option<Instance>,
    observerMethod: Option<ObserverMethodRef>)

  /** The constructor: no errors yet, and no notification in progress. */
  function NewContainerEvent(rawType: ClassName, typeArguments: seq<JType>): (e: ContainerEvent)
    ensures e.errors == [] && e.receiver.None? && e.observerMethod.None?
    ensures e.rawType == rawType && e.typeArguments == typeArguments
  {
    ContainerEvent([], rawType, typeArguments, None, None)
  }

  /** The type the event is fired with: the raw type parameterized by the type arguments. */
  function EventType(e: ContainerEvent): (t: JType)
    ensures RawType(t) == Class(e.rawType) && ActualTypeArguments(t) == e.typeArguments
  {
    Parameterized(e.rawType, e.typeArguments)
  }

  /** `fire`: `thrown` is what the lenient notifier's `fireEvent(eventType, this)` threw. An
      Exception is appended to the errors; an Error is not caught and escapes. */
  function Fire(e: ContainerEvent, thrown: Option<Throwable>): (r: (ContainerEvent, Option<Throwable>))
    ensures thrown.None? ==> r == (e, None)
    ensures thrown.Some? && IsException(thrown.value) ==> r == (e.(errors := e.errors + [thrown.value]), None)
    ensures thrown.Some? && IsError(thrown.value) ==> r == (e, thrown)
  {
    match thrown
    case None => (e, None)
    case Some(t) => if IsException(t) then (e.(errors := e.errors + [t]), None) else (e, thrown)
  }

  function GetReceiver(e: ContainerEvent): Option<Instance> {
    e.receiver
  }

  function SetReceiver(e: ContainerEvent, receiver: Option<Instance>): (r: ContainerEvent)
    ensures r.errors == e.errors && r.observerMethod == e.observerMethod
  {
    e.(receiver := receiver)
  }

  function GetObserverMethod(e: ContainerEvent): Option<ObserverMethodRef> {
    e.observerMethod
  }

  function SetObserverMethod(e: ContainerEvent, observerMethod: Option<ObserverMethodRef>): (r: ContainerEvent)
    ensures r.errors == e.errors && r.receiver == e.receiver
  {
    e.(observerMethod := observerMethod)
  }

  /** Nothing `fire` lets escape is an Exception, and no Exception is lost: the errors grow
      by exactly what was caught. */
  lemma FireNeverThrowsExceptions(e: ContainerEvent, thrown: Option<Throwable>)
    ensures var (e1, escaped) := Fire(e, thrown);
            && (escaped.Some? ==> IsError(escaped.value) && e1.errors == e.errors)
            && (escaped.None? ==> e1.errors == e.errors + (if thrown.Some? then [thrown.value] else []))
  {
  }

  /** The setters round-trip through the getters, and each leaves the other field alone. */
  lemma DispatchFieldsRoundTrip(e: ContainerEvent, receiver: Option<Instance>, observerMethod: Option<ObserverMethodRef>)
    ensures GetReceiver(SetReceiver(e, receiver)) == receiver
    ensures GetObserverMethod(SetObserverMethod(e, observerMethod)) == observerMethod
    ensures GetObserverMethod(SetReceiver(e, receiver)) == GetObserverMethod(e)
    ensures GetReceiver(SetObserverMethod(e, observerMethod)) == GetReceiver(e)
    ensures SetReceiver(SetReceiver(e, GetReceiver(e)), GetReceiver(e)) == e
  {
  }

  // ---- ProcessAnnotatedType ----

  /** An annotated type; `identity` stands for Java object identity, which `isDirty`
      compares. */
  datatype AnnotatedType = AnnotatedType(identity: nat, javaClass: ClassName)

  const PROCESS_ANNOTATED_TYPE: ClassName := "javax.enterprise.inject.spi.ProcessAnnotatedType"

  const ANNOTATION_TYPE_NULL: Throwable := IllegalArgument("annotationTypeNull")
  const ANNOTATED_TYPE_JAVA_CLASS_MISMATCH: Throwable := IllegalArgument("annotatedTypeJavaClassMismatch")

  datatype ProcessAnnotatedTypeEvent = ProcessAnnotatedTypeEvent(
    base: ContainerEvent,
    original: AnnotatedType,
    current: AnnotatedType,
    veto: bool)

  /** The constructor: the current type is the original, and its Java class is the event's
      only type argument. `rawType` is ProcessAnnotatedType or a subtype's class. */
  function NewProcessAnnotatedType(t: AnnotatedType, rawType: ClassName): (p: ProcessAnnotatedTypeEvent)
    ensures p.base == NewContainerEvent(rawType, [Class(t.javaClass)])
    ensures p.original == t && p.current == t && !p.veto
  {
    ProcessAnnotatedTypeEvent(NewContainerEvent(rawType, [Class(t.javaClass)]), t, t, false)
  }

  function GetAnnotatedType(p: ProcessAnnotatedTypeEvent): AnnotatedType {
    p.current
  }

  /** `isDirty`: the current type is not the original object. */
  predicate IsDirty(p: ProcessAnnotatedTypeEvent) {
    p.original != p.current
  }

  /** `setAnnotatedType`: null, a type for another Java class, and a type the validator
      rejects (`validate`, not part of this model) all throw; the event is unchanged then. */
  function SetAnnotatedType(p: ProcessAnnotatedTypeEvent, t: Option<AnnotatedType>,
                            validate: AnnotatedType -> Option<Throwable>): (r: Result<ProcessAnnotatedTypeEvent, Throwable>)
    ensures t.None? ==> r == Err(ANNOTATION_TYPE_NULL)
    ensures t.Some? && t.value.javaClass != p.original.javaClass ==> r == Err(ANNOTATED_TYPE_JAVA_CLASS_MISMATCH)
    ensures t.Some? && t.value.javaClass == p.original.javaClass && validate(t.value).Some? ==> r == Err(validate(t.value).value)
    ensures r.Ok? <==> t.Some? && t.value.javaClass == p.original.javaClass && validate(t.value).None?
    ensures r.Ok? ==> GetAnnotatedType(r.value) == t.value
    ensures r.Ok? ==> r.value.original == p.original && r.value.veto == p.veto && r.value.base == p.base
  {
    match t
    case None => Err(ANNOTATION_TYPE_NULL)
    case Some(at) =>
      if p.original.javaClass != at.javaClass then Err(ANNOTATED_TYPE_JAVA_CLASS_MISMATCH)
      else if validate(at).Some? then Err(validate(at).value)
      else Ok(p.(current := at))
  }

  /** `getResultingAnnotatedType`: the original when not dirty, otherwise the unbacked type
      the class transformer builds from the original and the current one (`unbacked`, not
      part of this model). */
  function GetResultingAnnotatedType(p: ProcessAnnotatedTypeEvent, unbacked: (AnnotatedType, AnnotatedType) -> AnnotatedType): (r: AnnotatedType)
    ensures !IsDirty(p) ==> r == p.original
    ensures IsDirty(p) ==> r == unbacked(p.original, p.current)
  {
    if IsDirty(p) then unbacked(p.original, p.current) else p.original
  }

  function Veto(p: ProcessAnnotatedTypeEvent): (r: ProcessAnnotatedTypeEvent)
    ensures r.veto && r.original == p.original && r.current == p.current && r.base == p.base
  {
    p.(veto := true)
  }

  predicate IsVeto(p: ProcessAnnotatedTypeEvent) {
    p.veto
  }

  /** `fire` of ProcessAnnotatedType: the lenient notifier hands the event to its observers
      (`notify` gives the event they leave and what the notifier threw), an Exception is
      collected as in the base event, and then any collected error is raised as one
      DefinitionException. An Error escapes as thrown. */
  function FireProcessAnnotatedType(p: ProcessAnnotatedTypeEvent,
                                    notify: ProcessAnnotatedTypeEvent -> (ProcessAnnotatedTypeEvent, Option<Throwable>))
    : (r: (ProcessAnnotatedTypeEvent, Option<Throwable>))
    ensures var (observed, thrown) := notify(p);
            && r.0.original == observed.original && r.0.current == observed.current && r.0.veto == observed.veto
            && (thrown.Some? && IsError(thrown.value) ==> r == (observed, thrown))
            && (!(thrown.Some? && IsError(thrown.value)) ==>
                  && r.0.base.errors == observed.base.errors + (if thrown.Some? then [thrown.value] else [])
                  && (r.1.Some? <==> |r.0.base.errors| > 0)
                  && (r.1.Some? ==> r.1.value == DefinitionException(r.0.base.errors)))
  {
    var (observed, thrown) := notify(p);
    var (b, escaped) := Fire(observed.base, thrown);
    if escaped.Some? then (observed, escaped)
    else if |b.errors| > 0 then (observed.(base := b), Some(DefinitionException(b.errors)))
    else (observed.(base := b), None)
  }

  /** What an observer of ProcessAnnotatedType can do to the event: replace the type, veto
      it, or throw (the throwable as it leaves the notifier). */
  datatype AnnotatedTypeAction =
    | ReplaceType(replacement: Option<AnnotatedType>)
    | VetoType
    | ThrowFromObserver(thrown: Throwable)

  /** Observers acting on the event one after another; the first throw, including one
      from a rejected `setAnnotatedType`, ends the notification. The original type and the
      base event never change, a veto is never cleared, and the current type always stays
      a type of the original's Java class. */
  function RunAnnotatedTypeObservers(p: ProcessAnnotatedTypeEvent, actions: seq<AnnotatedTypeAction>,
                                     validate: AnnotatedType -> Option<Throwable>)
    : (r: (ProcessAnnotatedTypeEvent, Option<Throwable>))
    ensures r.0.original == p.original && r.0.base == p.base
    ensures p.veto ==> r.0.veto
    ensures p.current.javaClass == p.original.javaClass ==> r.0.current.javaClass == p.original.javaClass
    ensures VetoType in actions && r.1.None? ==> r.0.veto
    decreases |actions|
  {
    if |actions| == 0 then (p, None)
    else
      match actions[0]
      case ReplaceType(t) =>
        (match SetAnnotatedType(p, t, validate)
         case Err(e) => (p, Some(e))
         case Ok(q) => RunAnnotatedTypeObservers(q, actions[1..], validate))
      case VetoType => RunAnnotatedTypeObservers(Veto(p), actions[1..], validate)
      case ThrowFromObserver(e) => (p, Some(e))
  }

  /** A new ProcessAnnotatedType event is clean: not dirty, not vetoed, no errors, and its
      resulting type is the original. */
  lemma NewProcessAnnotatedTypeIsClean(t: AnnotatedType, rawType: ClassName, unbacked: (AnnotatedType, AnnotatedType) -> AnnotatedType)
    ensures var p := NewProcessAnnotatedType(t, rawType);
            && !IsDirty(p) && !IsVeto(p) && p.base.errors == []
            && GetResultingAnnotatedType(p, unbacked) == t
  {
  }

  /** After a successful set the event is dirty exactly when the new type is not the
      original object; setting the original back makes it clean again. */
  lemma DirtyIffReplaced(p: ProcessAnnotatedTypeEvent, t: AnnotatedType, validate: AnnotatedType -> Option<Throwable>)
    requires SetAnnotatedType(p, Some(t), validate).Ok?
    ensures IsDirty(SetAnnotatedType(p, Some(t), validate).value) <==> t != p.original
    ensures validate(p.original).None? ==>
              SetAnnotatedType(SetAnnotatedType(p, Some(t), validate).value, Some(p.original), validate).Ok?
              && !IsDirty(SetAnnotatedType(SetAnnotatedType(p, Some(t), validate).value, Some(p.original), validate).value)
  {
  }

  /** A veto is permanent: neither setting the type, nor firing to observers that replace
      the type, veto or throw, nor vetoing again clears it. */
  lemma VetoIsPermanent(p: ProcessAnnotatedTypeEvent, t: Option<AnnotatedType>, validate: AnnotatedType -> Option<Throwable>,
                        actions: seq<AnnotatedTypeAction>)
    ensures var v := Veto(p);
            && IsVeto(v)
            && (SetAnnotatedType(v, t, validate).Ok? ==> IsVeto(SetAnnotatedType(v, t, validate).value))
            && IsVeto(FireProcessAnnotatedType(v, (q: ProcessAnnotatedTypeEvent) => RunAnnotatedTypeObservers(q, actions, validate)).0)
            && IsVeto(Veto(v))
  {
  }

  /** Firing a new event leaves a type of the same Java class however the observers
      replace it, and an observer that vetoes, when no observer throws, leaves the event
      vetoed. */
  lemma FiredTypeKeepsJavaClass(t: AnnotatedType, rawType: ClassName, validate: AnnotatedType -> Option<Throwable>,
                                actions: seq<AnnotatedTypeAction>)
    ensures var notify := (q: ProcessAnnotatedTypeEvent) => RunAnnotatedTypeObservers(q, actions, validate);
            var (p, escaped) := FireProcessAnnotatedType(NewProcessAnnotatedType(t, rawType), notify);
            && p.original == t
            && GetAnnotatedType(p).javaClass == t.javaClass
            && (VetoType in actions && escaped.None? ==> IsVeto(p))
  {
  }

  /** A fire where the notifier throws an Exception always raises a DefinitionException
      holding that exception last. */
  lemma FailedNotificationRaisesDefinitionException(p: ProcessAnnotatedTypeEvent, e: Throwable,
                                                    notify: ProcessAnnotatedTypeEvent -> (ProcessAnnotatedTypeEvent, Option<Throwable>))
    requires IsException(e) && notify(p).1 == Some(e)
    ensures var (p1, escaped) := FireProcessAnnotatedType(p, notify);
            && escaped.Some? && escaped.value.DefinitionException?
            && |escaped.value.causes| > 0 && escaped.value.causes[|escaped.value.causes| - 1] == e
  {
  }

  // ---- ProcessBeanAttributes ----

  const PROCESS_BEAN_ATTRIBUTES: ClassName := "javax.enterprise.inject.spi.ProcessBeanAttributes"

  datatype ProcessBeanAttributesEvent<A> = ProcessBeanAttributesEvent(
    base: ContainerEvent,
    attributes: A,
    veto: bool,
    dirty: bool)

  /** The constructor: neither dirty nor vetoed; the bean type is the only type argument. */
  function NewProcessBeanAttributes<A>(attributes: A, beanType: JType): (p: ProcessBeanAttributesEvent<A>)
    ensures p.base == NewContainerEvent(PROCESS_BEAN_ATTRIBUTES, [beanType])
    ensures p.attributes == attributes && !p.veto && !p.dirty
  {
    ProcessBeanAttributesEvent(NewContainerEvent(PROCESS_BEAN_ATTRIBUTES, [beanType]), attributes, false, false)
  }

  function GetBeanAttributes<A>(p: ProcessBeanAttributesEvent<A>): A {
    p.attributes
  }

  function SetBeanAttributes<A>(p: ProcessBeanAttributesEvent<A>, attributes: A): (r: ProcessBeanAttributesEvent<A>)
    ensures r.dirty && r.veto == p.veto && r.base == p.base
  {
    p.(attributes := attributes, dirty := true)
  }

  function AddDefinitionError<A>(p: ProcessBeanAttributesEvent<A>, t: Throwable): (r: ProcessBeanAttributesEvent<A>)
    ensures r.base.errors == p.base.errors + [t]
    ensures r.attributes == p.attributes && r.veto == p.veto && r.dirty == p.dirty
  {
    p.(base := p.base.(errors := p.base.errors + [t]))
  }

  function VetoAttributes<A>(p: ProcessBeanAttributesEvent<A>): (r: ProcessBeanAttributesEvent<A>)
    ensures r.veto && r.attributes == p.attributes && r.dirty == p.dirty && r.base == p.base
  {
    p.(veto := true)
  }

  /** The static `fire`: a new event is built, the observers act on it (`notify` gives the
      event they leave and what the notifier threw), the base `fire` collects an Exception,
      and that same event is returned. */
  function FireProcessBeanAttributes<A>(attributes: A, beanType: JType,
                                        notify: ProcessBeanAttributesEvent<A> -> (ProcessBeanAttributesEvent<A>, Option<Throwable>))
    : (r: (ProcessBeanAttributesEvent<A>, Option<Throwable>))
    ensures var (observed, thrown) := notify(NewProcessBeanAttributes(attributes, beanType));
            && r.0.attributes == observed.attributes && r.0.veto == observed.veto && r.0.dirty == observed.dirty
            && (r.0.base, r.1) == Fire(observed.base, thrown)
  {
    var (observed, thrown) := notify(NewProcessBeanAttributes(attributes, beanType));
    var (b, escaped) := Fire(observed.base, thrown);
    (observed.(base := b), escaped)
  }

  /** The latest attributes set are the ones read back, and setting marks the event dirty
      even when the value is the same. */
  lemma LatestAttributesWin<A>(p: ProcessBeanAttributesEvent<A>, a1: A, a2: A)
    ensures GetBeanAttributes(SetBeanAttributes(SetBeanAttributes(p, a1), a2)) == a2
    ensures SetBeanAttributes(p, GetBeanAttributes(p)).dirty
  {
  }

  /** Observers that leave the attributes alone and throw nothing give back a clean,
      unvetoed event with the original attributes and no errors. */
  lemma UntouchedAttributesStayClean<A>(attributes: A, beanType: JType,
                                        notify: ProcessBeanAttributesEvent<A> -> (ProcessBeanAttributesEvent<A>, Option<Throwable>))
    requires notify(NewProcessBeanAttributes(attributes, beanType)) == (NewProcessBeanAttributes(attributes, beanType), None)
    ensures var (p, escaped) := FireProcessBeanAttributes(attributes, beanType, notify);
            && escaped.None? && !p.dirty && !p.veto && p.attributes == attributes && p.base.errors == []
  {
  }
}
