/** The SE extension that registers the built-in SE beans and the thread context, wrapping
    each registered type so that its `@Vetoed` annotation is hidden. */
module SeRegistrant {
  import opened Outcomes
  import opened JavaTypes
  import opened QualifierInstances

  const VETOED: ClassName := "javax.enterprise.inject.Vetoed"

  const PARAMETERS_FACTORY: ClassName := "org.jboss.weld.environment.se.beans.ParametersFactory"
  const INSTANCE_MANAGER: ClassName := "org.jboss.weld.environment.se.beans.InstanceManager"
  const RUNNABLE_DECORATOR: ClassName := "org.jboss.weld.environment.se.threading.RunnableDecorator"
  const WELD_CONTAINER: ClassName := "org.jboss.weld.environment.se.WeldContainer"

  /** The annotated type the bean manager creates for a class: its annotations, and its own
      `getAnnotation` and `isAnnotationPresent`. */
  datatype AnnotatedType = AnnotatedType(
    javaClass: ClassName,
    annotations: set<Annotation>,
    getAnnotation: ClassName -> Option<Annotation>,
    isAnnotationPresent: ClassName -> bool)

  /** `VetoedSuppressedAnnotatedType`: forwards to the wrapped type except for `@Vetoed`. */
  datatype VetoedSuppressed = VetoedSuppressed(delegate: AnnotatedType)

  function GetAnnotation(w: VetoedSuppressed, annotationType: ClassName): (r: Option<Annotation>)
    ensures annotationType == VETOED ==> r.None?
    ensures annotationType != VETOED ==> r == w.delegate.getAnnotation(annotationType)
  {
    if annotationType == VETOED then None else w.delegate.getAnnotation(annotationType)
  }

  function GetAnnotations(w: VetoedSuppressed): (r: set<Annotation>)
    ensures forall a :: a in r <==> a in w.delegate.annotations && a.annotationType != VETOED
  {
    set a | a in w.delegate.annotations && a.annotationType != VETOED
  }

  predicate IsAnnotationPresent(w: VetoedSuppressed, annotationType: ClassName) {
    annotationType != VETOED && w.delegate.isAnnotationPresent(annotationType)
  }

  /** A container event as the extension sees it: whether it is one of Weld's own events,
      the annotated types added to it, and the contexts added to it. */
  datatype Event = Event(isWeldEvent: bool, addedTypes: seq<VetoedSuppressed>, addedContexts: seq<string>)

  /** `ignoreEvent`: events that are not Weld's container events are ignored. */
  predicate IgnoreEvent(e: Event) {
    !e.isWeldEvent
  }

  /** `registerWeldSEBeans`: four wrapped types, in order. `createAnnotatedType` stands for
      the bean manager's. */
  function RegisterWeldSEBeans(e: Event, createAnnotatedType: ClassName -> AnnotatedType): (r: Event)
    ensures IgnoreEvent(e) ==> r == e
    ensures !IgnoreEvent(e) ==> |r.addedTypes| == |e.addedTypes| + 4 && r.addedTypes[..|e.addedTypes|] == e.addedTypes
  {
    if IgnoreEvent(e) then e
    else
      e.(addedTypes := e.addedTypes + [
        VetoedSuppressed(createAnnotatedType(PARAMETERS_FACTORY)),
        VetoedSuppressed(createAnnotatedType(INSTANCE_MANAGER)),
        VetoedSuppressed(createAnnotatedType(RUNNABLE_DECORATOR)),
        VetoedSuppressed(createAnnotatedType(WELD_CONTAINER))])
  }

  /** The extension's state: the thread context it set up, if any, identified by the
      container's context id. */
  datatype Registrant = Registrant(threadContext: Option<string>)

  /** `registerWeldSEContexts`: a thread context for the container's id is created and
      added to the event. */
  function RegisterWeldSEContexts(reg: Registrant, e: Event, contextId: string): (r: (Registrant, Event))
    ensures IgnoreEvent(e) ==> r == (reg, e)
    ensures !IgnoreEvent(e) ==> r.0.threadContext == Some(contextId) && r.1.addedContexts == e.addedContexts + [contextId]
    ensures r.1.addedTypes == e.addedTypes
  {
    if IgnoreEvent(e) then (reg, e)
    else (Registrant(Some(contextId)), e.(addedContexts := e.addedContexts + [contextId]))
  }

  // ---- properties ----

  /** The three annotation views of a type agree with each other: an annotation type is
      present exactly when the type carries an annotation of it, and `getAnnotation`
      answers for every present type with one of the carried annotations of that type. */
  ghost predicate ConsistentViews(t: AnnotatedType) {
    && (forall n :: t.isAnnotationPresent(n) <==> exists a :: a in t.annotations && a.annotationType == n)
    && (forall n :: t.getAnnotation(n).Some? <==> t.isAnnotationPresent(n))
    && (forall n :: t.getAnnotation(n).Some? ==> t.getAnnotation(n).value in t.annotations && t.getAnnotation(n).value.annotationType == n)
  }

  /** The wrapper seen as an annotated type, through its three overridden views. */
  function AsAnnotatedType(w: VetoedSuppressed): (t: AnnotatedType)
    ensures t.javaClass == w.delegate.javaClass
  {
    AnnotatedType(w.delegate.javaClass, GetAnnotations(w),
                  (n: ClassName) => GetAnnotation(w, n), (n: ClassName) => IsAnnotationPresent(w, n))
  }

  /** Wrapping keeps a consistent type consistent: the wrapper is the wrapped type with its
      `@Vetoed` annotations removed, seen the same way through all three views, and for
      every other annotation type it answers as the wrapped type does. */
  lemma WrapperKeepsViewsConsistent(w: VetoedSuppressed)
    requires ConsistentViews(w.delegate)
    ensures ConsistentViews(AsAnnotatedType(w))
    ensures GetAnnotations(w) == w.delegate.annotations - (set a | a in w.delegate.annotations && a.annotationType == VETOED)
    ensures !IsAnnotationPresent(w, VETOED) && GetAnnotation(w, VETOED).None?
    ensures forall n :: n != VETOED ==> IsAnnotationPresent(w, n) == w.delegate.isAnnotationPresent(n)
  {
    var t := AsAnnotatedType(w);
    forall n
      ensures t.isAnnotationPresent(n) <==> exists a :: a in t.annotations && a.annotationType == n
    {
      if n != VETOED && w.delegate.isAnnotationPresent(n) {
        var a :| a in w.delegate.annotations && a.annotationType == n;
        assert a in t.annotations;
      }
    }
    forall n | t.getAnnotation(n).Some?
      ensures t.getAnnotation(n).value in t.annotations && t.getAnnotation(n).value.annotationType == n
    {
      assert w.delegate.getAnnotation(n).Some?;
    }
  }

  /** A Weld event gets exactly the four SE types, in order, each wrapping the annotated type
      created for its class. */
  lemma FourTypesInOrder(e: Event, createAnnotatedType: ClassName -> AnnotatedType)
    requires !IgnoreEvent(e)
    ensures var added := RegisterWeldSEBeans(e, createAnnotatedType).addedTypes[|e.addedTypes|..];
            && |added| == 4
            && added[0].delegate == createAnnotatedType(PARAMETERS_FACTORY)
            && added[1].delegate == createAnnotatedType(INSTANCE_MANAGER)
            && added[2].delegate == createAnnotatedType(RUNNABLE_DECORATOR)
            && added[3].delegate == createAnnotatedType(WELD_CONTAINER)
  {
  }
}
