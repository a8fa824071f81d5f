/** The built-in `Event` bean: firing through an injection point, with a single-entry cache
    of the last resolution keyed by the event object's runtime class, and `select`. */
module EventFacades {
  import opened Outcomes
  import opened JavaTypes
  import opened Throwables
  import opened QualifierInstances
  import opened Events
  import opened ObserverNotifiers

  datatype CachedObservers = CachedObservers(rawType: JType, observers: ObserverLists, metadata: EventMetadata)

  /** An Event facade: its type (`getType()`), its injection point, its qualifiers and the
      cache entry, if any. */
  datatype EventFacade = EventFacade(
    facadeType: JType,
    injectionPoint: string,
    qualifiers: seq<Annotation>,
    cached: Option<CachedObservers>)

  /** The services the facade calls and that are not part of this model: the two
      type-variable resolvers of `getEventType`, the type closure, the resolvable builder's
      qualifier validation, observer resolution and the merging of qualifiers done by
      FacadeInjectionPoint. */
  datatype Services = Services(
    hierarchyResolve: JType -> JType,
    combinedResolve: JType -> JType,
    typeClosure: JType -> set<JType>,
    checkQualifiers: QualifierCheck,
    resolve: Resolvable -> ObserverLists,
    mergeQualifiers: (seq<Annotation>, seq<Annotation>) -> seq<Annotation>)

  /** `getEventType`: the runtime class itself when it has nothing unresolved; otherwise it
      is resolved against the injection point's type hierarchy and, if that still leaves
      something unresolved, against the combined resolver. */
  function GetEventType(s: Services, event: EventObject): (r: JType)
    ensures !ContainsTypeVariableOrWildcard(event.runtimeType) ==> r == event.runtimeType
    ensures ContainsTypeVariableOrWildcard(event.runtimeType)
            && !ContainsTypeVariableOrWildcard(s.hierarchyResolve(event.runtimeType)) ==>
              r == s.hierarchyResolve(event.runtimeType)
    ensures ContainsTypeVariableOrWildcard(event.runtimeType)
            && ContainsTypeVariableOrWildcard(s.hierarchyResolve(event.runtimeType)) ==>
              r == s.combinedResolve(event.runtimeType)
  {
    var resolvedType := if ContainsTypeVariableOrWildcard(event.runtimeType) then s.hierarchyResolve(event.runtimeType) else event.runtimeType;
    if ContainsTypeVariableOrWildcard(resolvedType) then s.combinedResolve(event.runtimeType) else resolvedType
  }

  /** `getObservers`: the cache entry is reused iff its raw type equals the event's runtime
      class; otherwise the observers are resolved through the strict notifier and, if that
      succeeds, the entry is replaced. */
  function GetObservers(f: EventFacade, strict: Notifier, s: Services, event: EventObject)
    : (r: (EventFacade, Notifier, Result<CachedObservers, Throwable>))
    requires CachesSound(strict)
    ensures CachesSound(r.1)
    ensures f.cached.Some? && f.cached.value.rawType == event.runtimeType ==> r == (f, strict, Ok(f.cached.value))
    ensures r.0.facadeType == f.facadeType && r.0.injectionPoint == f.injectionPoint && r.0.qualifiers == f.qualifiers
    ensures r.2.Err? ==> r.0 == f
    ensures r.2.Ok? ==> r.0.cached == Some(r.2.value) && r.2.value.rawType == event.runtimeType
    ensures !(f.cached.Some? && f.cached.value.rawType == event.runtimeType) ==>
              var eventType := GetEventType(s, event);
              && (r.2.Err? <==> (strict.strict && EventTypeCheck(strict.cfg, eventType).Some?) || s.checkQualifiers(f.qualifiers).Some?)
              && (r.2.Ok? ==>
                    var built := BuildEventResolvable(s.typeClosure, s.checkQualifiers, eventType, f.qualifiers);
                    && built.Ok?
                    && r.2.value.observers == s.resolve(built.value)
                    && r.2.value.metadata == EventMetadata(eventType, f.injectionPoint, f.qualifiers))
  {
    if f.cached.Some? && f.cached.value.rawType == event.runtimeType then (f, strict, Ok(f.cached.value))
    else
      var eventType := GetEventType(s, event);
      var (n1, resolved) := ResolveObserverMethods(strict, eventType, f.qualifiers, s.typeClosure, s.checkQualifiers, s.resolve);
      match resolved
      case Err(e) => (f, n1, Err(e))
      case Ok(observers) =>
        var entry := CachedObservers(event.runtimeType, observers, EventMetadata(eventType, f.injectionPoint, f.qualifiers));
        (f.(cached := Some(entry)), n1, Ok(entry))
  }

  /** `fire(event)`: a null event is rejected; otherwise the (possibly cached) observers are
      notified with the cached metadata through the lenient notifier. */
  function Fire(f: EventFacade, strict: Notifier, s: Services, event: Option<EventObject>, deliver: Delivery)
    : (r: (EventFacade, Notifier, SyncRun))
    requires CachesSound(strict)
    ensures CachesSound(r.1)
    ensures event.None? ==> r == (f, strict, SyncRun([], Some(IllegalArgument("event"))))
    ensures event.Some? ==>
              var (f1, n1, cached) := GetObservers(f, strict, s, event.value);
              && r.0 == f1 && r.1 == n1
              && (cached.Err? ==> r.2 == SyncRun([], Some(cached.error)))
              && (cached.Ok? ==> r.2 == NotifyObservers(cached.value.observers, event.value, Some(cached.value.metadata), deliver))
  {
    match event
    case None => (f, strict, SyncRun([], Some(IllegalArgument("event"))))
    case Some(e) =>
      var (f1, n1, cached) := GetObservers(f, strict, s, e);
      match cached
      case Err(err) => (f1, n1, SyncRun([], Some(err)))
      case Ok(entry) => (f1, n1, NotifyObservers(entry.observers, e, Some(entry.metadata), deliver))
  }

  /** `selectEvent`: the strict event-type check runs on the subtype; a new facade of that
      type with the merged qualifiers and an empty cache is returned. */
  function SelectEvent(f: EventFacade, strict: Notifier, s: Services, subtype: JType, newQualifiers: seq<Annotation>)
    : (r: (Notifier, Result<EventFacade, Throwable>))
    requires CachesSound(strict)
    ensures CachesSound(r.0)
    ensures r.1.Err? <==> strict.strict && EventTypeCheck(strict.cfg, subtype).Some?
    ensures r.1.Ok? ==>
              r.1.value == EventFacade(subtype, f.injectionPoint, s.mergeQualifiers(f.qualifiers, newQualifiers), None)
  {
    var (n1, verdict) := CheckEventObjectType(strict, subtype);
    if verdict.Some? then (n1, Err(verdict.value))
    else (n1, Ok(EventFacade(subtype, f.injectionPoint, s.mergeQualifiers(f.qualifiers, newQualifiers), None)))
  }

  /** `select(qualifiers)`: a selection keeping the facade's own type. */
  function Select(f: EventFacade, strict: Notifier, s: Services, newQualifiers: seq<Annotation>)
    : (r: (Notifier, Result<EventFacade, Throwable>))
    requires CachesSound(strict)
    ensures CachesSound(r.0)
    ensures r.1.Ok? ==> r.1.value.facadeType == f.facadeType && r.1.value.cached.None?
    ensures r.1.Err? <==> strict.strict && EventTypeCheck(strict.cfg, f.facadeType).Some?
  {
    SelectEvent(f, strict, s, f.facadeType, newQualifiers)
  }

  /** `select(Class, qualifiers)` and `select(TypeLiteral, qualifiers)`: a null subtype is
      rejected before any check. */
  function SelectSubtype(f: EventFacade, strict: Notifier, s: Services, subtype: Option<JType>, newQualifiers: seq<Annotation>)
    : (r: (Notifier, Result<EventFacade, Throwable>))
    requires CachesSound(strict)
    ensures CachesSound(r.0)
    ensures subtype.None? ==> r == (strict, Err(IllegalArgument("subtype")))
    ensures subtype.Some? ==>
              (r.1.Err? <==> strict.strict && EventTypeCheck(strict.cfg, subtype.value).Some?)
              && (r.1.Ok? ==> r.1.value.facadeType == subtype.value && r.1.value.cached.None?)
  {
    match subtype
    case None => (strict, Err(IllegalArgument("subtype")))
    case Some(t) => SelectEvent(f, strict, s, t, newQualifiers)
  }

  // ---- properties ----

  /** A successful lookup fills the cache so that a second lookup for an event of the same
      runtime class is a hit: it returns the same entry and resolves nothing. */
  lemma SecondLookupHitsCache(f: EventFacade, strict: Notifier, s: Services, e1: EventObject, e2: EventObject)
    requires CachesSound(strict)
    requires GetObservers(f, strict, s, e1).2.Ok?
    requires e1.runtimeType == e2.runtimeType
    ensures var (f1, n1, c1) := GetObservers(f, strict, s, e1);
            GetObservers(f1, n1, s, e2) == (f1, n1, c1)
  {
  }

  /** An event of a different runtime class replaces the single entry. */
  lemma DifferentClassReplacesEntry(f: EventFacade, strict: Notifier, s: Services, e: EventObject)
    requires CachesSound(strict)
    requires f.cached.Some? && f.cached.value.rawType != e.runtimeType
    requires GetObservers(f, strict, s, e).2.Ok?
    ensures GetObservers(f, strict, s, e).0.cached.value.rawType == e.runtimeType
    ensures GetObservers(f, strict, s, e).0.cached != f.cached
  {
  }
}
