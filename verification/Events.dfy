/** The values that flow through event resolution and delivery. */
module Events {
  import opened JavaTypes
  import opened QualifierInstances

  datatype TransactionPhase = IN_PROGRESS | BEFORE_COMPLETION | AFTER_COMPLETION | AFTER_FAILURE | AFTER_SUCCESS

  /** The part of an ObserverMethod that resolution and delivery look at. `metadataRequired`
      is what `Observers.isEventMetadataRequired` reports for it. */
  datatype Observer = Observer(id: string, phase: TransactionPhase, metadataRequired: bool, isAsync: bool)

  /** An event object. `runtimeType` is the canonical form of `event.getClass()`: a generic
      class appears with its own type variables as arguments. */
  datatype EventObject = EventObject(runtimeType: JType, payload: int)

  /** EventMetadataImpl: the resolved event type, the injection point it was fired through
      and the qualifiers. */
  datatype EventMetadata = EventMetadata(eventType: JType, injectionPoint: string, qualifiers: seq<Annotation>)

  predicate IsImmediate(o: Observer) {
    o.phase == IN_PROGRESS
  }

  predicate IsTransactional(o: Observer) {
    o.phase != IN_PROGRESS
  }
}
