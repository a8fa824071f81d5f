/** The notifier variant with transaction support: transactional observers are deferred to
    a transaction synchronization while a transaction is active, and notified at once
    otherwise. */
module TransactionalNotifiers {
  import opened Outcomes
  import opened Events
  import opened ObserverNotifiers

  /** DeferredEventNotification's status; `Status.valueOf(phase)` is not part of this model
      and is a parameter. */
  datatype Status = ALL | SUCCESS | FAILURE

  datatype DeferredNotification = DeferredNotification(
    contextId: string,
    event: EventObject,
    metadata: Option<EventMetadata>,
    observer: Observer,
    status: Status,
    before: bool)

  /** What one call did: the synchronous run, and the synchronizations it registered with
      the transaction, each holding its deferred notifications. */
  datatype TxRun = TxRun(run: SyncRun, registered: seq<seq<DeferredNotification>>)

  /** `deferNotification`: a notification capturing the event, metadata and observer, with
      the status derived from the phase; "before completion" exactly for BEFORE_COMPLETION. */
  function DeferNotification(contextId: string, event: EventObject, metadata: Option<EventMetadata>,
                             observer: Observer, statusOf: TransactionPhase -> Status): (d: DeferredNotification)
    ensures d.before <==> observer.phase == BEFORE_COMPLETION
    ensures d.event == event && d.metadata == metadata && d.observer == observer && d.contextId == contextId
    ensures d.status == statusOf(observer.phase)
  {
    DeferredNotification(contextId, event, metadata, observer, statusOf(observer.phase), observer.phase == BEFORE_COMPLETION)
  }

  /** `notifyTransactionObservers`: nothing for an empty list; synchronous delivery when
      there is no transaction service (`transactionActive` is None) or no active
      transaction; otherwise one deferred notification per observer, in order, handed to a
      single registered synchronization, and nobody is notified during the call. */
  function NotifyTransactionObservers(contextId: string, transactionActive: Option<bool>, observers: seq<Observer>,
                                      event: EventObject, metadata: Option<EventMetadata>, deliver: Delivery,
                                      statusOf: TransactionPhase -> Status): (r: TxRun)
    ensures |observers| == 0 ==> r == TxRun(SyncRun([], None), [])
    ensures transactionActive != Some(true) ==>
              r.registered == [] && r.run == NotifySyncObservers(observers, event, metadata, deliver)
    ensures |observers| > 0 && transactionActive == Some(true) ==>
              && r.run == SyncRun([], None)
              && |r.registered| == 1
              && |r.registered[0]| == |observers|
              && forall i :: 0 <= i < |observers| ==>
                   r.registered[0][i] == DeferNotification(contextId, event, metadata, observers[i], statusOf)
  {
    if |observers| == 0 then TxRun(SyncRun([], None), [])
    else if transactionActive.None? || !transactionActive.value then
      TxRun(NotifySyncObservers(observers, event, metadata, deliver), [])
    else
      var notifications := seq(|observers|, i requires 0 <= i < |observers| =>
                                 DeferNotification(contextId, event, metadata, observers[i], statusOf));
      TxRun(SyncRun([], None), [notifications])
  }

  /** `notify` on the transactional notifier: the immediate observers synchronously, then
      (if none failed) the transactional ones through the override above. Under an active
      transaction each transactional observer is deferred with the metadata kept only when
      some observer needs it, and a failure defers nothing. */
  function NotifyObserversInTransaction(contextId: string, transactionActive: Option<bool>, lists: ObserverLists,
                                        event: EventObject, metadata: Option<EventMetadata>, deliver: Delivery,
                                        statusOf: TransactionPhase -> Status): (r: TxRun)
    ensures transactionActive == Some(true) ==>
              forall o :: o in Notified(r.run.steps) ==> o in lists.immediateSync
    ensures r.run.thrown.None? && transactionActive == Some(true) ==> Notified(r.run.steps) == lists.immediateSync
    ensures r.run.thrown.None? && transactionActive == Some(true) && |lists.transaction| > 0 ==>
              var md := if lists.metadataRequired then metadata else None;
              && |r.registered| == 1 && |r.registered[0]| == |lists.transaction|
              && forall i :: 0 <= i < |lists.transaction| ==>
                   r.registered[0][i] == DeferNotification(contextId, event, md, lists.transaction[i], statusOf)
    ensures r.run.thrown.Some? ==> r.registered == []
    ensures transactionActive != Some(true) ==> r.registered == [] && r.run == NotifyObservers(lists, event, metadata, deliver)
  {
    var md := if lists.metadataRequired then metadata else None;
    var first := NotifySyncObservers(lists.immediateSync, event, md, deliver);
    if first.thrown.Some? then TxRun(first, [])
    else
      var second := NotifyTransactionObservers(contextId, transactionActive, lists.transaction, event, md, deliver, statusOf);
      NotifiedAppend(first.steps, second.run.steps);
      TxRun(SyncRun(first.steps + second.run.steps, second.run.thrown), second.registered)
  }

  /** With an active transaction a BEFORE_COMPLETION observer is deferred as "before" and an
      AFTER_SUCCESS observer as not "before". */
  lemma BeforeFlagFollowsPhase(contextId: string, event: EventObject, deliver: Delivery,
                               statusOf: TransactionPhase -> Status, a: Observer, b: Observer)
    requires a.phase == BEFORE_COMPLETION && b.phase == AFTER_SUCCESS
    ensures var r := NotifyTransactionObservers(contextId, Some(true), [a, b], event, None, deliver, statusOf);
            r.registered[0][0].before && !r.registered[0][1].before && Notified(r.run.steps) == []
  {
  }
}
