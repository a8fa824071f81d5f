/** Event delivery: synchronous delivery that stops at the first failure, asynchronous
    delivery that notifies everyone and aggregates failures, and the strict event-type
    checks with their memoising caches.

    Delivery is described by the sequence of observable steps it performs: pushes and pops
    of the current-event-metadata stack and notifications of observers. Whether notifying an
    observer fails is an input (`Delivery`), as `Observers.notify` is not part of this model. */
module ObserverNotifiers {
  import opened Outcomes
  import opened JavaTypes
  import opened Throwables
  import opened QualifierInstances
  import opened Events
  import SeqUtil

  /** The observer lists the notifier reads from a resolution result: the immediate
      synchronous observers, the transactional ones and the asynchronous ones. */
  datatype ObserverLists = ObserverLists(
    immediateSync: seq<Observer>,
    transaction: seq<Observer>,
    async: seq<Observer>,
    metadataRequired: bool)

  datatype Step =
    | PushMetadata(pushed: EventMetadata)
    | Notify(observer: Observer, event: EventObject, metadata: Option<EventMetadata>)
    | PopMetadata

  /** The failure, if any, raised by notifying an observer with an event and metadata. */
  type Delivery = (Observer, EventObject, Option<EventMetadata>) -> Option<Throwable>

  /** A synchronous run: the steps performed and the exception thrown out of it, if any. */
  datatype SyncRun = SyncRun(steps: seq<Step>, thrown: Option<Throwable>)

  datatype Executor = Executor(name: string)

  /** An asynchronous delivery stage: the executor it runs on, the steps its task performs,
      and how it completes. */
  datatype AsyncStage = AsyncStage(executor: Executor, steps: seq<Step>, outcome: Result<EventObject, Throwable>)

  /** The observers notified by a sequence of steps, in order. */
  function Notified(steps: seq<Step>): (r: seq<Observer>)
    ensures |r| <= |steps|
  {
    if |steps| == 0 then []
    else (if steps[0].Notify? then [steps[0].observer] else []) + Notified(steps[1..])
  }

  lemma {:induction false} NotifiedAppend(a: seq<Step>, b: seq<Step>)
    ensures Notified(a + b) == Notified(a) + Notified(b)
  {
    if |a| == 0 {
      assert a + b == b;
    } else {
      var head := if a[0].Notify? then [a[0].observer] else [];
      assert (a + b)[0] == a[0];
      assert (a + b)[1..] == a[1..] + b;
      NotifiedAppend(a[1..], b);
      assert Notified(a + b) == head + (Notified(a[1..]) + Notified(b));
      assert Notified(a) == head + Notified(a[1..]);
    }
  }

  /** One notification step per observer, in order. */
  function Notifications(observers: seq<Observer>, event: EventObject, metadata: Option<EventMetadata>): (r: seq<Step>)
    ensures |r| == |observers|
    ensures forall i :: 0 <= i < |r| ==> r[i] == Notify(observers[i], event, metadata)
  {
    seq(|observers|, i requires 0 <= i < |observers| => Notify(observers[i], event, metadata))
  }

  lemma {:induction false} NotifiedNotifications(observers: seq<Observer>, event: EventObject, metadata: Option<EventMetadata>)
    ensures Notified(Notifications(observers, event, metadata)) == observers
  {
    if |observers| > 0 {
      var steps := Notifications(observers, event, metadata);
      assert steps[1..] == Notifications(observers[1..], event, metadata);
      NotifiedNotifications(observers[1..], event, metadata);
    }
  }

  /** Notifying a prefix of `n + 1` observers notifies the first, then a prefix of the rest. */
  lemma NotificationsCons(observers: seq<Observer>, n: nat, event: EventObject, metadata: Option<EventMetadata>)
    requires n < |observers|
    ensures Notifications(observers[..n + 1], event, metadata)
            == [Notify(observers[0], event, metadata)] + Notifications(observers[1..][..n], event, metadata)
  {
    var lhs := Notifications(observers[..n + 1], event, metadata);
    var rhs := [Notify(observers[0], event, metadata)] + Notifications(observers[1..][..n], event, metadata);
    assert |lhs| == |rhs|;
    forall i | 0 <= i < |lhs|
      ensures lhs[i] == rhs[i]
    {
      if i > 0 {
        assert observers[1..][..n][i - 1] == observers[i];
      }
    }
  }

  /** `pushIfNotNull`, and the matching pop of the returned stack reference. */
  function PushIfNotNull(metadata: Option<EventMetadata>): seq<Step> {
    if metadata.Some? then [PushMetadata(metadata.value)] else []
  }

  function PopIfPushed(metadata: Option<EventMetadata>): seq<Step> {
    if metadata.Some? then [PopMetadata] else []
  }

  lemma NotifiedBracketed(metadata: Option<EventMetadata>, body: seq<Step>)
    ensures Notified(PushIfNotNull(metadata) + body + PopIfPushed(metadata)) == Notified(body)
  {
    NotifiedAppend(PushIfNotNull(metadata) + body, PopIfPushed(metadata));
    NotifiedAppend(PushIfNotNull(metadata), body);
  }

  /** IMMEDIATE_HANDLER: runtime exceptions and errors are rethrown as they are, any other
      throwable is wrapped in an ObserverException. */
  function ImmediateHandler(t: Throwable): (r: Throwable)
    ensures IsRuntimeException(t) || IsError(t) ==> r == t
    ensures t.CheckedFailure? ==> r == ObserverException(t)
    ensures IsRuntimeException(r) || IsError(r)
  {
    if IsRuntimeException(t) then t
    else if IsError(t) then t
    else ObserverException(t)
  }

  /** The loop of `notifySyncObservers` under IMMEDIATE_HANDLER: observers are notified in
      order, and the first failure is handed to the handler, which throws. */
  function FailFast(observers: seq<Observer>, event: EventObject, metadata: Option<EventMetadata>, deliver: Delivery): (r: SyncRun)
    ensures |r.steps| <= |observers|
    ensures r.steps == Notifications(observers[..|r.steps|], event, metadata)
    ensures r.thrown.None? <==> forall i :: 0 <= i < |observers| ==> deliver(observers[i], event, metadata).None?
    ensures r.thrown.None? ==> |r.steps| == |observers|
    ensures r.thrown.Some? ==>
              var k := |r.steps| - 1;
              && 0 <= k
              && deliver(observers[k], event, metadata).Some?
              && r.thrown == Some(ImmediateHandler(deliver(observers[k], event, metadata).value))
              && forall i :: 0 <= i < k ==> deliver(observers[i], event, metadata).None?
  {
    if |observers| == 0 then SyncRun([], None)
    else
      var first := Notify(observers[0], event, metadata);
      match deliver(observers[0], event, metadata)
      case Some(t) => SyncRun([first], Some(ImmediateHandler(t)))
      case None =>
        var rest := FailFast(observers[1..], event, metadata, deliver);
        NotificationsCons(observers, |rest.steps|, event, metadata);
        assert forall i :: 0 <= i < |observers[1..]| ==> observers[1..][i] == observers[i + 1];
        assert rest.thrown.None? ==> forall i :: 0 <= i < |observers| ==> deliver(observers[i], event, metadata).None? by {
          if rest.thrown.None? {
            forall i | 0 <= i < |observers|
              ensures deliver(observers[i], event, metadata).None?
            {
              if i > 0 {
                assert observers[i] == observers[1..][i - 1];
              }
            }
          }
        }
        SyncRun([first] + rest.steps, rest.thrown)
  }

  /** `notifySyncObservers`: nothing at all for an empty list; otherwise the metadata is
      pushed (when non-null), the observers are notified until one fails, and the stack is
      popped whether or not a failure escapes. */
  function NotifySyncObservers(observers: seq<Observer>, event: EventObject, metadata: Option<EventMetadata>, deliver: Delivery): (r: SyncRun)
    ensures |observers| == 0 ==> r == SyncRun([], None)
    ensures |observers| > 0 && metadata.Some? ==>
              |r.steps| >= 2 && r.steps[0] == PushMetadata(metadata.value) && r.steps[|r.steps| - 1] == PopMetadata
    ensures metadata.None? ==> forall i :: 0 <= i < |r.steps| ==> r.steps[i].Notify?
    ensures forall i :: 0 <= i < |r.steps| && r.steps[i].Notify? ==> r.steps[i].metadata == metadata
    ensures r.thrown == FailFast(observers, event, metadata, deliver).thrown
    ensures Notified(r.steps) == observers[..|FailFast(observers, event, metadata, deliver).steps|]
    ensures r.thrown.None? ==> Notified(r.steps) == observers
    ensures r.thrown.Some? ==>
              0 < |Notified(r.steps)| <= |observers| && Notified(r.steps) == observers[..|Notified(r.steps)|]
  {
    if |observers| == 0 then SyncRun([], None)
    else
      var run := FailFast(observers, event, metadata, deliver);
      NotifiedBracketed(metadata, run.steps);
      NotifiedNotifications(observers[..|run.steps|], event, metadata);
      assert run.thrown.None? ==> observers[..|run.steps|] == observers;
      SyncRun(PushIfNotNull(metadata) + run.steps + PopIfPushed(metadata), run.thrown)
  }

  lemma PrefixOfConcat(a: seq<Observer>, b: seq<Observer>, n: seq<Observer>)
    requires |n| <= |b| && n == b[..|n|]
    ensures a + n == (a + b)[..|a| + |n|]
  {
  }

  /** Every step notifies an observer without metadata. */
  predicate BareNotifications(steps: seq<Step>) {
    forall i :: 0 <= i < |steps| ==> steps[i].Notify? && steps[i].metadata.None?
  }

  lemma BareNotificationsAppend(a: seq<Step>, b: seq<Step>)
    ensures BareNotifications(a) && BareNotifications(b) ==> BareNotifications(a + b)
  {
    forall i | 0 <= i < |a + b| && BareNotifications(a) && BareNotifications(b)
      ensures (a + b)[i].Notify? && (a + b)[i].metadata.None?
    {
      if i < |a| { assert (a + b)[i] == a[i]; } else { assert (a + b)[i] == b[i - |a|]; }
    }
  }

  /** Without metadata, synchronous delivery produces notifications only. */
  lemma SyncWithoutMetadataIsBare(observers: seq<Observer>, event: EventObject, deliver: Delivery)
    ensures BareNotifications(NotifySyncObservers(observers, event, None, deliver).steps)
  {
  }

  /** Failing fast over two lists in a row is failing fast over the first and, if nothing
      failed there, over the second. */
  lemma {:induction false} FailFastAppend(a: seq<Observer>, b: seq<Observer>, event: EventObject,
                                          metadata: Option<EventMetadata>, deliver: Delivery)
    ensures var ra := FailFast(a, event, metadata, deliver);
            var rab := FailFast(a + b, event, metadata, deliver);
            && (ra.thrown.Some? ==> rab.thrown == ra.thrown && |rab.steps| == |ra.steps|)
            && (ra.thrown.None? ==> rab.thrown == FailFast(b, event, metadata, deliver).thrown
                                    && |rab.steps| == |a| + |FailFast(b, event, metadata, deliver).steps|)
  {
    if |a| == 0 {
      assert a + b == b;
    } else {
      assert (a + b)[0] == a[0];
      assert (a + b)[1..] == a[1..] + b;
      FailFastAppend(a[1..], b, event, metadata, deliver);
    }
  }

  /** The observers failing fast over two lists in a row reaches are those it reaches over
      the first list and, if nothing failed there, the whole first list followed by those
      it reaches over the second. */
  lemma FailFastPrefixes(a: seq<Observer>, b: seq<Observer>, event: EventObject,
                         metadata: Option<EventMetadata>, deliver: Delivery)
    ensures var ra := FailFast(a, event, metadata, deliver);
            var rb := FailFast(b, event, metadata, deliver);
            var whole := FailFast(a + b, event, metadata, deliver);
            && (ra.thrown.Some? ==> whole.thrown == ra.thrown && (a + b)[..|whole.steps|] == a[..|ra.steps|])
            && (ra.thrown.None? ==> whole.thrown == rb.thrown && (a + b)[..|whole.steps|] == a + b[..|rb.steps|])
  {
    FailFastAppend(a, b, event, metadata, deliver);
    var ra := FailFast(a, event, metadata, deliver);
    var rb := FailFast(b, event, metadata, deliver);
    if ra.thrown.Some? {
      assert (a + b)[..|ra.steps|] == a[..|ra.steps|];
    } else {
      assert (a + b)[..|a| + |rb.steps|] == a + b[..|rb.steps|];
    }
  }

  /** `notify(observers, event, metadata)`: metadata is dropped unless some observer needs
      it; the immediate observers are notified first and then, if none failed, the
      transactional ones (this base notifier has no transaction support). Taken together
      this is failing fast over both lists in order: delivery stops at the first observer
      that fails, and what that observer threw, through the handler, is what escapes. */
  function NotifyObservers(lists: ObserverLists, event: EventObject, metadata: Option<EventMetadata>, deliver: Delivery): (r: SyncRun)
    ensures !lists.metadataRequired ==> BareNotifications(r.steps)
    ensures var all := lists.immediateSync + lists.transaction;
            var md := if lists.metadataRequired then metadata else None;
            && r.thrown == FailFast(all, event, md, deliver).thrown
            && Notified(r.steps) == all[..|FailFast(all, event, md, deliver).steps|]
    ensures r.thrown.None? ==> Notified(r.steps) == lists.immediateSync + lists.transaction
    ensures r.thrown.Some? ==>
              var n := Notified(r.steps);
              && 0 < |n| <= |lists.immediateSync + lists.transaction|
              && n == (lists.immediateSync + lists.transaction)[..|n|]
  {
    var md := if lists.metadataRequired then metadata else None;
    var first := NotifySyncObservers(lists.immediateSync, event, md, deliver);
    SyncWithoutMetadataIsBare(lists.immediateSync, event, deliver);
    FailFastPrefixes(lists.immediateSync, lists.transaction, event, md, deliver);
    if first.thrown.Some? then
      assert (lists.immediateSync + lists.transaction)[..|Notified(first.steps)|] == lists.immediateSync[..|Notified(first.steps)|];
      first
    else
      var second := NotifySyncObservers(lists.transaction, event, md, deliver);
      NotifiedAppend(first.steps, second.steps);
      SyncWithoutMetadataIsBare(lists.transaction, event, deliver);
      BareNotificationsAppend(first.steps, second.steps);
      PrefixOfConcat(lists.immediateSync, lists.transaction, Notified(second.steps));
      SyncRun(first.steps + second.steps, second.thrown)
  }

  /** Delivery stops at the first observer that fails: the last observer notified is the
      one that failed, what it threw (through the handler) escapes, and every observer
      before it succeeded. */
  lemma NotifyObserversStopsAtFirstFailure(lists: ObserverLists, event: EventObject, metadata: Option<EventMetadata>, deliver: Delivery)
    requires NotifyObservers(lists, event, metadata, deliver).thrown.Some?
    ensures var r := NotifyObservers(lists, event, metadata, deliver);
            var n := Notified(r.steps);
            var md := if lists.metadataRequired then metadata else None;
            && 0 < |n|
            && deliver(n[|n| - 1], event, md).Some?
            && r.thrown == Some(ImmediateHandler(deliver(n[|n| - 1], event, md).value))
            && forall i :: 0 <= i < |n| - 1 ==> deliver(n[i], event, md).None?
  {
    var all := lists.immediateSync + lists.transaction;
    var md := if lists.metadataRequired then metadata else None;
    var whole := FailFast(all, event, md, deliver);
    var n := Notified(NotifyObservers(lists, event, metadata, deliver).steps);
    assert n == all[..|whole.steps|];
    assert n[|n| - 1] == all[|whole.steps| - 1];
    forall i | 0 <= i < |n| - 1
      ensures deliver(n[i], event, md).None?
    {
      assert n[i] == all[i];
    }
  }

  /** What notifying each observer gives, in notification order: `None` for success and the
      throwable for a failure. */
  function DeliveryOutcomes(observers: seq<Observer>, event: EventObject, metadata: Option<EventMetadata>, deliver: Delivery): (r: seq<Option<Throwable>>)
    ensures |r| == |observers| && forall i :: 0 <= i < |observers| ==> r[i] == deliver(observers[i], event, metadata)
  {
    SeqUtil.Map(observers, (o: Observer) => deliver(o, event, metadata))
  }

  /** The failures collected by CollectingExceptionHandler: the throwable of every failing
      observer, each once and in notification order. */
  function CollectFailures(observers: seq<Observer>, event: EventObject, metadata: Option<EventMetadata>, deliver: Delivery): (r: seq<Throwable>)
    ensures r == SeqUtil.Somes(DeliveryOutcomes(observers, event, metadata, deliver))
    ensures |r| <= |observers|
    ensures |r| == 0 <==> forall i :: 0 <= i < |observers| ==> deliver(observers[i], event, metadata).None?
    ensures forall t :: t in r ==> exists i :: 0 <= i < |observers| && deliver(observers[i], event, metadata) == Some(t)
  {
    if |observers| == 0 then []
    else
      var rest := CollectFailures(observers[1..], event, metadata, deliver);
      assert forall t :: t in rest ==> exists i :: 0 <= i < |observers| && deliver(observers[i], event, metadata) == Some(t) by {
        forall t | t in rest
          ensures exists i :: 0 <= i < |observers| && deliver(observers[i], event, metadata) == Some(t)
        {
          var j :| 0 <= j < |observers[1..]| && deliver(observers[1..][j], event, metadata) == Some(t);
          assert deliver(observers[j + 1], event, metadata) == Some(t);
        }
      }
      assert DeliveryOutcomes(observers, event, metadata, deliver)[1..] == DeliveryOutcomes(observers[1..], event, metadata, deliver);
      match deliver(observers[0], event, metadata)
      case Some(t) => [t] + rest
      case None => rest
  }

  /** Collecting over two lists of observers collects over the first, then over the second. */
  lemma CollectFailuresAppend(a: seq<Observer>, b: seq<Observer>, event: EventObject,
                              metadata: Option<EventMetadata>, deliver: Delivery)
    ensures CollectFailures(a + b, event, metadata, deliver)
            == CollectFailures(a, event, metadata, deliver) + CollectFailures(b, event, metadata, deliver)
  {
    var outcomes := DeliveryOutcomes(a + b, event, metadata, deliver);
    assert outcomes == DeliveryOutcomes(a, event, metadata, deliver) + DeliveryOutcomes(b, event, metadata, deliver);
    SeqUtil.SomesAppend(DeliveryOutcomes(a, event, metadata, deliver), DeliveryOutcomes(b, event, metadata, deliver));
  }

  /** No failure is lost and the order is kept: the failure of the observer at index `i`
      sits in the collected list after the failures of every observer before it and before
      the failures of every observer after it. */
  lemma CollectFailuresKeepsEvery(observers: seq<Observer>, event: EventObject, metadata: Option<EventMetadata>,
                                  deliver: Delivery, i: nat, t: Throwable)
    requires i < |observers| && deliver(observers[i], event, metadata) == Some(t)
    ensures CollectFailures(observers, event, metadata, deliver)
            == CollectFailures(observers[..i], event, metadata, deliver) + [t]
               + CollectFailures(observers[i + 1..], event, metadata, deliver)
  {
    var tail := observers[i..];
    assert tail[1..] == observers[i + 1..];
    CollectFailuresAtTail(tail, event, metadata, deliver, t);
    CollectFailuresSplit(observers, i, event, metadata, deliver);
    ConcatAround(CollectFailures(observers, event, metadata, deliver), CollectFailures(observers[..i], event, metadata, deliver),
                 CollectFailures(tail, event, metadata, deliver), t, CollectFailures(observers[i + 1..], event, metadata, deliver));
  }

  /** Replacing the tail of a concatenation by its own split. */
  lemma ConcatAround(whole: seq<Throwable>, before: seq<Throwable>, tail: seq<Throwable>, t: Throwable, after: seq<Throwable>)
    requires whole == before + tail && tail == [t] + after
    ensures whole == before + [t] + after
  {
  }

  /** A failing first observer's failure heads the collected list. */
  lemma CollectFailuresAtTail(tail: seq<Observer>, event: EventObject, metadata: Option<EventMetadata>,
                              deliver: Delivery, t: Throwable)
    requires |tail| > 0 && deliver(tail[0], event, metadata) == Some(t)
    ensures CollectFailures(tail, event, metadata, deliver) == [t] + CollectFailures(tail[1..], event, metadata, deliver)
  {
  }

  /** Collecting over a list split at `i`. */
  lemma CollectFailuresSplit(observers: seq<Observer>, i: nat, event: EventObject, metadata: Option<EventMetadata>, deliver: Delivery)
    requires i <= |observers|
    ensures CollectFailures(observers, event, metadata, deliver)
            == CollectFailures(observers[..i], event, metadata, deliver) + CollectFailures(observers[i..], event, metadata, deliver)
  {
    assert observers == observers[..i] + observers[i..];
    CollectFailuresAppend(observers[..i], observers[i..], event, metadata, deliver);
  }

  /** The exception an asynchronous stage fails with: a CompletionException whose cause is
      the only failure, or null when there are several, with every failure suppressed. */
  function AggregateFailure(failures: seq<Throwable>): (r: Throwable)
    requires |failures| > 0
    ensures r.CompletionException? && r.suppressed == failures
    ensures r.completionCause == (if |failures| == 1 then Some(failures[0]) else None)
  {
    var exception := if |failures| == 1 then CompletionException(Some(failures[0]), []) else CompletionException(None, []);
    exception.(suppressed := failures)
  }

  /** `notifyAsync`: metadata is dropped unless needed; a missing executor is replaced by the
      default one; an empty list completes at once with the event; otherwise the submitted job
      notifies every observer in order, whatever fails, and completes with the event or with
      the aggregate failure. */
  function NotifyAsync(lists: ObserverLists, event: EventObject, metadata: Option<EventMetadata>,
                       executor: Option<Executor>, defaultExecutor: Executor, deliver: Delivery): (r: AsyncStage)
    ensures r.executor == (if executor.Some? then executor.value else defaultExecutor)
    ensures |lists.async| == 0 ==> r.steps == [] && r.outcome == Ok(event)
    ensures Notified(r.steps) == lists.async
    ensures !lists.metadataRequired ==>
              forall i :: 0 <= i < |r.steps| ==> r.steps[i].Notify? && r.steps[i].metadata.None?
    ensures r.outcome.Ok? <==>
              forall i :: 0 <= i < |lists.async| ==>
                deliver(lists.async[i], event, if lists.metadataRequired then metadata else None).None?
    ensures r.outcome.Ok? ==> r.outcome.value == event
    ensures r.outcome.Err? ==>
              var failures := CollectFailures(lists.async, event, if lists.metadataRequired then metadata else None, deliver);
              && r.outcome.error.CompletionException?
              && r.outcome.error.suppressed == failures
              && failures == SeqUtil.Somes(DeliveryOutcomes(lists.async, event, if lists.metadataRequired then metadata else None, deliver))
              && r.outcome.error.completionCause == (if |failures| == 1 then Some(failures[0]) else None)
  {
    var md := if lists.metadataRequired then metadata else None;
    var exec := if executor.Some? then executor.value else defaultExecutor;
    if |lists.async| == 0 then AsyncStage(exec, [], Ok(event))
    else
      var steps := PushIfNotNull(md) + Notifications(lists.async, event, md) + PopIfPushed(md);
      AsyncSteps(lists.async, event, md);
      var failures := CollectFailures(lists.async, event, md, deliver);
      var outcome := if |failures| == 0 then Ok(event) else Err(AggregateFailure(failures));
      AsyncStage(exec, steps, outcome)
  }

  /** The steps of the submitted job: every observer is notified in order, between the push
      and pop of the metadata, if any. */
  lemma AsyncSteps(observers: seq<Observer>, event: EventObject, md: Option<EventMetadata>)
    ensures var steps := PushIfNotNull(md) + Notifications(observers, event, md) + PopIfPushed(md);
            && Notified(steps) == observers
            && (md.None? ==> forall i :: 0 <= i < |steps| ==> steps[i].Notify? && steps[i].metadata.None?)
  {
    var body := Notifications(observers, event, md);
    NotifiedNotifications(observers, event, md);
    NotifiedBracketed(md, body);
    if md.None? {
      assert PushIfNotNull(md) + body + PopIfPushed(md) == body;
    }
  }

  // ---- strict event-type checks ----

  /** The container-lifecycle event supertypes and class assignability
      (`Class.isAssignableFrom`), which are not part of this model. */
  datatype CheckConfig = CheckConfig(lifecycleSupertypes: seq<ClassName>, isAssignableFrom: (ClassName, JType) -> bool)

  const TYPE_PARAMETER_NOT_ALLOWED: string := "typeParameterNotAllowedInEventType"
  const EVENT_TYPE_NOT_ALLOWED: string := "eventTypeNotAllowed"

  /** EventTypeCheck: a type variable or wildcard anywhere in the event type, or a raw type
      assignable to a container-lifecycle event supertype, is rejected. `None` is the
      no-exception marker. */
  function EventTypeCheck(cfg: CheckConfig, eventType: JType): (r: Option<Throwable>)
    ensures r.None? <==>
              !ContainsTypeVariableOrWildcard(eventType)
              && forall i :: 0 <= i < |cfg.lifecycleSupertypes| ==> !cfg.isAssignableFrom(cfg.lifecycleSupertypes[i], RawType(eventType))
    ensures ContainsTypeVariableOrWildcard(eventType) ==> r == Some(IllegalArgument(TYPE_PARAMETER_NOT_ALLOWED))
    ensures r.Some? && !ContainsTypeVariableOrWildcard(eventType) ==> r == Some(IllegalArgument(EVENT_TYPE_NOT_ALLOWED))
  {
    if ContainsTypeVariableOrWildcard(eventType) then Some(IllegalArgument(TYPE_PARAMETER_NOT_ALLOWED))
    else if exists i :: 0 <= i < |cfg.lifecycleSupertypes| && cfg.isAssignableFrom(cfg.lifecycleSupertypes[i], RawType(eventType))
    then Some(IllegalArgument(EVENT_TYPE_NOT_ALLOWED))
    else None
  }

  /** EventSubtypeCheck: only type variables are rejected; wildcards are allowed. */
  function EventSubtypeCheck(eventType: JType): (r: Option<Throwable>)
    ensures r.None? <==> !ContainsTypeVariable(eventType)
    ensures r.Some? ==> r == Some(IllegalArgument(TYPE_PARAMETER_NOT_ALLOWED))
  {
    if ContainsTypeVariable(eventType) then Some(IllegalArgument(TYPE_PARAMETER_NOT_ALLOWED)) else None
  }

  /** Every type the subtype check rejects, the event-type check rejects as well. */
  lemma SubtypeCheckIsWeaker(cfg: CheckConfig, t: JType)
    requires EventSubtypeCheck(t).Some?
    ensures EventTypeCheck(cfg, t).Some?
  {
    TypeVariableImpliesUnresolved(t);
  }

  /** The notifier's state: whether it is strict, and the two memoising check caches
      (which a lenient notifier never creates). */
  datatype Notifier = Notifier(
    strict: bool,
    cfg: CheckConfig,
    typeCheckCache: map<JType, Option<Throwable>>,
    subtypeCheckCache: map<JType, Option<Throwable>>)

  /** Every cached verdict is the one the check computes. */
  predicate CachesSound(n: Notifier) {
    && (forall t :: t in n.typeCheckCache ==> n.typeCheckCache[t] == EventTypeCheck(n.cfg, t))
    && (forall t :: t in n.subtypeCheckCache ==> n.subtypeCheckCache[t] == EventSubtypeCheck(t))
  }

  function NewNotifier(strict: bool, cfg: CheckConfig): (n: Notifier)
    ensures CachesSound(n) && n.strict == strict && n.cfg == cfg
  {
    Notifier(strict, cfg, map[], map[])
  }

  /** `checkEventObjectType(Type)`: nothing when lenient; otherwise the cached (or freshly
      computed and cached) verdict, thrown unless it is the marker. */
  function CheckEventObjectType(n: Notifier, eventType: JType): (r: (Notifier, Option<Throwable>))
    requires CachesSound(n)
    ensures CachesSound(r.0)
    ensures r.0.strict == n.strict && r.0.cfg == n.cfg && r.0.subtypeCheckCache == n.subtypeCheckCache
    ensures !n.strict ==> r == (n, None)
    ensures n.strict ==> r.1 == EventTypeCheck(n.cfg, eventType) && eventType in r.0.typeCheckCache
  {
    if !n.strict then (n, None)
    else if eventType in n.typeCheckCache then (n, n.typeCheckCache[eventType])
    else
      var verdict := EventTypeCheck(n.cfg, eventType);
      (n.(typeCheckCache := n.typeCheckCache[eventType := verdict]), verdict)
  }

  /** `checkEventSubtype(Type)`, the same with the subtype check and its own cache. */
  function CheckEventSubtype(n: Notifier, subtype: JType): (r: (Notifier, Option<Throwable>))
    requires CachesSound(n)
    ensures CachesSound(r.0)
    ensures r.0.strict == n.strict && r.0.cfg == n.cfg && r.0.typeCheckCache == n.typeCheckCache
    ensures !n.strict ==> r == (n, None)
    ensures n.strict ==> r.1 == EventSubtypeCheck(subtype) && subtype in r.0.subtypeCheckCache
  {
    if !n.strict then (n, None)
    else if subtype in n.subtypeCheckCache then (n, n.subtypeCheckCache[subtype])
    else
      var verdict := EventSubtypeCheck(subtype);
      (n.(subtypeCheckCache := n.subtypeCheckCache[subtype := verdict]), verdict)
  }

  /** `clear()`: empties the event-type check cache; the subtype cache is kept. (The
      resolver's own cache, also cleared, is not part of this model.) */
  function Clear(n: Notifier): (r: Notifier)
    requires CachesSound(n)
    ensures CachesSound(r)
    ensures r.typeCheckCache == map[]
    ensures r.strict == n.strict && r.cfg == n.cfg && r.subtypeCheckCache == n.subtypeCheckCache
  {
    n.(typeCheckCache := map[])
  }

  /** The caches are transparent: a check gives the same verdict before and after any other
      check or a clear. */
  lemma CachesAreTransparent(n: Notifier, t: JType, u: JType)
    requires CachesSound(n)
    ensures CheckEventObjectType(CheckEventObjectType(n, u).0, t).1 == CheckEventObjectType(n, t).1
    ensures CheckEventObjectType(CheckEventSubtype(n, u).0, t).1 == CheckEventObjectType(n, t).1
    ensures CheckEventObjectType(Clear(n), t).1 == CheckEventObjectType(n, t).1
    ensures CheckEventSubtype(Clear(n), t).1 == CheckEventSubtype(n, t).1
  {
  }

  /** The resolvable built for an event: the event type's closure plus Object as types,
      and the given qualifiers followed by `@Any`, which is added unchecked. */
  datatype Resolvable = Resolvable(types: set<JType>, qualifiers: seq<Annotation>)

  const ANY_ANNOTATION: Annotation := Annotation(ANY, map[])

  /** The validation `ResolvableBuilder.addQualifiers` performs on the given qualifiers
      (ResolvableBuilder is not part of this model): it refuses, with the failure given, an
      annotation that is not a qualifier or one that is repeated, and is `None` when all
      of them are accepted. */
  type QualifierCheck = seq<Annotation> -> Option<Throwable>

  /** `buildEventResolvable`: the types are added first, then the qualifiers go through the
      builder's validation, and `@Any` is added after them unchecked. */
  function BuildEventResolvable(typeClosure: JType -> set<JType>, checkQualifiers: QualifierCheck,
                                eventType: JType, qualifiers: seq<Annotation>): (r: Result<Resolvable, Throwable>)
    ensures r.Err? <==> checkQualifiers(qualifiers).Some?
    ensures r.Err? ==> r.error == checkQualifiers(qualifiers).value
    ensures r.Ok? ==> ObjectType in r.value.types && typeClosure(eventType) <= r.value.types
    ensures r.Ok? ==> forall t :: t in r.value.types ==> t == ObjectType || t in typeClosure(eventType)
    ensures r.Ok? ==> |r.value.qualifiers| == |qualifiers| + 1 && r.value.qualifiers[..|qualifiers|] == qualifiers
    ensures r.Ok? ==> r.value.qualifiers[|qualifiers|] == ANY_ANNOTATION
  {
    match checkQualifiers(qualifiers)
    case Some(e) => Err(e)
    case None => Ok(Resolvable(typeClosure(eventType) + {ObjectType}, qualifiers + [ANY_ANNOTATION]))
  }

  /** `fireEvent(eventType, event, metadata, qualifiers)`: the strict check runs first, then
      the resolvable is built; a rejected type or a refused qualifier notifies nobody and its
      failure is thrown; otherwise the resolved observers are notified. */
  function FireEvent(n: Notifier, eventType: JType, event: EventObject, metadata: Option<EventMetadata>,
                     qualifiers: seq<Annotation>, typeClosure: JType -> set<JType>, checkQualifiers: QualifierCheck,
                     resolve: Resolvable -> ObserverLists, deliver: Delivery): (r: (Notifier, SyncRun))
    requires CachesSound(n)
    ensures CachesSound(r.0)
    ensures n.strict && EventTypeCheck(n.cfg, eventType).Some? ==>
              r.1 == SyncRun([], EventTypeCheck(n.cfg, eventType))
    ensures (!n.strict || EventTypeCheck(n.cfg, eventType).None?) && checkQualifiers(qualifiers).Some? ==>
              r.1 == SyncRun([], checkQualifiers(qualifiers))
    ensures (!n.strict || EventTypeCheck(n.cfg, eventType).None?) && checkQualifiers(qualifiers).None? ==>
              var built := BuildEventResolvable(typeClosure, checkQualifiers, eventType, qualifiers);
              built.Ok? && r.1 == NotifyObservers(resolve(built.value), event, metadata, deliver)
    ensures r.1.steps != [] ==> checkQualifiers(qualifiers).None?
  {
    var (n1, verdict) := CheckEventObjectType(n, eventType);
    if verdict.Some? then (n1, SyncRun([], verdict))
    else
      match BuildEventResolvable(typeClosure, checkQualifiers, eventType, qualifiers)
      case Err(e) => (n1, SyncRun([], Some(e)))
      case Ok(resolvable) => (n1, NotifyObservers(resolve(resolvable), event, metadata, deliver))
  }

  /** `resolveObserverMethods(eventType, qualifiers)`: the strict check, then the building of
      the resolvable, then resolution. */
  function ResolveObserverMethods(n: Notifier, eventType: JType, qualifiers: seq<Annotation>,
                                  typeClosure: JType -> set<JType>, checkQualifiers: QualifierCheck,
                                  resolve: Resolvable -> ObserverLists)
    : (r: (Notifier, Result<ObserverLists, Throwable>))
    requires CachesSound(n)
    ensures CachesSound(r.0)
    ensures r.1.Err? <==> (n.strict && EventTypeCheck(n.cfg, eventType).Some?) || checkQualifiers(qualifiers).Some?
    ensures n.strict && EventTypeCheck(n.cfg, eventType).Some? ==> r.1 == Err(EventTypeCheck(n.cfg, eventType).value)
    ensures (!n.strict || EventTypeCheck(n.cfg, eventType).None?) && checkQualifiers(qualifiers).Some? ==>
              r.1 == Err(checkQualifiers(qualifiers).value)
    ensures r.1.Ok? ==>
              var built := BuildEventResolvable(typeClosure, checkQualifiers, eventType, qualifiers);
              built.Ok? && r.1.value == resolve(built.value)
  {
    var (n1, verdict) := CheckEventObjectType(n, eventType);
    if verdict.Some? then (n1, Err(verdict.value))
    else
      match BuildEventResolvable(typeClosure, checkQualifiers, eventType, qualifiers)
      case Err(e) => (n1, Err(e))
      case Ok(resolvable) => (n1, Ok(resolve(resolvable)))
  }

  // ---- properties ----

  /** A lenient notifier never rejects an event type. */
  lemma LenientNeverThrows(n: Notifier, t: JType)
    requires CachesSound(n) && !n.strict
    ensures CheckEventObjectType(n, t).1.None? && CheckEventSubtype(n, t).1.None?
  {
  }

  /** Synchronous delivery is fail-fast: when the first observer fails, the second is never
      notified and the failure propagates after the handler. */
  lemma SyncStopsAtFirstFailure(lists: ObserverLists, event: EventObject, deliver: Delivery, a: Observer, b: Observer, t: Throwable)
    requires lists.immediateSync == [a, b] && lists.transaction == [] && !lists.metadataRequired
    requires deliver(a, event, None) == Some(t)
    ensures NotifyObservers(lists, event, None, deliver).thrown == Some(ImmediateHandler(t))
    ensures Notified(NotifyObservers(lists, event, None, deliver).steps) == [a]
  {
    var run := FailFast([a, b], event, None, deliver);
    assert run == SyncRun([Notify(a, event, None)], Some(ImmediateHandler(t)));
    assert Notified([Notify(a, event, None)]) == [a];
  }

  /** Asynchronous delivery with two observers, the second of which fails with a runtime
      exception: both are notified and the stage fails with a CompletionException whose
      cause is that exception and which suppresses it. */
  lemma AsyncCollectsSingleFailure(lists: ObserverLists, event: EventObject, deliver: Delivery,
                                   executor: Executor, a: Observer, b: Observer, t: Throwable)
    requires lists.async == [a, b] && !lists.metadataRequired
    requires deliver(a, event, None).None? && deliver(b, event, None) == Some(t) && IsRuntimeException(t)
    ensures Notified(NotifyAsync(lists, event, None, None, executor, deliver).steps) == [a, b]
    ensures NotifyAsync(lists, event, None, None, executor, deliver).outcome
            == Err(CompletionException(Some(t), [t]))
  {
    assert [a, b][1..] == [b];
    assert CollectFailures([b], event, None, deliver) == [t] by {
      assert [b][1..] == [];
    }
    assert CollectFailures([a, b], event, None, deliver) == [t];
  }

  /** Asynchronous delivery where both observers fail: the aggregate has no cause and
      suppresses both failures in notification order. */
  lemma AsyncCollectsSeveralFailures(lists: ObserverLists, event: EventObject, deliver: Delivery,
                                     executor: Executor, a: Observer, b: Observer, t1: Throwable, t2: Throwable)
    requires lists.async == [a, b] && !lists.metadataRequired
    requires deliver(a, event, None) == Some(t1) && deliver(b, event, None) == Some(t2)
    ensures NotifyAsync(lists, event, None, None, executor, deliver).outcome
            == Err(CompletionException(None, [t1, t2]))
  {
    assert [a, b][1..] == [b];
    assert CollectFailures([b], event, None, deliver) == [t2] by {
      assert [b][1..] == [];
    }
    assert CollectFailures([a, b], event, None, deliver) == [t1, t2];
  }
}
