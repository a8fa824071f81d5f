# Weld CDI runtime: a Dafny model of its decision logic

This project models the sequential decision logic of Weld, the reference implementation of
CDI (Contexts and Dependency Injection for Java). It proves properties of the model. The
model covers six parts of the runtime:

- **Typesafe resolution values.** Bean-type assignability for raw and parameterized types,
  wildcards, type variables and arrays (section 5.2.4 of the CDI specification). Also the
  qualifier value, whose equality ignores `@Nonbinding` members (section 5.2.6).
- **Event resolution and delivery.**
  - Resolved observers are split into an immediate bucket and a transactional bucket.
  - Synchronous delivery stops at the first failure.
  - Asynchronous delivery notifies every observer and aggregates the failures.
  - Transactional observers are deferred while a transaction is active.
  - Strict event-type checks, and their memoising caches.
  - The `Event` facade keeps a single-entry observer cache.
  - Observer-method definition rules and dispatch.
- **The scope store.** `AbstractContext.get` creates an instance at most once per id.
  `destroy` removes one instance, and tearing the context down destroys them all.
- **Bean-metadata rules.**
  - Producer return-type checks and the producer's creational-context discipline.
  - The delegate of a synthetic decorator, and its decorated types.
  - The argument layout of static method injection points.
  - Specialization chains.
  - Interceptor dispatch, with its per-method chain cache.
- **Lifecycle state machines.**
  - The bootstrap phase guards.
  - The errors, dirty flag and veto flag of container events.
  - `AfterBeanDiscovery` validation and its deferred registration.
  - The probe's stack of invocation builders.
- **Deployment data and small serialisers.**
  - Scan-result ids.
  - Dispatch on the bean-discovery mode.
  - Merging archives.
  - The SE wrapper that hides `@Vetoed`.
  - The test-suite `beans.xml` writer.

Objects are immutable datatypes, and every operation returns the new state. A few methods
run loops over sets. Code the model does not include is passed in as a function-typed
parameter: reflection, the bean manager, `Observers.notify`, type closures, class
assignability and hashing of classes and maps. Exceptions are `Throwable` values. An
`Option` stands for a nullable reference. Java `int` arithmetic wraps explicitly (`Wrap32`).
Where a step is observable, the call returns a trace of steps: pushes and pops of the
metadata stack, notifications, creational contexts created and released, locks, and calls
forwarded by the bootstrap.

Modules, one per source class: `BeanTypeAssignability`, `BindingModels`,
`QualifierInstances`, `ResolvedObserverSets`, `ObserverNotifiers`,
`TransactionalNotifiers`, `EventFacades`, `ObserverMethods`, `ScopeContexts`,
`Specialization`, `MemberProducers`, `StaticInjection`, `SyntheticDecorators`,
`InterceptorHandlers`, `Bootstraps`, `ContainerEvents`, `AfterBeanDiscovery`,
`InvocationMonitors`, `ScanResults`, `DeploymentArchives`, `DiscoveryStrategies`,
`SeRegistrant`, `BeansXmlWriter`. Shared foundations: `Outcomes` (Option and Result),
`Throwables`, `JavaTypes`, `JavaInts`, `TextUtil`, `SeqUtil`, `Events`.

The source files come from different versions of the project:

- `ObserverNotifier` reads immediate, transactional and asynchronous observer lists that
  the `ResolvedObservers` shown here does not have. The notifier therefore takes these
  lists (`ObserverLists`) as its input. `ResolvedObserverSets` models the two-bucket class
  as written.
- `TransactionalObserverNotifier` calls a three-argument `notifySyncObservers`. It is
  modelled as the immediate-handler variant.

The model follows the code in each file as written. Where the code evidently errs, a finding below names both the as-written member and the corrected one.

## Model

| member | source | states |
|---|---|---|
| BeanTypeAssignability.AllUnboundedOrObject | impl/src/main/java/org/jboss/weld/resolution/BeanTypeAssignabilityRules.java:63-77 | true exactly when every type argument is an unbounded type variable or `Object` |
| BeanTypeAssignability.AreActualTypeArgumentsMatching | impl/src/main/java/org/jboss/weld/resolution/BeanTypeAssignabilityRules.java:45-61 | a raw required type matches only bean arguments that are all unbounded or `Object`; a raw bean type matches only when every required argument is an unbounded type variable or `Object`; otherwise the arguments are compared position by position |
| BeanTypeAssignability.MatchesWildcard | impl/src/main/java/org/jboss/weld/resolution/BeanTypeAssignabilityRules.java:80-103 | a type-variable bean type matches a wildcard when its bounds fall inside the wildcard's bounds; any other bean type matches when it lies between the wildcard's lower and upper bounds |
| BeanTypeAssignability.MatchesTypeVariable | impl/src/main/java/org/jboss/weld/resolution/BeanTypeAssignabilityRules.java:106-117 | a required type variable is matched only by a type variable whose bounds fall inside its own bounds |
| BeanTypeAssignability.IsAssignableFrom | impl/src/main/java/org/jboss/weld/resolution/BeanTypeAssignabilityRules.java:120-134 | a holder is compared as a holder; a type variable matches when the required type is assignable to every one of its bounds; a wildcard never matches |
| BeanTypeAssignability.ArraysMatch | impl/src/main/java/org/jboss/weld/resolution/BeanTypeAssignabilityRules.java:142-144 | two array types match exactly when their component types are equal |
| BeanTypeAssignability.RawMatchesRaw | impl/src/main/java/org/jboss/weld/resolution/BeanTypeAssignabilityRules.java:45-61 | a raw required type always matches a raw bean type |
| BeanTypeAssignability.RawRuleSymmetric | impl/src/main/java/org/jboss/weld/resolution/BeanTypeAssignabilityRules.java:52-57 | a raw required type matches bean arguments exactly when those arguments are all unbounded or `Object` |
| BeanTypeAssignability.RawRejectsConcreteArgument | impl/src/main/java/org/jboss/weld/resolution/BeanTypeAssignabilityRules.java:46-51 | a raw required type never matches a bean type with a concrete argument other than `Object` |
| BeanTypeAssignability.BoundedVariableBlocksRawRule | impl/src/main/java/org/jboss/weld/resolution/BeanTypeAssignabilityRules.java:63-77 | a type variable bounded by something other than `Object` blocks the raw rule; variables bounded only by `Object`, and `Object` itself, do not |
| BeanTypeAssignability.UnboundedWildcardMatchesConcrete | impl/src/main/java/org/jboss/weld/resolution/BeanTypeAssignabilityRules.java:95-102 | `?` matches every bean type that is not a type variable |
| BeanTypeAssignability.WildcardMatchesSameBoundVariable | impl/src/main/java/org/jboss/weld/resolution/BeanTypeAssignabilityRules.java:87-94 | `? extends B` matches a type variable bounded by `B` |
| BeanTypeAssignability.TypeVariableMatchesItself | impl/src/main/java/org/jboss/weld/resolution/BeanTypeAssignabilityRules.java:106-117 | a type variable matches itself under a reflexive subtyping |
| BeanTypeAssignability.ArraysNotCovariant | impl/src/main/java/org/jboss/weld/resolution/BeanTypeAssignabilityRules.java:142-144 | (example) `C1[]` does not match `C2[]` even when `C1` is a subtype of `C2`, but does match `C1[]` |
| BindingModels.InitNonBindingMembers | impl/src/main/java/org/jboss/weld/metadata/cache/AbstractBindingModel.java:53-64 | the loop collects exactly the members annotated `@Nonbinding` |
| BindingModels.Init | impl/src/main/java/org/jboss/weld/metadata/cache/AbstractBindingModel.java:48-51 | the model records the annotation type and its `@Nonbinding` members, and its validity is what the parent's initialisation decides about that model |
| BindingModels.NoNonbindingMeansAllBind | impl/src/main/java/org/jboss/weld/metadata/cache/AbstractBindingModel.java:54-56 | with no `@Nonbinding` member, every member is a binding member |
| QualifierInstances.Make | impl/src/main/java/org/jboss/weld/resolution/QualifierInstance.java:103-107 | the instance keeps its class and values, and its cached hash is the hash of that pair |
| QualifierInstances.AnyInstance | impl/src/main/java/org/jboss/weld/resolution/QualifierInstance.java:55 | the shared `@Any` instance has no values and a consistent hash |
| QualifierInstances.DefaultInstance | impl/src/main/java/org/jboss/weld/resolution/QualifierInstance.java:56 | the shared `@Default` instance has no values and a consistent hash |
| QualifierInstances.CreateValues | impl/src/main/java/org/jboss/weld/resolution/QualifierInstance.java:109-137 | succeeds exactly when the annotation has a value for every binding member; the map then holds exactly the binding members' values; a member-less type gives the empty map; failure is a Weld exception |
| QualifierInstances.Of | impl/src/main/java/org/jboss/weld/resolution/QualifierInstance.java:85-97 | `@Any` and `@Default` give the shared instances; `@Named` keeps only its value; any other qualifier keeps its binding values; every result keeps the qualifier's class and a consistent hash |
| QualifierInstances.Equals | impl/src/main/java/org/jboss/weld/resolution/QualifierInstance.java:140-158 | never equal to null; otherwise equal exactly when the class and the values agree |
| QualifierInstances.OfSet | impl/src/main/java/org/jboss/weld/resolution/QualifierInstance.java:62-71 | succeeds exactly when every qualifier converts, giving the set of their instances; otherwise fails with one qualifier's own error; the empty set gives the empty set |
| QualifierInstances.EqualsIsEquivalence | impl/src/main/java/org/jboss/weld/resolution/QualifierInstance.java:140-158 | equality is reflexive, symmetric and transitive |
| QualifierInstances.EqualInstancesHashEqually | impl/src/main/java/org/jboss/weld/resolution/QualifierInstance.java:164-167 | equal instances carry equal cached hash codes |
| QualifierInstances.NonbindingMembersIgnored | impl/src/main/java/org/jboss/weld/resolution/QualifierInstance.java:120-128 | two annotations of one type that agree on the binding members give the same instance, whatever their `@Nonbinding` values |
| QualifierInstances.CreateValuesSkipsExactlyNonbinding | impl/src/main/java/org/jboss/weld/resolution/QualifierInstance.java:109-137 | for a model whose non-binding set is the members marked `@Nonbinding`, the value map holds a member exactly when it is not so marked, with the annotation's own value |
| QualifierInstances.DefaultIsShared | impl/src/main/java/org/jboss/weld/resolution/QualifierInstance.java:89-90 | every `@Default` converts to the shared instance, which differs from `@Any` |
| QualifierInstances.NamedEqualIffSameName | impl/src/main/java/org/jboss/weld/resolution/QualifierInstance.java:91-93 | two `@Named` instances are equal exactly when their names are equal |
| QualifierInstances.PairHash | impl/src/main/java/org/jboss/weld/resolution/QualifierInstance.java:106 | the combined hash is a 32-bit Java `int` |
| ResolvedObserverSets.Of | impl/src/main/java/org/jboss/weld/event/ResolvedObservers.java:42-60 | no observers gives the shared empty value; the immediate bucket keeps the in-progress observers in order and the transactional bucket keeps the rest; the metadata flag is set exactly when some observer needs metadata |
| ResolvedObserverSets.EachObserverInExactlyOneBucket | impl/src/main/java/org/jboss/weld/event/ResolvedObservers.java:49-54 | every observer lands in the immediate bucket exactly when its phase is in-progress, and in the transactional bucket otherwise |
| ResolvedObserverSets.AllObserversIsPermutation | impl/src/main/java/org/jboss/weld/event/ResolvedObservers.java:91-93 | the two buckets together are a permutation of the resolved observers |
| ResolvedObserverSets.BucketsKeepOrder | impl/src/main/java/org/jboss/weld/event/ResolvedObservers.java:47-59 | two observers in one bucket appear in the resolver's order |
| ObserverNotifiers.ImmediateHandler | impl/src/main/java/org/jboss/weld/event/ObserverNotifier.java:397-405 | runtime exceptions and errors pass unchanged; a checked exception is wrapped in an `ObserverException`; the result is always unchecked |
| ObserverNotifiers.FailFast | impl/src/main/java/org/jboss/weld/event/ObserverNotifier.java:298-304 | observers are notified in order up to and including the first that fails, whose failure, through the immediate handler, is the one thrown; with no failure every observer is notified |
| ObserverNotifiers.NotifySyncObservers | impl/src/main/java/org/jboss/weld/event/ObserverNotifier.java:292-308 | an empty list does nothing; non-null metadata is pushed first and popped last, even on failure; every notification carries that metadata; with no failure every observer is notified, otherwise a non-empty prefix is; the observers notified are exactly those of the fail-fast run |
| ObserverNotifiers.SyncWithoutMetadataIsBare | impl/src/main/java/org/jboss/weld/event/ObserverNotifier.java:292-308 | with null metadata, synchronous delivery touches no metadata stack |
| ObserverNotifiers.NotifyObservers | impl/src/main/java/org/jboss/weld/event/ObserverNotifier.java:284-290 | the immediate observers and then the transactional ones behave as one fail-fast run over both lists: the same observers are notified and the same failure is thrown; with no metadata required the stack is never touched |
| ObserverNotifiers.NotifyObserversStopsAtFirstFailure | impl/src/main/java/org/jboss/weld/event/ObserverNotifier.java:284-304 | when delivery throws, the last observer notified is the one that failed, what escapes is its failure through the immediate handler, and every observer before it succeeded |
| ObserverNotifiers.FailFastPrefixes | impl/src/main/java/org/jboss/weld/event/ObserverNotifier.java:298-304 | failing fast over two lists in turn is failing fast over their concatenation |
| ObserverNotifiers.CollectFailures | impl/src/main/java/org/jboss/weld/event/ObserverNotifier.java:414-427 | the failures are exactly the throwables of the failing observers, in notification order (the present outcomes of notifying each observer); they are empty exactly when every observer succeeds |
| ObserverNotifiers.CollectFailuresAppend | impl/src/main/java/org/jboss/weld/event/ObserverNotifier.java:355-361 | collecting over two lists of observers gives the first list's failures followed by the second's |
| ObserverNotifiers.CollectFailuresKeepsEvery | impl/src/main/java/org/jboss/weld/event/ObserverNotifier.java:355-361 | no failure is lost: a failing observer's throwable is collected after those of every earlier observer and before those of every later one |
| ObserverNotifiers.AggregateFailure | impl/src/main/java/org/jboss/weld/event/ObserverNotifier.java:369-381 | the aggregate suppresses every failure, and it has the failure as its cause only when there is exactly one |
| ObserverNotifiers.NotifyAsync | impl/src/main/java/org/jboss/weld/event/ObserverNotifier.java:331-384 | every async observer is notified, failures included; the stage completes with the event exactly when none failed, otherwise with the aggregate, which suppresses the throwable of every failing observer in notification order; the given executor is used, or the default when none is given |
| ObserverNotifiers.EventTypeCheck | impl/src/main/java/org/jboss/weld/event/ObserverNotifier.java:240-262 | an event type passes exactly when it has no type variable or wildcard and is not a container-lifecycle type; each kind of refusal has its own message |
| ObserverNotifiers.EventSubtypeCheck | impl/src/main/java/org/jboss/weld/event/ObserverNotifier.java:264-274 | a subtype passes exactly when it contains no type variable |
| ObserverNotifiers.SubtypeCheckIsWeaker | impl/src/main/java/org/jboss/weld/event/ObserverNotifier.java:264-274 | any type the subtype check refuses, the full event-type check refuses too |
| ObserverNotifiers.NewNotifier | impl/src/main/java/org/jboss/weld/event/ObserverNotifier.java:83-102 | a new notifier keeps the strictness and has sound caches |
| ObserverNotifiers.CheckEventObjectType | impl/src/main/java/org/jboss/weld/event/ObserverNotifier.java:216-223 | a lenient notifier accepts everything and changes nothing; a strict one gives the check's verdict and caches it; the caches stay sound |
| ObserverNotifiers.CheckEventSubtype | impl/src/main/java/org/jboss/weld/event/ObserverNotifier.java:231-238 | the same for the subtype check, which has its own cache |
| ObserverNotifiers.Clear | impl/src/main/java/org/jboss/weld/event/ObserverNotifier.java:196-201 | clearing empties the event-type cache and keeps the subtype cache and the configuration |
| ObserverNotifiers.CachesAreTransparent | impl/src/main/java/org/jboss/weld/event/ObserverNotifier.java:216-238 | a verdict does not depend on earlier checks or on clearing: the cache never changes an answer |
| ObserverNotifiers.BuildEventResolvable | impl/src/main/java/org/jboss/weld/event/ObserverNotifier.java:180-191 | building fails, with the builder's failure, exactly when the builder's qualifier validation refuses the qualifiers; otherwise the resolvable's types are the event type's closure plus `Object`, and its qualifiers are the given ones followed by `@Any` |
| ObserverNotifiers.FireEvent | impl/src/main/java/org/jboss/weld/event/ObserverNotifier.java:162-166 | a strict notifier refuses a disallowed type before any delivery; then a duplicate or non-qualifier annotation is refused, also before any delivery; otherwise the resolved observers are notified |
| ObserverNotifiers.ResolveObserverMethods | impl/src/main/java/org/jboss/weld/event/ObserverNotifier.java:111-114 | resolution fails exactly when the strict check refuses the type or the builder refuses the qualifiers, with the type check's failure taking precedence; otherwise it resolves the resolvable built for the type and qualifiers |
| ObserverNotifiers.LenientNeverThrows | impl/src/main/java/org/jboss/weld/event/ObserverNotifier.java:216-238 | a lenient notifier never refuses an event type or a subtype |
| ObserverNotifiers.SyncStopsAtFirstFailure | impl/src/main/java/org/jboss/weld/event/ObserverNotifier.java:298-304 | (example) when the first of two observers fails, the second is never notified and the handled failure is thrown |
| ObserverNotifiers.AsyncCollectsSingleFailure | impl/src/main/java/org/jboss/weld/event/ObserverNotifier.java:369-381 | (example) asynchronously, a single failure becomes the cause and the only suppressed exception, and both observers are notified |
| ObserverNotifiers.AsyncCollectsSeveralFailures | impl/src/main/java/org/jboss/weld/event/ObserverNotifier.java:369-381 | (example) two failures give an aggregate with no cause that suppresses both, in notification order |
| TransactionalNotifiers.DeferNotification | impl/src/main/java/org/jboss/weld/event/TransactionalObserverNotifier.java:52-57 | the deferred notification keeps the event, metadata, observer and context id; it is a before-completion one exactly when the observer's phase is `BEFORE_COMPLETION`; its status is the observer's phase mapped to a status |
| TransactionalNotifiers.NotifyTransactionObservers | impl/src/main/java/org/jboss/weld/event/TransactionalObserverNotifier.java:60-74 | with no active transaction (or no transaction service) the observers are notified synchronously; inside one, nobody is notified and a single synchronization gets one deferred notification per observer, in order |
| TransactionalNotifiers.NotifyObserversInTransaction | impl/src/main/java/org/jboss/weld/event/ObserverNotifier.java:284-290 | inside a transaction only immediate observers are notified during the call; when none fails, each transactional observer is deferred, in order, with the event, the metadata kept only when needed, and its phase's status, in one synchronization; a failure defers nothing; outside a transaction this is ordinary synchronous delivery |
| TransactionalNotifiers.BeforeFlagFollowsPhase | impl/src/main/java/org/jboss/weld/event/TransactionalObserverNotifier.java:53-54 | a before-completion observer and an after-success observer get the flag set and cleared respectively |
| EventFacades.GetEventType | impl/src/main/java/org/jboss/weld/event/EventImpl.java:122-142 | a runtime class with nothing unresolved is the event type; otherwise the injection point's hierarchy resolves it, and the combined resolver is used when that still leaves something unresolved |
| EventFacades.GetObservers | impl/src/main/java/org/jboss/weld/event/EventImpl.java:86-97 | an entry for the event's runtime class is reused unchanged; otherwise resolution runs through the strict check, and on success it replaces the single entry; a failure leaves the facade unchanged |
| EventFacades.Fire | impl/src/main/java/org/jboss/weld/event/EventImpl.java:78-84 | a null event is refused before any lookup; otherwise the cached or freshly resolved observers are notified with the entry's metadata |
| EventFacades.SelectEvent | impl/src/main/java/org/jboss/weld/event/EventImpl.java:116-120 | the strict check runs on the subtype; on success the new facade has the subtype, the merged qualifiers and an empty cache |
| EventFacades.Select | impl/src/main/java/org/jboss/weld/event/EventImpl.java:100-102 | selecting qualifiers keeps the facade's type and starts with an empty cache |
| EventFacades.SelectSubtype | impl/src/main/java/org/jboss/weld/event/EventImpl.java:105-114 | a null subtype is refused; otherwise this is `SelectEvent` on that subtype |
| EventFacades.SecondLookupHitsCache | impl/src/main/java/org/jboss/weld/event/EventImpl.java:87-90 | after one successful lookup, a second for the same runtime class returns the same entry and changes nothing |
| EventFacades.DifferentClassReplacesEntry | impl/src/main/java/org/jboss/weld/event/EventImpl.java:91-96 | an event of another runtime class replaces the single cached entry |
| ObserverMethods.ObserverId | impl/src/main/java/org/jboss/weld/event/ObserverMethodImpl.java:100 | the id is the fixed prefix, the bean class, a separator and the method signature; its length is their total |
| ObserverMethods.Create | impl/src/main/java/org/jboss/weld/event/ObserverMethodImpl.java:98-112 | the observer's id is derived from the bean class and the signature; its phase is in-progress; its types are the observed type's closure plus `Object` |
| ObserverMethods.CheckObserverMethod | impl/src/main/java/org/jboss/weld/event/ObserverMethodImpl.java:212-248 | the method is valid exactly when it is not a conditional observer on a dependent bean, has at most one `@Observes` and no `@Disposes` parameter, is neither `@Produces` nor `@Inject`, and has no empty `@Named` parameter; every refusal is a definition problem |
| ObserverMethods.InvokeAndRelease | impl/src/main/java/org/jboss/weld/event/ObserverMethodImpl.java:335-357 | the method is invoked first; the creational context is released exactly when one was used and the bean is dependent; the invocation's failure is the one reported |
| ObserverMethods.SendEvent | impl/src/main/java/org/jboss/weld/event/ObserverMethodImpl.java:311-357 | a static observer is invoked with a fresh context; a conditional one never gets a context and is skipped when no instance exists or its context is inactive; otherwise a fresh context is created and the reference looked up, and a failing lookup is what the call throws; a context is released exactly when one was created for a dependent bean and the method was invoked |
| ObserverMethods.FailedReferenceLeavesContextUnreleased | impl/src/main/java/org/jboss/weld/event/ObserverMethodImpl.java:326-331 | when obtaining the reference of a dependent declaring bean throws, the fresh context is created and never released, and the lookup's failure is thrown |
| ObserverMethods.NotifyObserver | impl/src/main/java/org/jboss/weld/event/ObserverMethodImpl.java:297-304 | a container-lifecycle event sent to an observer on a non-extension does nothing; any other event is sent |
| ObserverMethods.Equals | impl/src/main/java/org/jboss/weld/event/ObserverMethodImpl.java:391-403 | two observers are equal exactly when the other is non-null and has the same id |
| ObserverMethods.HashCode | impl/src/main/java/org/jboss/weld/event/ObserverMethodImpl.java:405-409 | the hash is a 32-bit Java `int` |
| ObserverMethods.EqualsConsistentWithHash | impl/src/main/java/org/jboss/weld/event/ObserverMethodImpl.java:391-409 | equal observers hash equally |
| ObserverMethods.SameBeanIdIffSameSignature | impl/src/main/java/org/jboss/weld/event/ObserverMethodImpl.java:100 | within one bean class, two ids are equal exactly when the signatures are equal |
| ObserverMethods.CreatedFromSameSignatureAreEqual | impl/src/main/java/org/jboss/weld/event/ObserverMethodImpl.java:391-403 | observers created for the same bean class and signature are equal |
| ObserverMethods.ConditionalDependentAlwaysRejected | impl/src/main/java/org/jboss/weld/event/ObserverMethodImpl.java:216-219 | a conditional observer on a dependent bean is always a definition error |
| ObserverMethods.LifecycleEventsOnlyForExtensions | impl/src/main/java/org/jboss/weld/event/ObserverMethodImpl.java:371-383 | container-lifecycle events reach only observers declared on extensions |
| ScopeContexts.LockedCreation | impl/src/main/java/org/jboss/weld/context/AbstractContext.java:88-111 | multithreaded creation is bracketed by the contextual's lock and first re-reads the store, so an instance stored meanwhile is returned and nothing is created; otherwise exactly one creation runs, and its non-null result is stored under the contextual's id |
| ScopeContexts.Get | impl/src/main/java/org/jboss/weld/context/AbstractContext.java:72-112 | an inactive context throws; a missing store gives null; a null contextual is refused; a stored instance is returned without creating; creation happens only with a creational context and a missing id; stored ids are never lost and the store stays keyed by identifier |
| ScopeContexts.GetExisting | impl/src/main/java/org/jboss/weld/context/AbstractContext.java:115-117 | looking up without a creational context never creates or stores anything, and gives null for a missing id |
| ScopeContexts.Destroy | impl/src/main/java/org/jboss/weld/context/AbstractContext.java:120-138 | an inactive context, a null contextual or a missing store is refused in that order; otherwise the id is removed, and its instance is destroyed exactly when it was stored |
| ScopeContexts.DestroyAll | impl/src/main/java/org/jboss/weld/context/AbstractContext.java:156-166 | every stored instance is destroyed once, and then the store is emptied; it succeeds exactly when every destruction does; on a failure the failing instance is the last one destroyed, every one before it was destroyed without failure, and the store is left uncleared; with no store it throws |
| ScopeContexts.Cleanup | impl/src/main/java/org/jboss/weld/context/AbstractContext.java:175-185 | cleanup empties the store, and a failing clear leaves it as it was |
| ScopeContexts.StoredInstanceIsShared | impl/src/main/java/org/jboss/weld/context/AbstractContext.java:91-97 | when the id is already stored, every serialized locked creation returns the stored instance and none creates |
| ScopeContexts.CreatedAtMostOnce | impl/src/main/java/org/jboss/weld/context/AbstractContext.java:91-108 | under the lock, however many threads ask for a missing id, exactly one instance is created and every thread gets it |
| ScopeContexts.UnlockedCreatesPerThread | impl/src/main/java/org/jboss/weld/context/AbstractContext.java:91-108 | without multithreading, every request creates its own instance |
| ScopeContexts.SecondGetReturnsStored | impl/src/main/java/org/jboss/weld/context/AbstractContext.java:85-87 | after a get creates an instance, a second get returns the same instance without creating |
| ScopeContexts.DestroyTwiceDestroysOnce | impl/src/main/java/org/jboss/weld/context/AbstractContext.java:120-138 | destroying the same contextual a second time destroys nothing |
| ScopeContexts.DestroyKeepsOthers | impl/src/main/java/org/jboss/weld/context/AbstractContext.java:120-138 | destroying one contextual leaves every other stored instance in place |
| Specialization.AddSpecialized | impl/src/main/java/org/jboss/weld/util/BeansClosure.java:50-52 | the specialized bean now maps to its specializer, and every other bean keeps its mapping |
| Specialization.AddEnvironment | impl/src/main/java/org/jboss/weld/util/BeansClosure.java:54-56 | the environment joins the set, and the specializations are unchanged |
| Specialization.Clear | impl/src/main/java/org/jboss/weld/util/BeansClosure.java:58-60 | clearing forgets the environments and keeps the specializations |
| Specialization.Destroy | impl/src/main/java/org/jboss/weld/util/BeansClosure.java:62-64 | destroying forgets the specializations and keeps the environments |
| Specialization.GetSpecializingBean | impl/src/main/java/org/jboss/weld/util/BeansClosure.java:73-75 | a bean has a specializer exactly when it is specialized, and the specializer is the recorded one |
| Specialization.GetMostSpecializingBean | impl/src/main/java/org/jboss/weld/util/BeansClosure.java:81-89 | null gives null; otherwise the result is the end of the bean's specialization chain: it is specialized by nothing, and it is the bean itself when that is not specialized |
| Specialization.GetClassBean | impl/src/main/java/org/jboss/weld/util/BeansClosure.java:100-107 | the result is null exactly when no environment has a bean for the class; otherwise it is the bean some environment maps the class to |
| Specialization.GetProducerMethod | impl/src/main/java/org/jboss/weld/util/BeansClosure.java:109-116 | the same for producer methods looked up by the overridden method |
| Specialization.LaterSpecializerWins | impl/src/main/java/org/jboss/weld/util/BeansClosure.java:50-52 | recording a second specializer for a bean replaces the first |
| Specialization.DestroyForgetsSpecializations | impl/src/main/java/org/jboss/weld/util/BeansClosure.java:58-64 | after destroy no bean is specialized, and clear does not change which beans are |
| Specialization.AddEnvironmentExtendsEjbs | impl/src/main/java/org/jboss/weld/util/BeansClosure.java:91-98 | a class is an EJB after adding an environment exactly when it was one before or the new environment describes it; after clear none is |
| Specialization.TwoStepChainEndsAtLast | impl/src/main/java/org/jboss/weld/util/BeansClosure.java:81-89 | (example) in the chain a → b → d the most specializing bean of a is d |
| MemberProducers.CheckDeclaringBean | impl/src/main/java/org/jboss/weld/injection/producer/AbstractMemberProducer.java:63-67 | a producer passes exactly when it is static or has a declaring bean |
| MemberProducers.CheckTypeArguments | impl/src/main/java/org/jboss/weld/injection/producer/AbstractMemberProducer.java:76-83 | the arguments pass exactly when none is a wildcard and, unless the producer is dependent, none is a type variable; a refusal names the first offending argument |
| MemberProducers.CheckProducerReturnType | impl/src/main/java/org/jboss/weld/injection/producer/AbstractMemberProducer.java:72-85 | a type variable or wildcard return type is refused; a class or array type passes; a parameterized type is judged by its arguments |
| MemberProducers.Create | impl/src/main/java/org/jboss/weld/injection/producer/AbstractMemberProducer.java:57-61 | construction succeeds exactly when both checks pass, and the declaring-bean check is made first |
| MemberProducers.GetReceiver | impl/src/main/java/org/jboss/weld/injection/producer/AbstractMemberProducer.java:95-112 | a static producer has no receiver; during a circular call the incomplete instance under construction is used; otherwise a reference to the declaring bean is obtained |
| MemberProducers.Dispose | impl/src/main/java/org/jboss/weld/injection/producer/AbstractMemberProducer.java:114-124 | without a disposal method nothing happens; otherwise a context is created first and released last whatever happens, and the disposer is invoked on the receiver when the receiver is obtained |
| MemberProducers.Produce | impl/src/main/java/org/jboss/weld/injection/producer/AbstractMemberProducer.java:127-136 | a fresh context is created first; once the receiver is obtained, the producer is invoked on it and the context released; a failed lookup is the result and leaves the context unreleased |
| MemberProducers.TypeVariableArgumentNeedsDependent | impl/src/main/java/org/jboss/weld/injection/producer/AbstractMemberProducer.java:75-79 | a producer of `C<T>` is accepted exactly when it is dependent |
| MemberProducers.WildcardArgumentAlwaysRejected | impl/src/main/java/org/jboss/weld/injection/producer/AbstractMemberProducer.java:80-81 | a wildcard argument is refused whatever the scope |
| MemberProducers.CircularCallUsesIncompleteInstance | impl/src/main/java/org/jboss/weld/injection/producer/AbstractMemberProducer.java:99-111 | when the declaring bean is still under construction, the producer is invoked on that incomplete instance |
| MemberProducers.StaticProducerAlwaysReleases | impl/src/main/java/org/jboss/weld/injection/producer/AbstractMemberProducer.java:127-136 | a static producer creates a context, invokes without a receiver and releases the context |
| StaticInjection.MarkedParametersFirst | impl/src/main/java/org/jboss/weld/injection/StaticMethodInjectionPoint.java:61-70 | no parameter is found exactly when none carries the marker; otherwise the first found is the first marked parameter |
| StaticInjection.SpecialInjectionPointIndex | impl/src/main/java/org/jboss/weld/injection/StaticMethodInjectionPoint.java:61-70 | no marker gives -1; otherwise the index is the position of the first marked parameter, and a method with no marked parameter is refused |
| StaticInjection.GetParameterValues | impl/src/main/java/org/jboss/weld/injection/StaticMethodInjectionPoint.java:105-126 | with injection points there is one argument per parameter, and the special one goes at its index; without any there is only the special argument, or no argument at all |
| StaticInjection.Invoke | impl/src/main/java/org/jboss/weld/injection/StaticMethodInjectionPoint.java:72-96 | the method is called with the computed arguments; reflective failures are rethrown as the configured runtime exception, and everything else passes unchanged |
| StaticInjection.ObserverLayoutExample | impl/src/main/java/org/jboss/weld/injection/StaticMethodInjectionPoint.java:115-124 | (example) for an observer `(@Observes E e, X x)` the event goes first and the injected value second |
| SyntheticDecorators.IdentifyDelegateInjectionPoint | impl/src/main/java/org/jboss/weld/bean/SyntheticDecorator.java:57-71 | succeeds exactly when there is one delegate injection point, and gives it; zero and several delegates each have their own error |
| SyntheticDecorators.GetDecoratedTypes | impl/src/main/java/org/jboss/weld/bean/SyntheticDecorator.java:73-82 | exactly the bean types whose raw type is an interface other than `Serializable` |
| SyntheticDecorators.Create | impl/src/main/java/org/jboss/weld/bean/SyntheticDecorator.java:51-55 | a decorator is built exactly when there is one delegate; it holds that delegate and the decorated types |
| SyntheticDecorators.SerializableNeverDecorated | impl/src/main/java/org/jboss/weld/bean/SyntheticDecorator.java:73-82 | `Serializable` is never a decorated type |
| SyntheticDecorators.DecorationIgnoresArguments | impl/src/main/java/org/jboss/weld/bean/SyntheticDecorator.java:73-82 | whether a parameterized type is decorated depends only on its raw type |
| InterceptorHandlers.GetInterceptionChain | impl/src/main/java/org/jboss/weld/interceptor/proxy/InterceptorMethodHandler.java:64-78 | lifecycle callbacks get a fresh chain and are not cached; a cached method reuses its chain; otherwise the chain is stored, the racing thread's if it stored first; cached entries are never replaced |
| InterceptorHandlers.ExecuteInterception | impl/src/main/java/org/jboss/weld/interceptor/proxy/InterceptorMethodHandler.java:50-62 | an empty chain proceeds straight to the target, or returns null when there is no target to proceed to; a non-empty chain runs with the interception type |
| InterceptorHandlers.Invoke | impl/src/main/java/org/jboss/weld/interceptor/proxy/InterceptorMethodHandler.java:33-48 | with no proceed method, post-construct and pre-destroy run their lifecycle interception and any other method returns null; an interceptor method proceeds directly; anything else is around-invoke interception |
| InterceptorHandlers.FirstStoredChainWins | impl/src/main/java/org/jboss/weld/interceptor/proxy/InterceptorMethodHandler.java:65-74 | the chain stored first for a method is the one every later call gets |
| InterceptorHandlers.LifecycleCallbacksNotCached | impl/src/main/java/org/jboss/weld/interceptor/proxy/InterceptorMethodHandler.java:75-77 | lifecycle callbacks never change the cache |
| InterceptorHandlers.UninterceptedMethodProceeds | impl/src/main/java/org/jboss/weld/interceptor/proxy/InterceptorMethodHandler.java:51-58 | a method with an empty around-invoke chain proceeds directly |
| Bootstraps.StartExtensions | impl/src/main/java/org/jboss/weld/bootstrap/WeldBootstrap.java:58-60 | forwarded to the startup while it exists; after initialization has ended the dropped startup throws a null-pointer failure and nothing changes |
| Bootstraps.StartContainerDefault | impl/src/main/java/org/jboss/weld/bootstrap/WeldBootstrap.java:62-64 | without a context id the container runs under the static-instance id; after the end of initialization it fails with a null pointer |
| Bootstraps.StartContainer | impl/src/main/java/org/jboss/weld/bootstrap/WeldBootstrap.java:66-69 | while the startup exists the runtime is created for the given context id; afterwards it fails with a null pointer and nothing changes |
| Bootstraps.Phase | impl/src/main/java/org/jboss/weld/bootstrap/WeldBootstrap.java:128-131 | a phase call is forwarded once while the startup exists, and is refused as coming after initialization once it is gone |
| Bootstraps.StartInitialization | impl/src/main/java/org/jboss/weld/bootstrap/WeldBootstrap.java:71-75 | forwarded to the startup, or refused after initialization with the state unchanged |
| Bootstraps.DeployBeans | impl/src/main/java/org/jboss/weld/bootstrap/WeldBootstrap.java:77-81 | the same for bean deployment |
| Bootstraps.ValidateBeans | impl/src/main/java/org/jboss/weld/bootstrap/WeldBootstrap.java:83-87 | the same for validation |
| Bootstraps.EndInitialization | impl/src/main/java/org/jboss/weld/bootstrap/WeldBootstrap.java:89-95 | ending never throws, drops the startup and keeps the runtime; the end is forwarded only the first time |
| Bootstraps.GetManager | impl/src/main/java/org/jboss/weld/bootstrap/WeldBootstrap.java:98-100 | a manager is served exactly when a runtime exists, and it is the runtime's manager for the archive |
| Bootstraps.Shutdown | impl/src/main/java/org/jboss/weld/bootstrap/WeldBootstrap.java:103-107 | shutdown shuts the runtime down once and drops it; without a runtime it does nothing |
| Bootstraps.PhasesRefusedAfterEnd | impl/src/main/java/org/jboss/weld/bootstrap/WeldBootstrap.java:71-87 | after the end of initialization every phase method throws and changes nothing |
| Bootstraps.EndAndShutdownIdempotent | impl/src/main/java/org/jboss/weld/bootstrap/WeldBootstrap.java:89-107 | ending initialization and shutting down are both idempotent |
| Bootstraps.NoManagerOutsideRuntime | impl/src/main/java/org/jboss/weld/bootstrap/WeldBootstrap.java:98-108 | no manager is served before the container starts or after shutdown |
| Bootstraps.NormalBootSequence | impl/src/main/java/org/jboss/weld/bootstrap/WeldBootstrap.java:66-107 | the usual boot sequence throws nothing, forwards each phase exactly once in order, and ends with no runtime |
| Bootstraps.StartContainerAfterEndFails | impl/src/main/java/org/jboss/weld/bootstrap/WeldBootstrap.java:66-69 | starting the container after initialization has ended fails with a null pointer |
| ContainerEvents.NewContainerEvent | impl/src/main/java/org/jboss/weld/bootstrap/events/AbstractContainerEvent.java:42-47 | a new event has no errors, no receiver and no observer method, and keeps its raw type and type arguments |
| ContainerEvents.EventType | impl/src/main/java/org/jboss/weld/bootstrap/events/AbstractContainerEvent.java:61 | the event's type has the event's raw type and type arguments |
| ContainerEvents.Fire | impl/src/main/java/org/jboss/weld/bootstrap/events/AbstractContainerEvent.java:60-67 | an exception thrown by an observer is recorded as an error and does not escape; an `Error` escapes and leaves the event unchanged |
| ContainerEvents.SetReceiver | impl/src/main/java/org/jboss/weld/bootstrap/events/AbstractContainerEvent.java:81-83 | setting the receiver keeps the errors and the observer method |
| ContainerEvents.SetObserverMethod | impl/src/main/java/org/jboss/weld/bootstrap/events/AbstractContainerEvent.java:89-91 | setting the observer method keeps the errors and the receiver |
| ContainerEvents.FireNeverThrowsExceptions | impl/src/main/java/org/jboss/weld/bootstrap/events/AbstractContainerEvent.java:60-67 | only an `Error` ever escapes firing, and then no error is recorded; otherwise the observer's exception, if any, is appended to the errors |
| ContainerEvents.DispatchFieldsRoundTrip | impl/src/main/java/org/jboss/weld/bootstrap/events/AbstractContainerEvent.java:77-91 | the receiver and the observer method read back what was set, and setting one leaves the other alone |
| ContainerEvents.NewProcessAnnotatedType | impl/src/main/java/org/jboss/weld/bootstrap/events/ProcessAnnotatedTypeImpl.java:52-57 | the event is typed by the annotated type's class, holds the original type as current, and is not vetoed |
| ContainerEvents.SetAnnotatedType | impl/src/main/java/org/jboss/weld/bootstrap/events/ProcessAnnotatedTypeImpl.java:75-84 | a null type, a type for another class, or one the validator refuses is rejected in that order; otherwise it becomes the current type, and nothing else changes |
| ContainerEvents.GetResultingAnnotatedType | impl/src/main/java/org/jboss/weld/bootstrap/events/ProcessAnnotatedTypeImpl.java:67-72 | an untouched event yields the original type; a replaced one yields the unbacked copy of the replacement |
| ContainerEvents.Veto | impl/src/main/java/org/jboss/weld/bootstrap/events/ProcessAnnotatedTypeImpl.java:102-104 | vetoing sets the flag and changes nothing else |
| ContainerEvents.FireProcessAnnotatedType | impl/src/main/java/org/jboss/weld/bootstrap/events/ProcessAnnotatedTypeImpl.java:91-99 | the observers act on the event itself (the type and veto they leave are kept); an `Error` they throw escapes unchanged; an exception is recorded, and any recorded error makes the event throw a definition exception holding all of them |
| ContainerEvents.NewProcessAnnotatedTypeIsClean | impl/src/main/java/org/jboss/weld/bootstrap/events/ProcessAnnotatedTypeImpl.java:52-57 | a new event is neither dirty nor vetoed, has no errors, and yields its original type |
| ContainerEvents.DirtyIffReplaced | impl/src/main/java/org/jboss/weld/bootstrap/events/ProcessAnnotatedTypeImpl.java:110-112 | the event is dirty exactly when the current type differs from the original, and setting the original back makes it clean |
| ContainerEvents.RunAnnotatedTypeObservers | impl/src/main/java/org/jboss/weld/bootstrap/events/ProcessAnnotatedTypeImpl.java:75-84 | observers replacing the type, vetoing or throwing, in turn until one throws: the original type and the base event never change, a veto is never cleared, a type of another Java class is never accepted, and a veto with no throw leaves the event vetoed |
| ContainerEvents.FiredTypeKeepsJavaClass | impl/src/main/java/org/jboss/weld/bootstrap/events/ProcessAnnotatedTypeImpl.java:75-104 | firing a new event to such observers leaves its original type, a current type of the same Java class, and the veto when an observer vetoed and nothing escaped |
| ContainerEvents.VetoIsPermanent | impl/src/main/java/org/jboss/weld/bootstrap/events/ProcessAnnotatedTypeImpl.java:102-108 | once vetoed, neither replacing the type, nor firing to observers that replace the type, veto or throw, nor vetoing again clears the veto |
| ContainerEvents.FailedNotificationRaisesDefinitionException | impl/src/main/java/org/jboss/weld/bootstrap/events/ProcessAnnotatedTypeImpl.java:91-99 | whatever the observers did, an exception thrown by the notification comes out as a definition exception whose last cause is that exception |
| ContainerEvents.NewProcessBeanAttributes | impl/src/main/java/org/jboss/weld/bootstrap/events/ProcessBeanAttributesImpl.java:43-47 | a new event is typed by the bean type, holds the given attributes, and is neither vetoed nor dirty |
| ContainerEvents.SetBeanAttributes | impl/src/main/java/org/jboss/weld/bootstrap/events/ProcessBeanAttributesImpl.java:65-68 | replacing the attributes marks the event dirty and keeps the veto and the errors |
| ContainerEvents.AddDefinitionError | impl/src/main/java/org/jboss/weld/bootstrap/events/ProcessBeanAttributesImpl.java:71-73 | the error is appended and nothing else changes |
| ContainerEvents.VetoAttributes | impl/src/main/java/org/jboss/weld/bootstrap/events/ProcessBeanAttributesImpl.java:76-78 | vetoing sets the flag and changes nothing else |
| ContainerEvents.FireProcessBeanAttributes | impl/src/main/java/org/jboss/weld/bootstrap/events/ProcessBeanAttributesImpl.java:36-41 | the attributes, veto and dirty flag the observers leave are kept, and their failure is handled as for every container event |
| ContainerEvents.LatestAttributesWin | impl/src/main/java/org/jboss/weld/bootstrap/events/ProcessBeanAttributesImpl.java:60-68 | the last attributes set are the ones read back, and even setting the same attributes marks the event dirty |
| ContainerEvents.UntouchedAttributesStayClean | impl/src/main/java/org/jboss/weld/bootstrap/events/ProcessBeanAttributesImpl.java:36-41 | when no observer touches the event, it comes back clean, not vetoed, without errors, and with the original attributes |
| AfterBeanDiscovery.ValidateInterceptor | impl/src/main/java/org/jboss/weld/bootstrap/events/AfterBeanDiscoveryImpl.java:115-125 | null bindings are refused; otherwise the interceptor passes exactly when every binding is an interceptor binding, and a refusal names an offending one |
| AfterBeanDiscovery.ValidateDecorator | impl/src/main/java/org/jboss/weld/bootstrap/events/AfterBeanDiscoveryImpl.java:127-135 | a decorator passes exactly when it has a delegate type, valid delegate qualifiers and decorated types; each check has its own error, in that order |
| AfterBeanDiscovery.ValidateCommon | impl/src/main/java/org/jboss/weld/bootstrap/events/AfterBeanDiscoveryImpl.java:96-107 | a bean passes exactly when its bean class and injection points are non-null and, if it is passivation capable, its id is non-null; each has its own error, in that order |
| AfterBeanDiscovery.ValidateBean | impl/src/main/java/org/jboss/weld/bootstrap/events/AfterBeanDiscoveryImpl.java:95-113 | a bean passes exactly when the common checks and the checks for its kind pass, and a common failure is reported first |
| AfterBeanDiscovery.AddBean | impl/src/main/java/org/jboss/weld/bootstrap/events/AfterBeanDiscoveryImpl.java:75-81 | outside an observer notification, or for a null bean, the call is refused; otherwise the bean is queued at the end |
| AfterBeanDiscovery.AddContext | impl/src/main/java/org/jboss/weld/bootstrap/events/AfterBeanDiscoveryImpl.java:140-152 | a context is added exactly when the call is within a notification, the context is non-null and its scope is non-null |
| AfterBeanDiscovery.AddObserverMethod | impl/src/main/java/org/jboss/weld/bootstrap/events/AfterBeanDiscoveryImpl.java:155-160 | an observer is queued exactly when the call is within a notification, the observer is non-null and it validates |
| AfterBeanDiscovery.ProcessBean | impl/src/main/java/org/jboss/weld/bootstrap/events/AfterBeanDiscoveryImpl.java:83-93 | each bean is registered as an interceptor, a decorator or a bean according to its kind, and a ProcessBean event is then fired for it |
| AfterBeanDiscovery.ProcessBeans | impl/src/main/java/org/jboss/weld/bootstrap/events/AfterBeanDiscoveryImpl.java:180-183 | the bean loop throws exactly when some ProcessBean notification fails, and what it throws is that notification's failure |
| AfterBeanDiscovery.ProcessObservers | impl/src/main/java/org/jboss/weld/bootstrap/events/AfterBeanDiscoveryImpl.java:184-192 | the observer loop throws exactly when some enabled observer's ProcessObserverMethod notification fails; with no failure its registrations are the enabled observers, processed, with the dropped ones removed, in order |
| AfterBeanDiscovery.Finish | impl/src/main/java/org/jboss/weld/bootstrap/events/AfterBeanDiscoveryImpl.java:179-196 | finishing throws exactly when a bean or an enabled observer fails; what it throws is a definition exception wrapping that failure, or the failure itself when it is an `Error` |
| AfterBeanDiscovery.BeanRegistrations | impl/src/main/java/org/jboss/weld/bootstrap/events/AfterBeanDiscoveryImpl.java:179-196 | when nothing fails, each bean gives its registration and then its ProcessBean event, in insertion order |
| AfterBeanDiscovery.ProcessBeansInOrder | impl/src/main/java/org/jboss/weld/bootstrap/events/AfterBeanDiscoveryImpl.java:179-196 | when no ProcessBean event fails, the queued beans are registered in insertion order |
| AfterBeanDiscovery.ProcessBeansStopsAtFailure | impl/src/main/java/org/jboss/weld/bootstrap/events/AfterBeanDiscoveryImpl.java:179-196 | the first failing ProcessBean event ends the loop: that bean is registered, no later one is, and the failure is reported |
| AfterBeanDiscovery.ObserverFailureComesFromObserver | impl/src/main/java/org/jboss/weld/bootstrap/events/AfterBeanDiscoveryImpl.java:184-192 | what the observer loop throws is the failure of some enabled observer's notification |
| AfterBeanDiscovery.ProcessObserversStopsAtFailure | impl/src/main/java/org/jboss/weld/bootstrap/events/AfterBeanDiscoveryImpl.java:184-192 | the first failing enabled observer ends the loop: the enabled observers before it are added unless dropped, and that failure is thrown |
| AfterBeanDiscovery.AddedIffEnabledAndProcessed | impl/src/main/java/org/jboss/weld/bootstrap/events/AfterBeanDiscoveryImpl.java:184-192 | an observer is added exactly when it is what ProcessObserverMethod left of some enabled queued observer |
| AfterBeanDiscovery.FinishRegistersEverything | impl/src/main/java/org/jboss/weld/bootstrap/events/AfterBeanDiscoveryImpl.java:179-196 | when no bean and no enabled observer fails, finishing registers every queued bean in order, then the enabled observers as processed, without the dropped ones, in order |
| AfterBeanDiscovery.FinishWrapsExceptions | impl/src/main/java/org/jboss/weld/bootstrap/events/AfterBeanDiscoveryImpl.java:179-196 | when the first failing bean throws an exception, finishing has registered the beans up to it, touched no observer, and throws a definition exception wrapping exactly that exception |
| AfterBeanDiscovery.FinishWrapsObserverFailure | impl/src/main/java/org/jboss/weld/bootstrap/events/AfterBeanDiscoveryImpl.java:179-196 | when every bean succeeds and the first failing enabled observer throws an exception, finishing has registered every bean and the observers before it, and throws a definition exception wrapping exactly that exception |
| AfterBeanDiscovery.AddedBeanIsRegisteredLast | impl/src/main/java/org/jboss/weld/bootstrap/events/AfterBeanDiscoveryImpl.java:75-81 | a bean added last is the last one registered, and its ProcessBean event is the last step |
| InvocationMonitors.InitBuilder | probe/core/src/main/java/org/jboss/weld/probe/InvocationMonitor.java:63-73 | with nothing current a new entry point gets the next id, with 32-bit wrap-around; otherwise the new builder is a child of the current one; either way it becomes current |
| InvocationMonitors.Perform | probe/core/src/main/java/org/jboss/weld/probe/InvocationMonitor.java:141-158 | as written: the outcome is passed through; an entry point clears the thread-local on every path and is recorded exactly when it succeeds and is not ignored; a child that succeeds puts its parent back, while a child that throws leaves the monitor as the proceed left it |
| InvocationMonitors.PerformRestoring | probe/core/src/main/java/org/jboss/weld/probe/InvocationMonitor.java:141-158 | the evidently intended `perform`, not what the code does: the outcome is passed through; on every exit path a child puts its parent back and an entry point clears the thread-local; a successful entry point that is not ignored is recorded once |
| InvocationMonitors.MonitorCall | probe/core/src/main/java/org/jboss/weld/probe/InvocationMonitor.java:87-113 | as written: with skipping configured a JavaBean accessor just proceeds; otherwise the outcome is the proceed's; an entry-point call ends with nothing current and is recorded when it succeeds and is not ignored; a child call records nothing, and puts the caller's builder back only when it succeeds |
| InvocationMonitors.MonitorCallRestoring | probe/core/src/main/java/org/jboss/weld/probe/InvocationMonitor.java:87-113 | the evidently intended `monitor`, built on the corrected `perform`: accessors skipped as before; the outcome is the proceed's, and an entry point is recorded exactly when it succeeds and is not ignored |
| InvocationMonitors.AccessorIff | probe/core/src/main/java/org/jboss/weld/probe/InvocationMonitor.java:128-137 | a method is an accessor exactly when it is a no-argument `get`/`is` method or a one-argument `set` method |
| InvocationMonitors.SkippedAccessorLeavesNoTrace | probe/core/src/main/java/org/jboss/weld/probe/InvocationMonitor.java:96-99 | a skipped accessor leaves the monitor exactly as it was |
| InvocationMonitors.EntryPointIdsIncrease | probe/core/src/main/java/org/jboss/weld/probe/InvocationMonitor.java:63-73 | below the `int` limit, successive entry points get increasing ids |
| InvocationMonitors.EntryPointIdWraps | probe/core/src/main/java/org/jboss/weld/probe/InvocationMonitor.java:55 | after `Integer.MAX_VALUE` the next entry-point id is `Integer.MIN_VALUE` |
| InvocationMonitors.EntryPointRecordedOnceAndCleared | probe/core/src/main/java/org/jboss/weld/probe/InvocationMonitor.java:144-158 | an entry point clears the thread-local whatever happens, and it is recorded exactly when it succeeds and is not ignored |
| InvocationMonitors.ChildRestoresParentOnSuccess | probe/core/src/main/java/org/jboss/weld/probe/InvocationMonitor.java:144-152 | a child that succeeds puts its parent back and records nothing |
| InvocationMonitors.RestoringAgreesWhereWrittenIsRight | probe/core/src/main/java/org/jboss/weld/probe/InvocationMonitor.java:141-158 | the corrected version behaves as written on every path except a failing child |
| InvocationMonitors.FailedChildMisparentsSibling | probe/core/src/main/java/org/jboss/weld/probe/InvocationMonitor.java:141-158 | as written, a child whose proceed throws stays current, so its next sibling is recorded as its child |
| InvocationMonitors.MonitorCallRestoresCurrent | probe/core/src/main/java/org/jboss/weld/probe/InvocationMonitor.java:87-113 | with the correction, a monitored call leaves the thread-local as it found it, whether the call succeeds or fails |
| InvocationMonitors.MonitorCallsAgreeUnlessChildFails | probe/core/src/main/java/org/jboss/weld/probe/InvocationMonitor.java:87-158 | the written and the intended `monitor` give the same monitor and outcome except for a child call whose proceed throws |
| ScanResults.NewScanResult | environments/common/src/main/java/org/jboss/weld/environment/deployment/discovery/BeanArchiveScanner.java:53-55 | a new result keeps the beans.xml and the reference, and has no id set |
| ScanResults.GetBeanArchiveId | environments/common/src/main/java/org/jboss/weld/environment/deployment/discovery/BeanArchiveScanner.java:70-72 | the id, when one is set, and otherwise the reference |
| ScanResults.ExtractBeanArchiveId | environments/common/src/main/java/org/jboss/weld/environment/deployment/discovery/BeanArchiveScanner.java:81-87 | a null separator is refused; otherwise the beans.xml and the reference are kept, and a reference without the separator leaves the result unchanged |
| ScanResults.UnsetIdIsRef | environments/common/src/main/java/org/jboss/weld/environment/deployment/discovery/BeanArchiveScanner.java:53-55 | a new result's id is its reference |
| ScanResults.ExtractedIdIsSuffixFromFirstSeparator | environments/common/src/main/java/org/jboss/weld/environment/deployment/discovery/BeanArchiveScanner.java:84-86 | the extracted id is the suffix of the reference that starts at the first occurrence of the separator |
| ScanResults.ExtractIsIdempotent | environments/common/src/main/java/org/jboss/weld/environment/deployment/discovery/BeanArchiveScanner.java:84-86 | extracting a second time changes nothing |
| ScanResults.NoSeparatorKeepsId | environments/common/src/main/java/org/jboss/weld/environment/deployment/discovery/BeanArchiveScanner.java:81-87 | without the separator in the reference, the id stays as it was |
| DeploymentArchives.NewArchive | environments/common/src/main/java/org/jboss/weld/environment/deployment/WeldBeanDeploymentArchive.java:59-61 | a new archive keeps its id, classes, kind of class collection and beans.xml, and sees no other archive |
| DeploymentArchives.SetAccessibleBeanDeploymentArchives | environments/common/src/main/java/org/jboss/weld/environment/deployment/WeldBeanDeploymentArchive.java:78-80 | the archive then sees exactly the given archives, and nothing else about it changes |
| DeploymentArchives.AddBeanClass | environments/common/src/main/java/org/jboss/weld/environment/deployment/WeldBeanDeploymentArchive.java:86-88 | the class is added through the collection's own `add`: the classes afterwards are the old ones and the new one; a set-backed archive that already holds the class is unchanged, otherwise the list grows by one at its end; a set-backed archive keeps each class once; the archive is no longer empty, and its reference, id, collection kind, beans.xml and visible archives are kept |
| DeploymentArchives.RepeatedAddIsIdempotentOnSet | environments/common/src/main/java/org/jboss/weld/environment/deployment/WeldBeanDeploymentArchive.java:86-88 | adding a class twice to a set-backed archive is the same as adding it once, while a list-backed archive grows by two |
| DeploymentArchives.Merge | environments/common/src/main/java/org/jboss/weld/environment/deployment/WeldBeanDeploymentArchive.java:96-103 | the merged archive has the flat-deployment id, sees no archive, holds the merged beans.xml, and lists each class of every archive exactly once in a set-backed collection; the merged archive is empty exactly when every archive is |
| DiscoveryStrategies.EnsureScanner | environments/common/src/main/java/org/jboss/weld/environment/deployment/discovery/AbstractDiscoveryStrategy.java:58-60 | a scanner is always set afterwards, and the default one is used only when none was set |
| DiscoveryStrategies.Process | environments/common/src/main/java/org/jboss/weld/environment/deployment/discovery/AbstractDiscoveryStrategy.java:66-80 | an `all` archive contributes what it builds, an `annotated` one is unsupported, a `none` one contributes nothing |
| DiscoveryStrategies.AddToArchives | environments/common/src/main/java/org/jboss/weld/environment/deployment/discovery/AbstractDiscoveryStrategy.java:99-103 | a null archive is skipped, and any other is added |
| DiscoveryStrategies.AssignVisibility | environments/common/src/main/java/org/jboss/weld/environment/deployment/discovery/AbstractDiscoveryStrategy.java:92-96 | every archive is given the whole set as visible, and the set holds exactly those archives |
| DiscoveryStrategies.PerformDiscovery | environments/common/src/main/java/org/jboss/weld/environment/deployment/discovery/AbstractDiscoveryStrategy.java:56-84 | discovery leaves a scanner set, the default one only when none was set before |
| DiscoveryStrategies.CollectKeepsBuiltAllArchives | environments/common/src/main/java/org/jboss/weld/environment/deployment/discovery/AbstractDiscoveryStrategy.java:66-81 | with no `annotated` archive, the loop collects exactly the non-null archives built in `all` mode |
| DiscoveryStrategies.AnnotatedModeIsUnsupported | environments/common/src/main/java/org/jboss/weld/environment/deployment/discovery/AbstractDiscoveryStrategy.java:127-129 | any `annotated` archive makes discovery fail as unsupported |
| DiscoveryStrategies.DiscoveryResult | environments/common/src/main/java/org/jboss/weld/environment/deployment/discovery/AbstractDiscoveryStrategy.java:56-84 | without annotated-mode builders, discovery succeeds with exactly the built ALL archives, each made to see the references of all of them, so every archive sees exactly the archives discovered |
| SeRegistrant.GetAnnotation | environments/se/core/src/main/java/org/jboss/weld/environment/se/WeldSEBeanRegistrant.java:97-103 | `@Vetoed` is never returned, and any other annotation comes from the wrapped type |
| SeRegistrant.WrapperKeepsViewsConsistent | environments/se/core/src/main/java/org/jboss/weld/environment/se/WeldSEBeanRegistrant.java:97-122 | when the wrapped type's three views agree, so do the wrapper's; its annotations are the wrapped ones minus `@Vetoed`; `@Vetoed` is neither present nor returned; every other annotation type is present exactly when it is on the wrapped type |
| SeRegistrant.RegisterWeldSEBeans | environments/se/core/src/main/java/org/jboss/weld/environment/se/WeldSEBeanRegistrant.java:49-63 | other events are ignored; a Weld event gets four more types, and the types it had are kept |
| SeRegistrant.RegisterWeldSEContexts | environments/se/core/src/main/java/org/jboss/weld/environment/se/WeldSEBeanRegistrant.java:65-75 | other events are ignored; a Weld event gets the thread context for the container id, which the registrant remembers; no type is added |
| SeRegistrant.FourTypesInOrder | environments/se/core/src/main/java/org/jboss/weld/environment/se/WeldSEBeanRegistrant.java:49-63 | the four SE types are added in order, each wrapping the type created for its class |
| BeansXmlWriter.SetBeanDiscoveryMode | tests-arquillian/src/main/java/org/jboss/shrinkwrap/impl/BeansXml.java:76-82 | the mode reads back, except on the suppressor, which stays at `none`; the four lists and the suppressor flag are kept |
| BeansXmlWriter.Append | tests-arquillian/src/main/java/org/jboss/shrinkwrap/impl/BeansXml.java:56-74 | appending to the suppressor is unsupported; otherwise the classes go at the end of the chosen list, and the other lists and the mode are kept |
| BeansXmlWriter.Entries | tests-arquillian/src/main/java/org/jboss/shrinkwrap/impl/BeansXml.java:114-117 | the entries are empty exactly when there are no classes |
| BeansXmlWriter.Section | tests-arquillian/src/main/java/org/jboss/shrinkwrap/impl/BeansXml.java:106-111 | a section is written exactly when it has classes |
| BeansXmlWriter.AlternativesSection | tests-arquillian/src/main/java/org/jboss/shrinkwrap/impl/BeansXml.java:97-103 | the alternatives section is written exactly when there are alternatives or stereotypes |
| BeansXmlWriter.OpenStream | tests-arquillian/src/main/java/org/jboss/shrinkwrap/impl/BeansXml.java:84-95 | the document starts with the header for its discovery mode and ends with the closing `beans` tag; the sections between them, in order, are stated by `BeansXmlWriter.DocumentReadsBack` |
| BeansXmlWriter.EntriesRoundTrip | tests-arquillian/src/main/java/org/jboss/shrinkwrap/impl/BeansXml.java:114-117 | the written entries read back as the same class names, in order |
| BeansXmlWriter.SectionsAppearIffNonEmpty | tests-arquillian/src/main/java/org/jboss/shrinkwrap/impl/BeansXml.java:97-112 | each section appears exactly when its lists are non-empty, and an empty descriptor is the header followed by the footer |
| BeansXmlWriter.InterceptorsSectionReadsBack | tests-arquillian/src/main/java/org/jboss/shrinkwrap/impl/BeansXml.java:106-111 | the interceptors section reads back as the interceptor list |
| BeansXmlWriter.DocumentReadsBack | tests-arquillian/src/main/java/org/jboss/shrinkwrap/impl/BeansXml.java:84-117 | the written document reads back, header first and then the alternatives (with stereotypes), interceptors and decorators sections in that order, to the asset's mode and its four lists, for class names without `<` |
| BeansXmlWriter.SuppressorIsInert | tests-arquillian/src/main/java/org/jboss/shrinkwrap/impl/BeansXml.java:14-19 | the suppressor stays at mode `none`, writes the empty `none` descriptor, and refuses every append |
| BeansXmlWriter.ModeValueIsInjective | tests-arquillian/src/main/java/org/jboss/shrinkwrap/impl/BeansXml.java:21-30 | distinct modes are written as distinct values, so the header determines the mode |
| BeansXmlWriter.NewAssetIsAll | tests-arquillian/src/main/java/org/jboss/shrinkwrap/impl/BeansXml.java:43-47 | a new descriptor is in mode `all` and writes the empty `all` descriptor |

## Left out

- Concurrency. `AbstractContext`'s per-contextual locks are modelled as serialized locked sections: a sequence of requests, each run whole. `InterceptorMethodHandler`'s concurrent map is modelled by passing in the chain that a racing thread may already have stored. Real interleavings, and the thread-locals other than the probe's builder stack, are not modelled.
- Reflection, class loading and `SecurityActions`/`setAccessible` are not modelled. Method invocation, reference lookup and instance creation are function parameters, and so are type closures, the assignability of classes, and the hashing of classes, strings and member values.
- The CompletionStage machinery, the executors, the security context and the request context around asynchronous delivery are left out. `NotifyAsync` gives the stage's outcome, and the executor that would run it, as values.
- Time and logging are left out: the probe's `System.nanoTime` durations, the log message catalogs, and the descriptive fields of the invocation builder (bean, method, declaring class).
- `AbstractContext.checkContextInitialized` and the serialization hooks are left out: they only touch caches that are not part of this model.
- `BeansXml.openStream` is modelled as the text written. Its conversion to bytes in the platform charset is not.
- `AfterBeanDiscoveryImpl`'s static `fire`, `getAnnotatedType(s)` and `getOrCreateBeanDeployment` are left out: they look up bean deployments in the manager, which is not part of this model. `ProcessBean`, `ProcessBeans` and `ProcessObservers` record registrations against the deployment as steps instead.
- The helpers of superclasses and collaborators are not part of this model; their results are parameters. These are:
  - `Observers.notify`, the transaction services and the `Status` mapping;
  - `ResolvableBuilder`, whose qualifier validation in `addQualifiers` is a parameter that may refuse the qualifiers;
  - `BeanManagerImpl`, the metadata validators and `createAnnotatedType`;
  - `ClassTransformer` (`unbacked`), the scanner and `mergeBeansXml`;
  - the lifecycle method names of `InterceptionUtils` and the accessor prefixes of the probe;
  - `AbstractDefinitionContainerEvent`, whose `fire` is taken to be `AbstractContainerEvent.fire`.
- `WeldStartup` and `WeldRuntime` are not part of this model. The bootstrap records the calls it forwards to them as a trace.
- ResolvedObserverSets.Of and ObserverNotifiers.NotifyObservers: the notifier takes its observer lists as input, as described above, because the `ResolvedObservers` shown has no asynchronous bucket.
- Specialization.GetMostSpecializingBean: requires the bean's specialization chain to end, because on a cyclic map the source loops forever. The loop is modelled as written: the lagging pointer advances one step every two iterations. The loop ends on every finite chain, including chains longer than one step, and never on a cyclic one.
- StaticInjection.Invoke: a reflective failure is rethrown as `RuntimeFailure(exceptionTypeToThrow)`. The rethrowing helper, `rethrowException`, belongs to a superclass that is not part of this model, so the wrapped cause, and whether an `InvocationTargetException` is unwrapped to its cause first, are not modelled.
- StaticInjection.GetParameterValues: whether `getInjectionPoints()` is empty is a boolean input, rather than being derived from the parameter list.
- AfterBeanDiscovery.ValidateInterceptor: the error names some offending binding. The source reports the first one in the set's iteration order, which is not modelled.
- DeploymentArchives.Merge: the merged class list is stated as a set, each class once, because the source collects the classes in a hash set with no defined order.
- DeploymentArchives.AddBeanClass: the caller's collection is modelled as either a list or a set. A set-backed archive appends a new class at the end of the modelled list, because the hash set's iteration order is not modelled.
- MemberProducers.Produce: when the receiver lookup fails, the creational context created for the product is not released. This is modelled as written, because the lookup happens before the `try` block.
- ObserverMethods.SendEvent: a creational context is released only when the observer method was invoked. When obtaining the reference of the declaring bean throws, the context created for it is never released. This is modelled as written, because `getReference` is called before the `try` block of the private `sendEvent`.
- QualifierInstances.Equals: member values have no array case, so two instances whose values agree are equal. In the source an array-valued binding member is read through `Method.invoke`, which returns a fresh copy, and `Map.equals` compares arrays by identity, so such instances are never equal. The CDI specification leaves array-valued binding members non-portable, and arrays are not modelled.
- QualifierInstances.NonbindingMembersIgnored: stated for member values without arrays, for the reason just given.
- ScopeContexts.Destroy: removing an instance also calls `RequestScopedCache.invalidate()` in the source. That cache is not part of this model.
- InterceptorHandlers: a method is represented by its name. The name is both the key of the chain cache and what is compared with the lifecycle callback names. The source keys the cache by the `Method` object, so overloads with one name share a cache entry only in the model.
- EventFacades: the resolution of an event's type variables against the facade's type hierarchy is one function in the services, where the source builds one hierarchy per facade from its type. A selected facade keeps its parent's injection point, where the source wraps it in a `FacadeInjectionPoint` for the selected type and qualifiers; the model's facade carries the selected type and qualifiers itself.

## Findings

| source | as written | input that shows it | evidently intended | confidence | as-written member | corrected member |
|---|---|---|---|---|---|---|
| probe/core/src/main/java/org/jboss/weld/probe/InvocationMonitor.java:141-158 | for a non-entry-point builder the thread-local is put back to the parent only after `proceed` returns normally; the `finally` block handles only entry points, so a child whose call throws stays current | monitor `Monitor(Some(EntryPoint(1)), 1, 0, [])`, then a child call that throws, then a sibling call: the sibling is built as `Child(Child(EntryPoint(1), 0), 1)`, under the failed child instead of the entry point | the parent is restored on every exit path, so the sibling becomes `Child(EntryPoint(1), 1)` | not executed | InvocationMonitors.FailedChildMisparentsSibling | InvocationMonitors.MonitorCallRestoresCurrent |
