/** The scope store shared by Weld's contexts: `get` looks an instance up by the
    contextual's identifier and creates it at most once, `destroy` removes and destroys one
    instance, and tearing the context down destroys them all. The bean store is a map;
    the lock of a multithreaded context is a pair of steps in the trace of a call. */
module ScopeContexts {
  import opened Outcomes
  import opened Throwables

  type BeanIdentifier = string
  type Instance = string
  type CreationalContext = string

  /** A contextual and the identifier `getId` assigns it. */
  datatype Contextual = Contextual(identifier: BeanIdentifier, beanClass: string)

  datatype ContextualInstance = ContextualInstance(contextual: Contextual, instance: Instance, creationalContext: CreationalContext)

  type BeanStore = map<BeanIdentifier, ContextualInstance>

  /** A context: whether it is active, whether it locks around creation, and the bean
      store `getBeanStore` returns (None when there is none). */
  datatype Context = Context(active: bool, multithreaded: bool, beanStore: Option<BeanStore>)

  /** `Contextual.create`: an instance, null, or a failure. */
  type Create = (Contextual, CreationalContext) -> Result<Option<Instance>, Throwable>

  const CONTEXTUAL_IS_NULL: Throwable := IllegalArgument("contextualIsNull")
  const NO_BEAN_STORE_AVAILABLE: Throwable := IllegalState("noBeanStoreAvailable")

  datatype StoreStep = Lock(lockId: BeanIdentifier) | CreateInstance(createdId: BeanIdentifier) | Put(putId: BeanIdentifier) | Unlock(unlockId: BeanIdentifier)

  /** What a `get` did: the bean store afterwards, its steps, and its result. */
  datatype GetRun = GetRun(beanStore: Option<BeanStore>, steps: seq<StoreStep>, result: Result<Option<Instance>, Throwable>)

  /** Every entry is stored under its own contextual's identifier. */
  predicate WellKeyed(store: BeanStore) {
    forall id :: id in store ==> store[id].contextual.identifier == id
  }

  /** The store lock is taken first, released last, and not touched in between. */
  predicate LockBracketed(steps: seq<StoreStep>) {
    && |steps| >= 2 && steps[0].Lock? && steps[|steps| - 1].Unlock? && steps[0].lockId == steps[|steps| - 1].unlockId
    && forall i :: 0 < i < |steps| - 1 ==> !steps[i].Lock? && !steps[i].Unlock?
  }

  predicate NoLocking(steps: seq<StoreStep>) {
    forall i :: 0 <= i < |steps| ==> !steps[i].Lock? && !steps[i].Unlock?
  }

  function CreateCount(steps: seq<StoreStep>): (n: nat)
    ensures n <= |steps|
  {
    if |steps| == 0 then 0 else (if steps[0].CreateInstance? then 1 else 0) + CreateCount(steps[1..])
  }

  lemma {:induction false} CreateCountAppend(a: seq<StoreStep>, b: seq<StoreStep>)
    ensures CreateCount(a + b) == CreateCount(a) + CreateCount(b)
  {
    if |a| > 0 {
      assert (a + b)[1..] == a[1..] + b;
      CreateCountAppend(a[1..], b);
    } else {
      assert a + b == b;
    }
  }

  /** The part of `get` after a miss with a creational context: under the lock (when
      multithreaded) the store is checked again; otherwise, or on a second miss,
      `create` runs and a non-null instance is stored. The lock is released on every path,
      a failure of `create` included. */
  function LockedCreation(multithreaded: bool, store: BeanStore, contextual: Contextual, cc: CreationalContext, create: Create): (r: GetRun)
    ensures r.beanStore.Some?
    ensures multithreaded ==> LockBracketed(r.steps) && r.steps[0] == Lock(contextual.identifier)
    ensures !multithreaded ==> NoLocking(r.steps)
    ensures CreateCount(r.steps) == (if multithreaded && contextual.identifier in store then 0 else 1)
    ensures multithreaded && contextual.identifier in store ==>
              r.beanStore == Some(store) && r.result == Ok(Some(store[contextual.identifier].instance))
    ensures !(multithreaded && contextual.identifier in store) ==>
              && (r.result.Ok? <==> create(contextual, cc).Ok?)
              && (create(contextual, cc).Ok? ==> r.result == create(contextual, cc))
              && (create(contextual, cc).Ok? && create(contextual, cc).value.Some? ==>
                    r.beanStore == Some(store[contextual.identifier := ContextualInstance(contextual, create(contextual, cc).value.value, cc)]))
              && (!(create(contextual, cc).Ok? && create(contextual, cc).value.Some?) ==> r.beanStore == Some(store))
  {
    var id := contextual.identifier;
    var lock := if multithreaded then [Lock(id)] else [];
    var unlock := if multithreaded then [Unlock(id)] else [];
    if multithreaded && id in store then
      GetRun(Some(store), lock + unlock, Ok(Some(store[id].instance)))
    else
      match create(contextual, cc)
      case Err(e) =>
        assert CreateCount(lock + [CreateInstance(id)] + unlock) == 1 by {
          CreateCountAppend(lock + [CreateInstance(id)], unlock);
          CreateCountAppend(lock, [CreateInstance(id)]);
        }
        GetRun(Some(store), lock + [CreateInstance(id)] + unlock, Err(e))
      case Ok(None) =>
        assert CreateCount(lock + [CreateInstance(id)] + unlock) == 1 by {
          CreateCountAppend(lock + [CreateInstance(id)], unlock);
          CreateCountAppend(lock, [CreateInstance(id)]);
        }
        GetRun(Some(store), lock + [CreateInstance(id)] + unlock, Ok(None))
      case Ok(Some(instance)) =>
        assert CreateCount(lock + [CreateInstance(id), Put(id)] + unlock) == 1 by {
          CreateCountAppend(lock + [CreateInstance(id), Put(id)], unlock);
          CreateCountAppend(lock, [CreateInstance(id), Put(id)]);
        }
        GetRun(Some(store[id := ContextualInstance(contextual, instance, cc)]), lock + [CreateInstance(id), Put(id)] + unlock, Ok(Some(instance)))
  }

  /** `get(contextual, creationalContext)`: an inactive context throws; with no bean store
      the result is null; a null contextual is rejected; a stored instance is returned as
      it is; a miss without a creational context returns null; otherwise the locked
      creation above. */
  function Get(c: Context, contextual: Option<Contextual>, cc: Option<CreationalContext>, create: Create): (r: GetRun)
    ensures !c.active ==> r == GetRun(c.beanStore, [], Err(ContextNotActive))
    ensures c.active && c.beanStore.None? ==> r == GetRun(None, [], Ok(None))
    ensures c.active && c.beanStore.Some? && contextual.None? ==> r == GetRun(c.beanStore, [], Err(CONTEXTUAL_IS_NULL))
    ensures c.active && c.beanStore.Some? && contextual.Some? && contextual.value.identifier in c.beanStore.value ==>
              r == GetRun(c.beanStore, [], Ok(Some(c.beanStore.value[contextual.value.identifier].instance)))
    ensures cc.None? ==> r.beanStore == c.beanStore && CreateCount(r.steps) == 0
    ensures CreateCount(r.steps) > 0 ==> c.active && c.beanStore.Some? && contextual.Some? && cc.Some?
                                         && contextual.value.identifier !in c.beanStore.value
    ensures c.beanStore.Some? && WellKeyed(c.beanStore.value) ==> r.beanStore.Some? && WellKeyed(r.beanStore.value)
    ensures c.beanStore.Some? ==> r.beanStore.Some? && c.beanStore.value.Keys <= r.beanStore.value.Keys
  {
    if !c.active then GetRun(c.beanStore, [], Err(ContextNotActive))
    else if c.beanStore.None? then GetRun(None, [], Ok(None))
    else if contextual.None? then GetRun(c.beanStore, [], Err(CONTEXTUAL_IS_NULL))
    else
      var store := c.beanStore.value;
      var id := contextual.value.identifier;
      if id in store then GetRun(c.beanStore, [], Ok(Some(store[id].instance)))
      else if cc.None? then GetRun(c.beanStore, [], Ok(None))
      else LockedCreation(c.multithreaded, store, contextual.value, cc.value, create)
  }

  /** `get(contextual)`: the two-argument form with a null creational context, so it never
      creates and never changes the store. */
  function GetExisting(c: Context, contextual: Option<Contextual>, create: Create): (r: GetRun)
    ensures r.beanStore == c.beanStore && CreateCount(r.steps) == 0
    ensures c.active && c.beanStore.Some? && contextual.Some? && contextual.value.identifier !in c.beanStore.value ==>
              r.result == Ok(None)
  {
    Get(c, contextual, None, create)
  }

  /** What a destruction did: the store afterwards, the identifiers whose instances were
      destroyed (in order), and the failure that escaped, if any. */
  datatype DestroyRun = DestroyRun(beanStore: Option<BeanStore>, destroyed: seq<BeanIdentifier>, thrown: Option<Throwable>)

  /** `Contextual.destroy` on a stored instance: it may fail. */
  type DestroyInstance = ContextualInstance -> Option<Throwable>

  /** `destroy(contextual)`: inactive, null contextual and missing store are rejected in
      that order; an absent identifier is a no-op; a present one is removed first and then
      its instance destroyed. */
  function Destroy(c: Context, contextual: Option<Contextual>, destroyInstance: DestroyInstance): (r: DestroyRun)
    ensures !c.active ==> r == DestroyRun(c.beanStore, [], Some(ContextNotActive))
    ensures c.active && contextual.None? ==> r == DestroyRun(c.beanStore, [], Some(CONTEXTUAL_IS_NULL))
    ensures c.active && contextual.Some? && c.beanStore.None? ==> r == DestroyRun(None, [], Some(NO_BEAN_STORE_AVAILABLE))
    ensures c.active && contextual.Some? && c.beanStore.Some? ==>
              var store := c.beanStore.value;
              var id := contextual.value.identifier;
              && r.beanStore == Some(store - {id})
              && (id !in store ==> r.destroyed == [] && r.thrown.None?)
              && (id in store ==> r.destroyed == [id] && r.thrown == destroyInstance(store[id]))
  {
    if !c.active then DestroyRun(c.beanStore, [], Some(ContextNotActive))
    else if contextual.None? then DestroyRun(c.beanStore, [], Some(CONTEXTUAL_IS_NULL))
    else if c.beanStore.None? then DestroyRun(None, [], Some(NO_BEAN_STORE_AVAILABLE))
    else
      var store := c.beanStore.value;
      var id := contextual.value.identifier;
      if id in store then DestroyRun(Some(store - {id}), [id], destroyInstance(store[id]))
      else
        assert store - {id} == store;
        DestroyRun(Some(store), [], None)
  }

  /** The protected `destroy()`: with no store it throws; otherwise every stored instance is
      destroyed, once each and in the store's iteration order, and then the store is
      emptied. A failing destruction escapes and leaves the store uncleared. */
  method DestroyAll(c: Context, destroyInstance: DestroyInstance) returns (r: DestroyRun)
    ensures c.beanStore.None? ==> r == DestroyRun(None, [], Some(NO_BEAN_STORE_AVAILABLE))
    ensures c.beanStore.Some? ==>
              var store := c.beanStore.value;
              && (forall i, j :: 0 <= i < j < |r.destroyed| ==> r.destroyed[i] != r.destroyed[j])
              && (forall i :: 0 <= i < |r.destroyed| ==> r.destroyed[i] in store)
              && (r.thrown.None? <==> forall id :: id in store ==> destroyInstance(store[id]).None?)
              && (r.thrown.None? ==> r.beanStore == Some(map[]) && |r.destroyed| == |store|
                                      && forall id :: id in store ==> id in r.destroyed)
              && (r.thrown.Some? ==> r.beanStore == c.beanStore && |r.destroyed| > 0
                                      && r.thrown == destroyInstance(store[r.destroyed[|r.destroyed| - 1]])
                                      && forall i :: 0 <= i < |r.destroyed| - 1 ==> destroyInstance(store[r.destroyed[i]]).None?)
  {
    if c.beanStore.None? {
      return DestroyRun(None, [], Some(NO_BEAN_STORE_AVAILABLE));
    }
    var store := c.beanStore.value;
    var remaining := store.Keys;
    var destroyed: seq<BeanIdentifier> := [];
    while remaining != {}
      invariant remaining <= store.Keys
      invariant forall i :: 0 <= i < |destroyed| ==> destroyed[i] in store && destroyed[i] !in remaining
      invariant forall i, j :: 0 <= i < j < |destroyed| ==> destroyed[i] != destroyed[j]
      invariant forall id :: id in store ==> (id in remaining <==> id !in destroyed)
      invariant forall i :: 0 <= i < |destroyed| ==> destroyInstance(store[destroyed[i]]).None?
      invariant |destroyed| + |remaining| == |store|
      decreases |remaining|
    {
      var id :| id in remaining;
      destroyed := destroyed + [id];
      remaining := remaining - {id};
      var failure := destroyInstance(store[id]);
      if failure.Some? {
        return DestroyRun(c.beanStore, destroyed, failure);
      }
    }
    return DestroyRun(Some(map[]), destroyed, None);
  }

  /** `cleanup()`: the store, if any, is cleared; a failure to clear is logged and
      swallowed, leaving the store as it was. Nothing escapes. */
  function Cleanup(c: Context, clearFails: bool): (r: Option<BeanStore>)
    ensures c.beanStore.None? ==> r.None?
    ensures c.beanStore.Some? && !clearFails ==> r == Some(map[])
    ensures clearFails ==> r == c.beanStore
  {
    if c.beanStore.None? || clearFails then c.beanStore else Some(map[])
  }

  // ---- several threads ----

  /** Threads that all found no instance before taking the lock run their locked sections
      one after another, each seeing the store the previous one left. */
  function SerializedCreations(multithreaded: bool, store: BeanStore, contextual: Contextual,
                               ccs: seq<CreationalContext>, create: Create): (r: (BeanStore, seq<StoreStep>, seq<Result<Option<Instance>, Throwable>>))
    ensures |r.2| == |ccs|
    ensures store.Keys <= r.0.Keys
    decreases |ccs|
  {
    if |ccs| == 0 then (store, [], [])
    else
      var first := LockedCreation(multithreaded, store, contextual, ccs[0], create);
      var rest := SerializedCreations(multithreaded, first.beanStore.value, contextual, ccs[1..], create);
      (rest.0, first.steps + rest.1, [first.result] + rest.2)
  }

  /** With the lock and an instance already stored, no thread creates and every one gets
      the stored instance. */
  lemma {:induction false} StoredInstanceIsShared(store: BeanStore, contextual: Contextual, ccs: seq<CreationalContext>, create: Create)
    requires contextual.identifier in store
    ensures var r := SerializedCreations(true, store, contextual, ccs, create);
            && r.0 == store
            && CreateCount(r.1) == 0
            && forall i :: 0 <= i < |ccs| ==> r.2[i] == Ok(Some(store[contextual.identifier].instance))
    decreases |ccs|
  {
    if |ccs| > 0 {
      var first := LockedCreation(true, store, contextual, ccs[0], create);
      StoredInstanceIsShared(store, contextual, ccs[1..], create);
      CreateCountAppend(first.steps, SerializedCreations(true, store, contextual, ccs[1..], create).1);
    }
  }

  /** At most one creation: when every thread missed before locking and the first one's
      `create` yields an instance, exactly one thread creates, and every thread returns
      that instance. */
  lemma CreatedAtMostOnce(store: BeanStore, contextual: Contextual, ccs: seq<CreationalContext>, create: Create)
    requires contextual.identifier !in store
    requires |ccs| > 0
    requires create(contextual, ccs[0]).Ok? && create(contextual, ccs[0]).value.Some?
    ensures var r := SerializedCreations(true, store, contextual, ccs, create);
            && CreateCount(r.1) == 1
            && forall i :: 0 <= i < |ccs| ==> r.2[i] == create(contextual, ccs[0])
  {
    var first := LockedCreation(true, store, contextual, ccs[0], create);
    var s1 := first.beanStore.value;
    assert contextual.identifier in s1;
    StoredInstanceIsShared(s1, contextual, ccs[1..], create);
    CreateCountAppend(first.steps, SerializedCreations(true, s1, contextual, ccs[1..], create).1);
    var r := SerializedCreations(true, store, contextual, ccs, create);
    forall i | 0 <= i < |ccs|
      ensures r.2[i] == create(contextual, ccs[0])
    {
      if i > 0 {
        assert r.2[i] == SerializedCreations(true, s1, contextual, ccs[1..], create).2[i - 1];
      }
    }
  }

  /** Without the lock nothing is checked again, so every thread that missed creates: the
      re-check is what makes creation happen once. */
  lemma {:induction false} UnlockedCreatesPerThread(store: BeanStore, contextual: Contextual, ccs: seq<CreationalContext>, create: Create)
    ensures CreateCount(SerializedCreations(false, store, contextual, ccs, create).1) == |ccs|
    decreases |ccs|
  {
    if |ccs| > 0 {
      var first := LockedCreation(false, store, contextual, ccs[0], create);
      UnlockedCreatesPerThread(first.beanStore.value, contextual, ccs[1..], create);
      CreateCountAppend(first.steps, SerializedCreations(false, first.beanStore.value, contextual, ccs[1..], create).1);
    }
  }

  // ---- properties ----

  /** Once `get` has stored an instance, a later `get` returns it without creating. */
  lemma SecondGetReturnsStored(c: Context, contextual: Contextual, cc1: CreationalContext, cc2: Option<CreationalContext>, create: Create)
    requires c.active && c.beanStore.Some?
    requires create(contextual, cc1).Ok? && create(contextual, cc1).value.Some?
    ensures var first := Get(c, Some(contextual), Some(cc1), create);
            var second := Get(c.(beanStore := first.beanStore), Some(contextual), cc2, create);
            && second.result == first.result
            && second.beanStore == first.beanStore
            && CreateCount(second.steps) == 0
  {
  }

  /** Destroying the same contextual twice destroys its instance once. */
  lemma DestroyTwiceDestroysOnce(c: Context, contextual: Contextual, destroyInstance: DestroyInstance)
    requires c.active && c.beanStore.Some?
    ensures var first := Destroy(c, Some(contextual), destroyInstance);
            Destroy(c.(beanStore := first.beanStore), Some(contextual), destroyInstance).destroyed == []
  {
  }

  /** `destroy(contextual)` keeps the store well keyed and leaves other entries alone. */
  lemma DestroyKeepsOthers(c: Context, contextual: Contextual, destroyInstance: DestroyInstance, other: BeanIdentifier)
    requires c.active && c.beanStore.Some? && WellKeyed(c.beanStore.value)
    requires other != contextual.identifier && other in c.beanStore.value
    ensures var r := Destroy(c, Some(contextual), destroyInstance);
            && WellKeyed(r.beanStore.value)
            && other in r.beanStore.value && r.beanStore.value[other] == c.beanStore.value[other]
  {
  }
}
