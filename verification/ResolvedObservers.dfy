/** The result of observer resolution: the resolved observers split into those notified
    during the firing call (phase IN_PROGRESS) and the transactional ones, plus whether any
    of them wants event metadata. */
module ResolvedObserverSets {
  import opened SeqUtil
  import opened Events

  datatype ResolvedObservers = ResolvedObservers(
    immediateObservers: seq<Observer>,
    transactionObservers: seq<Observer>,
    metadataRequired: bool,
    isEmpty: bool)   // true only for the shared EMPTY instance, whose isEmpty is overridden

  const EMPTY: ResolvedObservers := ResolvedObservers([], [], false, true)

  /** `getAllObservers`: the immediate observers followed by the transactional ones. */
  function AllObservers(r: ResolvedObservers): seq<Observer> {
    r.immediateObservers + r.transactionObservers
  }

  /** Some observer in `s` requires event metadata. */
  predicate SomeRequiresMetadata(s: seq<Observer>) {
    exists k :: 0 <= k < |s| && s[k].metadataRequired
  }

  lemma SomeRequiresMetadataSnoc(s: seq<Observer>, o: Observer)
    ensures SomeRequiresMetadata(s + [o]) <==> SomeRequiresMetadata(s) || o.metadataRequired
  {
    if SomeRequiresMetadata(s) {
      var k :| 0 <= k < |s| && s[k].metadataRequired;
      assert (s + [o])[k] == s[k];
    }
    if SomeRequiresMetadata(s + [o]) && !o.metadataRequired {
      var k :| 0 <= k < |s + [o]| && (s + [o])[k].metadataRequired;
      assert k < |s| && s[k] == (s + [o])[k];
    }
    if o.metadataRequired {
      assert (s + [o])[|s|] == o;
    }
  }

  /** `of(observers)`: the input is iterated once; each observer is appended to the bucket
      its phase selects, and the metadata flag is raised by the first observer that needs it. */
  method Of(observers: seq<Observer>) returns (r: ResolvedObservers)
    ensures |observers| == 0 ==> r == EMPTY
    ensures |observers| > 0 ==> !r.isEmpty
    ensures r.immediateObservers == Filter(observers, IsImmediate)
    ensures r.transactionObservers == Filter(observers, IsTransactional)
    ensures r.metadataRequired <==> SomeRequiresMetadata(observers)
  {
    if |observers| == 0 {
      return EMPTY;
    }
    var metadataRequired := false;
    var immediate: seq<Observer> := [];
    var transaction: seq<Observer> := [];
    var i := 0;
    while i < |observers|
      invariant 0 <= i <= |observers|
      invariant immediate == Filter(observers[..i], IsImmediate)
      invariant transaction == Filter(observers[..i], IsTransactional)
      invariant metadataRequired <==> SomeRequiresMetadata(observers[..i])
    {
      var observer := observers[i];
      assert observers[..i + 1] == observers[..i] + [observer];
      FilterSnoc(observers[..i], observer, IsImmediate);
      FilterSnoc(observers[..i], observer, IsTransactional);
      SomeRequiresMetadataSnoc(observers[..i], observer);
      if IsImmediate(observer) {
        assert !IsTransactional(observer);
        immediate := immediate + [observer];
      } else {
        assert IsTransactional(observer);
        transaction := transaction + [observer];
      }
      if !metadataRequired && observer.metadataRequired {
        metadataRequired := true;
      }
      i := i + 1;
    }
    assert observers[..i] == observers;
    return ResolvedObservers(immediate, transaction, metadataRequired, false);
  }

  /** Every resolved observer lands in exactly one bucket: the immediate one iff its phase
      is IN_PROGRESS. */
  lemma EachObserverInExactlyOneBucket(observers: seq<Observer>, r: ResolvedObservers, o: Observer)
    requires r.immediateObservers == Filter(observers, IsImmediate)
    requires r.transactionObservers == Filter(observers, IsTransactional)
    requires o in observers
    ensures o in r.immediateObservers <==> o.phase == IN_PROGRESS
    ensures o in r.transactionObservers <==> o.phase != IN_PROGRESS
  {
    FilterMembers(observers, IsImmediate);
    FilterMembers(observers, IsTransactional);
  }

  /** `getAllObservers` is a permutation of the input: nothing is lost or duplicated. */
  lemma AllObserversIsPermutation(observers: seq<Observer>, r: ResolvedObservers)
    requires r.immediateObservers == Filter(observers, IsImmediate)
    requires r.transactionObservers == Filter(observers, IsTransactional)
    ensures multiset(AllObservers(r)) == multiset(observers)
    ensures forall o :: o in AllObservers(r) <==> o in observers
  {
    FilterSplits(observers, IsImmediate, IsTransactional);
    assert multiset(AllObservers(r)) == multiset(r.immediateObservers) + multiset(r.transactionObservers);
    forall o
      ensures o in AllObservers(r) <==> o in observers
    {
      assert o in AllObservers(r) <==> o in multiset(AllObservers(r));
      assert o in observers <==> o in multiset(observers);
    }
  }

  /** Each bucket keeps the iteration order of the input. */
  lemma BucketsKeepOrder(observers: seq<Observer>, r: ResolvedObservers, x: Observer, y: Observer)
    requires r.immediateObservers == Filter(observers, IsImmediate)
    requires r.transactionObservers == Filter(observers, IsTransactional)
    ensures Before(r.immediateObservers, x, y) ==> Before(observers, x, y)
    ensures Before(r.transactionObservers, x, y) ==> Before(observers, x, y)
  {
    if Before(r.immediateObservers, x, y) {
      FilterKeepsOrder(observers, IsImmediate, x, y);
    }
    if Before(r.transactionObservers, x, y) {
      FilterKeepsOrder(observers, IsTransactional, x, y);
    }
  }
}
