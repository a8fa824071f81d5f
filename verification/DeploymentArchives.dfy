/** A bean deployment archive of the SE and servlet environments: its bean classes, its
    beans.xml, the archives it can see, and the merge into one flat archive. */
module DeploymentArchives {
  import opened Outcomes

  type ArchiveRef = string
  type BeansXmlRef = string

  /** The kind of the mutable collection a caller hands the constructor: a list keeps
      every `add`, a set ignores the add of a class it already holds. */
  datatype ClassCollection = ListCollection | SetCollection

  /** `ref` stands for the archive object's identity. `beanClasses` is the mutable
      collection passed to the constructor, in its iteration order, and `collection` says
      which kind of collection it is. */
  datatype Archive = Archive(
    ref: ArchiveRef,
    id: string,
    beanClasses: seq<string>,
    collection: ClassCollection,
    beansXml: BeansXmlRef,
    accessible: set<ArchiveRef>)

  /** The classes are listed each once. */
  predicate Distinct(classes: seq<string>) {
    forall i, j :: 0 <= i < j < |classes| ==> classes[i] != classes[j]
  }

  /** What a set-backed collection always satisfies. */
  predicate WellFormed(a: Archive) {
    a.collection == SetCollection ==> Distinct(a.beanClasses)
  }

  /** `ManagerObjectFactory.FLAT_BEAN_DEPLOYMENT_ID` (ManagerObjectFactory is not part of
      this model). */
  const FLAT_BEAN_DEPLOYMENT_ID: string := "flat"

  /** The three-argument constructor: no accessible archives. */
  function NewArchive(ref: ArchiveRef, id: string, beanClasses: seq<string>, collection: ClassCollection, beansXml: BeansXmlRef): (a: Archive)
    ensures a.accessible == {} && a.beanClasses == beanClasses && a.id == id && a.beansXml == beansXml
    ensures a.collection == collection
  {
    Archive(ref, id, beanClasses, collection, beansXml, {})
  }

  function GetBeanClasses(a: Archive): seq<string> {
    a.beanClasses
  }

  function GetBeanDeploymentArchives(a: Archive): set<ArchiveRef> {
    a.accessible
  }

  /** `setAccessibleBeanDeploymentArchives`: a copy of the given set is stored. */
  function SetAccessibleBeanDeploymentArchives(a: Archive, archives: set<ArchiveRef>): (r: Archive)
    ensures GetBeanDeploymentArchives(r) == archives
    ensures r.ref == a.ref && r.id == a.id && r.beanClasses == a.beanClasses && r.collection == a.collection && r.beansXml == a.beansXml
  {
    a.(accessible := archives)
  }

  /** `addBeanClass`: the collection's own `add`. A list appends the class after the
      existing ones; a set that already holds it is left as it is, and otherwise appends
      it too (its iteration order is not modelled beyond holding each class once). */
  function AddBeanClass(a: Archive, className: string): (r: Archive)
    ensures forall c :: c in GetBeanClasses(r) <==> c in GetBeanClasses(a) || c == className
    ensures a.collection == SetCollection && className in GetBeanClasses(a) ==> r == a
    ensures a.collection == ListCollection || className !in GetBeanClasses(a) ==>
      |GetBeanClasses(r)| == |GetBeanClasses(a)| + 1 && GetBeanClasses(r)[..|GetBeanClasses(a)|] == GetBeanClasses(a)
        && GetBeanClasses(r)[|GetBeanClasses(a)|] == className
    ensures WellFormed(a) ==> WellFormed(r)
    ensures !IsEmpty(r)
    ensures r.ref == a.ref && r.id == a.id && r.collection == a.collection && r.beansXml == a.beansXml && r.accessible == a.accessible
  {
    if a.collection == SetCollection && className in a.beanClasses then a
    else a.(beanClasses := a.beanClasses + [className])
  }

  /** Adding the same class twice to a set-backed archive is the same as adding it once;
      a list-backed archive lists it twice. */
  lemma {:induction false} RepeatedAddIsIdempotentOnSet(a: Archive, className: string)
    ensures a.collection == SetCollection ==> AddBeanClass(AddBeanClass(a, className), className) == AddBeanClass(a, className)
    ensures a.collection == ListCollection ==>
      |GetBeanClasses(AddBeanClass(AddBeanClass(a, className), className))| == |GetBeanClasses(a)| + 2
  {
    var once := AddBeanClass(a, className);
    assert className in GetBeanClasses(once);
  }

  /** `isEmpty`. */
  predicate IsEmpty(a: Archive) {
    |a.beanClasses| == 0
  }

  /** Some archive among `archives` lists the class. */
  ghost predicate ListedIn(archives: seq<Archive>, c: string) {
    exists i :: 0 <= i < |archives| && c in archives[i].beanClasses
  }

  /** `merge`: a new archive with the flat-deployment id holding the union of every
      archive's bean classes (a hash set, so each once and in no particular order), and the
      merged beans.xml (`mergeBeansXml`, the parser's merge, not part of this model). The
      merged archive is empty exactly when every archive is, and later adds to it behave as
      a set's. */
  method Merge(ref: ArchiveRef, archives: seq<Archive>, mergeBeansXml: seq<Archive> -> BeansXmlRef) returns (merged: Archive)
    ensures merged.id == FLAT_BEAN_DEPLOYMENT_ID && merged.accessible == {}
    ensures merged.beansXml == mergeBeansXml(archives)
    ensures forall c :: c in merged.beanClasses <==> ListedIn(archives, c)
    ensures Distinct(merged.beanClasses)
    ensures merged.collection == SetCollection && WellFormed(merged)
    ensures IsEmpty(merged) <==> forall i :: 0 <= i < |archives| ==> IsEmpty(archives[i])
  {
    var classes: set<string> := {};
    var k := 0;
    while k < |archives|
      invariant 0 <= k <= |archives|
      invariant forall c :: c in classes <==> ListedIn(archives[..k], c)
    {
      classes := classes + set c | c in archives[k].beanClasses;
      forall c ensures ListedIn(archives[..k + 1], c) <==> ListedIn(archives[..k], c) || c in archives[k].beanClasses {
        if ListedIn(archives[..k + 1], c) {
          var i :| 0 <= i < k + 1 && c in archives[..k + 1][i].beanClasses;
          if i < k {
            assert archives[..k][i] == archives[..k + 1][i];
          }
        }
        if ListedIn(archives[..k], c) {
          var i :| 0 <= i < k && c in archives[..k][i].beanClasses;
          assert archives[..k + 1][i] == archives[..k][i];
        }
        if c in archives[k].beanClasses {
          assert archives[..k + 1][k] == archives[k];
        }
      }
      k := k + 1;
    }
    assert archives[..k] == archives;
    var listed := Enumerate(classes);
    merged := NewArchive(ref, FLAT_BEAN_DEPLOYMENT_ID, listed, SetCollection, mergeBeansXml(archives));
    if !IsEmpty(merged) {
      assert ListedIn(archives, listed[0]);
    }
    forall i | 0 <= i < |archives| && !IsEmpty(archives[i])
      ensures !IsEmpty(merged)
    {
      assert ListedIn(archives, archives[i].beanClasses[0]);
    }
  }

  /** The elements of a finite set, each once, in some order. */
  method Enumerate(s: set<string>) returns (r: seq<string>)
    ensures forall x :: x in r <==> x in s
    ensures Distinct(r)
  {
    r := [];
    var remaining := s;
    while remaining != {}
      invariant remaining <= s
      invariant forall x :: x in r <==> x in s - remaining
      invariant forall i, j :: 0 <= i < j < |r| ==> r[i] != r[j]
      decreases |remaining|
    {
      var x :| x in remaining;
      assert x !in r;
      r := r + [x];
      remaining := remaining - {x};
    }
  }
}
