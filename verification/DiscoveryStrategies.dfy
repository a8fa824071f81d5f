/** The default discovery strategy: each scanned bean archive is handled according to its
    beans.xml discovery mode, and every resulting archive is made to see all of them. */
module DiscoveryStrategies {
  import opened Outcomes
  import opened Throwables
  import opened DeploymentArchives

  datatype BeanDiscoveryMode = ALL | ANNOTATED | NONE

  /** A bean archive builder as the scanner returns it: the discovery mode of its beans.xml
      and the archive `build()` makes (`None` for null). */
  datatype BeanArchiveBuilder = BeanArchiveBuilder(mode: BeanDiscoveryMode, built: Option<Archive>)

  type Scanner = string

  /** The strategy's state: the scanner, if one was set. */
  datatype Strategy = Strategy(scanner: Option<Scanner>)

  /** The start of `performDiscovery`: the default scanner is created only when none was
      set. */
  function EnsureScanner(s: Strategy, defaultScanner: Scanner): (r: Strategy)
    ensures r.scanner.Some?
    ensures s.scanner.Some? ==> r == s
    ensures s.scanner.None? ==> r.scanner == Some(defaultScanner)
  {
    if s.scanner.None? then Strategy(Some(defaultScanner)) else s
  }

  /** What each mode contributes: `processAllDiscovery` builds the archive,
      `processAnnotatedDiscovery` is unsupported, `processNoneDiscovery` gives null. */
  function Process(b: BeanArchiveBuilder): (r: Result<Option<Archive>, Throwable>)
    ensures b.mode == ALL ==> r == Ok(b.built)
    ensures b.mode == ANNOTATED ==> r == Err(UnsupportedOperation)
    ensures b.mode == NONE ==> r == Ok(None)
  {
    match b.mode
    case ALL => Ok(b.built)
    case ANNOTATED => Err(UnsupportedOperation)
    case NONE => Ok(None)
  }

  /** `addToArchives`: a null archive is skipped. */
  function AddToArchives(archives: set<Archive>, a: Option<Archive>): (r: set<Archive>)
    ensures a.None? ==> r == archives
    ensures a.Some? ==> r == archives + {a.value}
  {
    if a.Some? then archives + {a.value} else archives
  }

  /** The loop of `performDiscovery` over the builders, in the scanner's order. */
  function Collect(builders: seq<BeanArchiveBuilder>, archives: set<Archive>): (r: Result<set<Archive>, Throwable>)
    decreases |builders|
  {
    if |builders| == 0 then Ok(archives)
    else
      var contributed :- Process(builders[0]);
      Collect(builders[1..], AddToArchives(archives, contributed))
  }

  /** The references of a set of archives. */
  function Refs(archives: set<Archive>): set<ArchiveRef> {
    set a | a in archives :: a.ref
  }

  /** `assignVisibility`: every archive is given the whole set as its accessible archives. */
  function AssignVisibility(archives: set<Archive>): (r: set<Archive>)
    ensures forall a :: a in r ==> a.accessible == Refs(archives)
    ensures forall a :: a in archives ==> SetAccessibleBeanDeploymentArchives(a, Refs(archives)) in r
    ensures forall b :: b in r ==> exists a :: a in archives && b == SetAccessibleBeanDeploymentArchives(a, Refs(archives))
  {
    set a | a in archives :: SetAccessibleBeanDeploymentArchives(a, Refs(archives))
  }

  /** `performDiscovery`: the scan is `scan` (the scanner, not part of this model);
      `beforeDiscovery` does nothing and `afterDiscovery` assigns visibility. */
  function PerformDiscovery(s: Strategy, defaultScanner: Scanner, scan: Scanner -> seq<BeanArchiveBuilder>)
    : (r: (Strategy, Result<set<Archive>, Throwable>))
    ensures r.0 == EnsureScanner(s, defaultScanner)
  {
    var s1 := EnsureScanner(s, defaultScanner);
    var builders := scan(s1.scanner.value);
    match Collect(builders, {})
    case Err(e) => (s1, Err(e))
    case Ok(archives) => (s1, Ok(AssignVisibility(archives)))
  }

  // ---- reference definition and properties ----

  /** The archives discovery should produce when no archive is in annotated mode: the
      non-null built archives of the archives in mode ALL. */
  ghost predicate Contributed(builders: seq<BeanArchiveBuilder>, a: Archive) {
    exists i :: 0 <= i < |builders| && builders[i].mode == ALL && builders[i].built == Some(a)
  }

  /** With no archive in annotated mode, the loop collects exactly the built ALL archives:
      NONE archives and null builds contribute nothing. */
  lemma {:induction false} CollectKeepsBuiltAllArchives(builders: seq<BeanArchiveBuilder>, archives: set<Archive>)
    requires forall i :: 0 <= i < |builders| ==> builders[i].mode != ANNOTATED
    ensures Collect(builders, archives).Ok?
    ensures forall a :: a in Collect(builders, archives).value <==> a in archives || Contributed(builders, a)
    decreases |builders|
  {
    if |builders| > 0 {
      var next := AddToArchives(archives, Process(builders[0]).value);
      CollectKeepsBuiltAllArchives(builders[1..], next);
      forall a ensures Contributed(builders, a) <==> Contributed(builders[1..], a) || (builders[0].mode == ALL && builders[0].built == Some(a)) {
        if Contributed(builders, a) {
          var i :| 0 <= i < |builders| && builders[i].mode == ALL && builders[i].built == Some(a);
          if i > 0 {
            assert builders[1..][i - 1] == builders[i];
          }
        }
        if Contributed(builders[1..], a) {
          var i :| 0 <= i < |builders| - 1 && builders[1..][i].mode == ALL && builders[1..][i].built == Some(a);
          assert builders[i + 1] == builders[1..][i];
        }
      }
    }
  }

  /** Any archive in annotated mode makes the whole discovery fail as unsupported. */
  lemma {:induction false} AnnotatedModeIsUnsupported(builders: seq<BeanArchiveBuilder>, archives: set<Archive>, k: nat)
    requires k < |builders| && builders[k].mode == ANNOTATED
    ensures Collect(builders, archives) == Err(UnsupportedOperation)
    decreases |builders|
  {
    if builders[0].mode != ANNOTATED {
      AnnotatedModeIsUnsupported(builders[1..], AddToArchives(archives, Process(builders[0]).value), k - 1);
    }
  }

  /** The built ALL archives, as a set. */
  ghost function ContributedArchives(builders: seq<BeanArchiveBuilder>): (r: set<Archive>)
    ensures forall a :: a in r <==> Contributed(builders, a)
  {
    set i | 0 <= i < |builders| && builders[i].mode == ALL && builders[i].built.Some? :: builders[i].built.value
  }

  /** After a successful discovery the archives are exactly the built ALL archives, each
      given as accessible archives the references of all of them, so every archive sees
      exactly the archives discovered. */
  lemma DiscoveryResult(s: Strategy, defaultScanner: Scanner, scan: Scanner -> seq<BeanArchiveBuilder>)
    requires var builders := scan(EnsureScanner(s, defaultScanner).scanner.value);
             forall i :: 0 <= i < |builders| ==> builders[i].mode != ANNOTATED
    ensures var builders := scan(EnsureScanner(s, defaultScanner).scanner.value);
            var r := PerformDiscovery(s, defaultScanner, scan).1;
            var visible := Refs(ContributedArchives(builders));
            && r.Ok?
            && (forall a :: Contributed(builders, a) ==> a.(accessible := visible) in r.value)
            && (forall b :: b in r.value ==> exists a :: Contributed(builders, a) && b == a.(accessible := visible))
            && (forall b :: b in r.value ==> b.accessible == Refs(r.value))
  {
    var builders := scan(EnsureScanner(s, defaultScanner).scanner.value);
    CollectKeepsBuiltAllArchives(builders, {});
    var archives := Collect(builders, {}).value;
    assert archives == ContributedArchives(builders);
    var r := AssignVisibility(archives);
    assert Refs(r) == Refs(archives) by {
      forall x | x in Refs(archives) ensures x in Refs(r) {
        var a :| a in archives && a.ref == x;
        assert SetAccessibleBeanDeploymentArchives(a, Refs(archives)) in r;
      }
    }
  }
}
