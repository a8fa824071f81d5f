/** BeansClosure: which bean specializes which, and the deployer environments of a bean
    archive closure, with the lookups across them. */
module Specialization {
  import opened Outcomes
  import opened JavaTypes

  type Bean = string

  /** One deployer environment, as far as the closure queries it: the classes with an EJB
      descriptor, the class bean of each class, and the producer method overriding each
      superclass method. */
  datatype BeanDeployerEnvironment = BeanDeployerEnvironment(
    ejbDescriptors: set<ClassName>,
    classBeans: map<ClassName, Bean>,
    producerMethods: map<string, Bean>)

  /** The specialization map (specialized bean to its specializer) and the environments. */
  datatype BeansClosure = BeansClosure(specialized: map<Bean, Bean>, envs: set<BeanDeployerEnvironment>)

  const EMPTY: BeansClosure := BeansClosure(map[], {})

  function AddSpecialized(c: BeansClosure, specializedBean: Bean, specializingBean: Bean): (r: BeansClosure)
    ensures GetSpecializingBean(r, specializedBean) == Some(specializingBean)
    ensures forall b :: b != specializedBean ==> GetSpecializingBean(r, b) == GetSpecializingBean(c, b)
    ensures r.envs == c.envs
  {
    c.(specialized := c.specialized[specializedBean := specializingBean])
  }

  function AddEnvironment(c: BeansClosure, e: BeanDeployerEnvironment): (r: BeansClosure)
    ensures r.envs == c.envs + {e} && r.specialized == c.specialized
  {
    c.(envs := c.envs + {e})
  }

  /** `clear`: forgets the environments only. */
  function Clear(c: BeansClosure): (r: BeansClosure)
    ensures r.envs == {} && r.specialized == c.specialized
  {
    c.(envs := {})
  }

  /** `destroy`: forgets the specializations only. */
  function Destroy(c: BeansClosure): (r: BeansClosure)
    ensures r.specialized == map[] && r.envs == c.envs
  {
    c.(specialized := map[])
  }

  /** `getSpecializingBean`: the recorded specializer, or null. */
  function GetSpecializingBean(c: BeansClosure, b: Bean): (r: Option<Bean>)
    ensures r.Some? <==> b in c.specialized
    ensures r.Some? ==> r.value == c.specialized[b]
  {
    if b in c.specialized then Some(c.specialized[b]) else None
  }

  predicate IsSpecialized(c: BeansClosure, b: Bean) {
    GetSpecializingBean(c, b).Some?
  }

  /** The bean reached from `b` after `k` specialization steps; the end of the chain
      stays put. */
  function Follow(m: map<Bean, Bean>, b: Bean, k: nat): Bean {
    if k == 0 then b
    else
      var p := Follow(m, b, k - 1);
      if p in m then m[p] else p
  }

  /** The chain from `b` reaches a bean with no specializer: the specialization map has no
      cycle through `b`. */
  ghost predicate ChainEnds(m: map<Bean, Bean>, b: Bean) {
    exists n: nat :: Follow(m, b, n) !in m
  }

  lemma {:induction false} StaysAtEnd(m: map<Bean, Bean>, b: Bean, k: nat, k': nat)
    requires k <= k' && Follow(m, b, k) !in m
    ensures Follow(m, b, k') == Follow(m, b, k)
    decreases k' - k
  {
    if k' > k {
      StaysAtEnd(m, b, k, k' - 1);
    }
  }

  /** Any two ends of the chain are the same bean. */
  lemma EndIsUnique(m: map<Bean, Bean>, b: Bean, j: nat, n: nat)
    requires Follow(m, b, j) !in m && Follow(m, b, n) !in m
    ensures Follow(m, b, j) == Follow(m, b, n)
  {
    if j <= n { StaysAtEnd(m, b, j, n); } else { StaysAtEnd(m, b, n, j); }
  }

  /** `getMostSpecializingBean`, as its loop is written: the pair of variables advances one
      specialization step every second iteration, and the loop stops when the bean it last
      looked up has no specializer. It returns the end of the chain; a null bean gives
      null. On a cyclic map the loop would not terminate, hence the precondition. */
  method GetMostSpecializingBean(c: BeansClosure, bean: Option<Bean>) returns (r: Option<Bean>)
    requires bean.Some? ==> ChainEnds(c.specialized, bean.value)
    ensures bean.None? ==> r.None?
    ensures bean.Some? ==> r.Some? && r.value !in c.specialized
    ensures bean.Some? ==> forall n: nat :: Follow(c.specialized, bean.value, n) !in c.specialized ==>
                                             r == Some(Follow(c.specialized, bean.value, n))
    ensures bean.Some? && !IsSpecialized(c, bean.value) ==> r == bean
  {
    if bean.None? {
      return None;
    }
    var m := c.specialized;
    var b := bean.value;
    ghost var n: nat :| Follow(m, b, n) !in m;
    var most: Option<Bean> := bean;
    var cur := b;
    ghost var j: nat := 0;
    ghost var even := true;
    while most.Some?
      invariant j <= n && cur == Follow(m, b, j)
      invariant even ==> most == Some(cur)
      invariant !even && most.Some? ==> cur in m && most == Some(m[cur]) && j < n
      invariant !even && most.None? ==> cur !in m
      decreases 2 * (n - j) + (if even then 1 else 0)
    {
      var temp := most.value;
      most := if cur in m then Some(m[cur]) else None;
      if even {
        if cur in m {
          assert j != n;
        }
        even := false;
      } else {
        j := j + 1;
        even := true;
      }
      cur := temp;
    }
    forall k: nat | Follow(m, b, k) !in m
      ensures cur == Follow(m, b, k)
    {
      EndIsUnique(m, b, j, k);
    }
    r := Some(cur);
    assert Follow(m, b, 0) == b;
  }

  /** `isEJB`: some environment holds an EJB descriptor for the class. */
  predicate IsEjb(c: BeansClosure, clazz: ClassName) {
    exists e :: e in c.envs && clazz in e.ejbDescriptors
  }

  /** The first non-null answer of `lookup` over the environments, in their (unspecified)
      iteration order. */
  method FirstFound<V>(envs: set<BeanDeployerEnvironment>, lookup: BeanDeployerEnvironment -> Option<V>) returns (r: Option<V>)
    ensures r.Some? ==> exists e :: e in envs && lookup(e) == r
    ensures r.None? <==> forall e :: e in envs ==> lookup(e).None?
  {
    var remaining := envs;
    while remaining != {}
      invariant remaining <= envs
      invariant forall e :: e in envs - remaining ==> lookup(e).None?
      decreases |remaining|
    {
      var e :| e in remaining;
      var found := lookup(e);
      if found.Some? {
        return found;
      }
      remaining := remaining - {e};
    }
    return None;
  }

  function ClassBeanIn(clazz: ClassName): BeanDeployerEnvironment -> Option<Bean> {
    (e: BeanDeployerEnvironment) => if clazz in e.classBeans then Some(e.classBeans[clazz]) else None
  }

  function ProducerMethodIn(superClassMethod: string): BeanDeployerEnvironment -> Option<Bean> {
    (e: BeanDeployerEnvironment) => if superClassMethod in e.producerMethods then Some(e.producerMethods[superClassMethod]) else None
  }

  /** `getClassBean`: the class bean some environment holds for the class, null if none
      does. */
  method GetClassBean(c: BeansClosure, clazz: ClassName) returns (r: Option<Bean>)
    ensures r.None? <==> forall e :: e in c.envs ==> clazz !in e.classBeans
    ensures r.Some? ==> exists e :: e in c.envs && clazz in e.classBeans && e.classBeans[clazz] == r.value
  {
    r := FirstFound(c.envs, ClassBeanIn(clazz));
  }

  /** `getProducerMethod`: likewise for the producer method overriding a superclass method. */
  method GetProducerMethod(c: BeansClosure, superClassMethod: string) returns (r: Option<Bean>)
    ensures r.None? <==> forall e :: e in c.envs ==> superClassMethod !in e.producerMethods
    ensures r.Some? ==> exists e :: e in c.envs && superClassMethod in e.producerMethods && e.producerMethods[superClassMethod] == r.value
  {
    r := FirstFound(c.envs, ProducerMethodIn(superClassMethod));
  }

  // ---- properties ----

  /** A later `addSpecialized` for the same bean overwrites the earlier specializer. */
  lemma LaterSpecializerWins(c: BeansClosure, b: Bean, s1: Bean, s2: Bean)
    ensures GetSpecializingBean(AddSpecialized(AddSpecialized(c, b, s1), b, s2), b) == Some(s2)
    ensures IsSpecialized(AddSpecialized(c, b, s1), b)
  {
  }

  /** After `destroy` nothing is specialized, and `getMostSpecializingBean` is the identity;
      `clear` leaves the specializations alone. */
  lemma DestroyForgetsSpecializations(c: BeansClosure, b: Bean)
    ensures !IsSpecialized(Destroy(c), b)
    ensures IsSpecialized(Clear(c), b) <==> IsSpecialized(c, b)
  {
  }

  /** Adding an environment can only add EJB classes, and adds exactly the new one's. */
  lemma AddEnvironmentExtendsEjbs(c: BeansClosure, e: BeanDeployerEnvironment, clazz: ClassName)
    ensures IsEjb(AddEnvironment(c, e), clazz) <==> IsEjb(c, clazz) || clazz in e.ejbDescriptors
    ensures !IsEjb(Clear(c), clazz)
  {
    if clazz in e.ejbDescriptors {
      assert e in AddEnvironment(c, e).envs;
    }
  }

  /** A chain of two specializations a -> b -> d ends at d. */
  lemma TwoStepChainEndsAtLast(a: Bean, b: Bean, d: Bean)
    requires a != b && b != d && a != d
    ensures var m := map[a := b, b := d];
            ChainEnds(m, a) && Follow(m, a, 2) == d && d !in m
  {
    var m := map[a := b, b := d];
    assert Follow(m, a, 1) == b;
    assert Follow(m, a, 2) == d;
  }
}
