/** Weld's value representation of a qualifier (section 5.2.6 of the CDI specification,
    "Qualifier annotations with members"): the annotation class plus the values of its
    binding members, with equality and a hash fixed at construction. */
module QualifierInstances {
  import opened Outcomes
  import opened JavaTypes
  import opened JavaInts
  import opened Throwables
  import opened BindingModels

  const ANY: ClassName := "javax.enterprise.inject.Any"
  const DEFAULT: ClassName := "javax.enterprise.inject.Default"
  const NAMED: ClassName := "javax.inject.Named"

  /** An annotation member value, compared with `equals`. */
  datatype Value = Text(text: string) | Number(n: int) | Other(repr: string)

  /** An annotation instance: its type and the value each member accessor returns. A member
      missing from `values` stands for an accessor that throws when invoked. */
  datatype Annotation = Annotation(annotationType: ClassName, values: map<string, Value>)

  /** The hash codes of the two fields, which come from `Class.hashCode` and
      `Map.hashCode` and are not part of this model. */
  datatype Hashing = Hashing(ofClass: ClassName -> int, ofValues: map<string, Value> -> int)

  datatype QualifierInstance = QualifierInstance(
    annotationClass: ClassName,
    values: map<string, Value>,
    hashCode: int)

  /** Guava's `Objects.hashCode(a, b)`: `31 * (31 * 1 + hash(a)) + hash(b)` in `int`. */
  function PairHash(h: Hashing, annotationClass: ClassName, values: map<string, Value>): (r: int)
    ensures IsInt32(r)
  {
    var first := Wrap32(31 * 1 + h.ofClass(annotationClass));
    Wrap32(31 * first + h.ofValues(values))
  }

  /** The hash stored in `q` is the one computed from its class and values. */
  predicate WellHashed(h: Hashing, q: QualifierInstance) {
    q.hashCode == PairHash(h, q.annotationClass, q.values)
  }

  /** The private constructor, which computes the hash once. */
  function Make(h: Hashing, annotationClass: ClassName, values: map<string, Value>): (q: QualifierInstance)
    ensures q.annotationClass == annotationClass && q.values == values
    ensures WellHashed(h, q)
  {
    QualifierInstance(annotationClass, values, PairHash(h, annotationClass, values))
  }

  /** The shared ANY and DEFAULT instances, built with an empty value map. */
  function AnyInstance(h: Hashing): (q: QualifierInstance)
    ensures q.annotationClass == ANY && q.values == map[] && WellHashed(h, q)
  {
    Make(h, ANY, map[])
  }

  function DefaultInstance(h: Hashing): (q: QualifierInstance)
    ensures q.annotationClass == DEFAULT && q.values == map[] && WellHashed(h, q)
  {
    Make(h, DEFAULT, map[])
  }

  /** `createValues`: the values of the binding members, keyed by member name; empty when the
      annotation type has no members. A failing accessor is rethrown as a WeldException. */
  function CreateValues(a: Annotation, model: BindingModel): (r: Result<map<string, Value>, Throwable>)
    ensures model.annotatedAnnotation.members == {} ==> r == Ok(map[])
    ensures r.Ok? <==> forall m :: m in BindingMembers(model) ==> m.name in a.values
    ensures r.Err? ==> r.error.WeldException?
    ensures r.Ok? ==> r.value.Keys == set m | m in BindingMembers(model) :: m.name
    ensures r.Ok? ==> forall k :: k in r.value ==> k in a.values && r.value[k] == a.values[k]
  {
    if model.annotatedAnnotation.members == {} then Ok(map[])
    else if forall m :: m in BindingMembers(model) ==> m.name in a.values then
      var names := set m | m in BindingMembers(model) :: m.name;
      Ok(map k | k in names :: a.values[k])
    else Err(WeldException("InvocationTargetException"))
  }

  /** `of(Annotation, store)`: `@Any` and `@Default` give the shared instances, `@Named`
      keeps only its `value`, and every other qualifier keeps its binding members. */
  function Of(a: Annotation, store: ClassName -> BindingModel, h: Hashing): (r: Result<QualifierInstance, Throwable>)
    ensures a.annotationType == ANY ==> r == Ok(AnyInstance(h))
    ensures a.annotationType == DEFAULT ==> r == Ok(DefaultInstance(h))
    ensures a.annotationType == NAMED ==>
              (r.Ok? <==> "value" in a.values)
              && (r.Ok? ==> r.value.values == map["value" := a.values["value"]])
    ensures r.Ok? ==> r.value.annotationClass == a.annotationType && WellHashed(h, r.value)
    ensures a.annotationType !in {ANY, DEFAULT, NAMED} ==>
              (r.Ok? <==> CreateValues(a, store(a.annotationType)).Ok?)
              && (r.Ok? ==> r.value.values == CreateValues(a, store(a.annotationType)).value)
  {
    if a.annotationType == ANY then Ok(AnyInstance(h))
    else if a.annotationType == DEFAULT then Ok(DefaultInstance(h))
    else if a.annotationType == NAMED then
      if "value" in a.values then Ok(Make(h, NAMED, map["value" := a.values["value"]]))
      // `Named.value()` always exists in Java, so a real `@Named` never takes this branch;
      // it is here only because an `Annotation` value map can lack the key.
      else Err(RuntimeFailure("value"))
    else
      var values :- CreateValues(a, store(a.annotationType));
      Ok(Make(h, a.annotationType, values))
  }

  /** `equals`: same annotation class and equal value maps; never equal to null. */
  function Equals(q: QualifierInstance, o: Option<QualifierInstance>): (r: bool)
    ensures o.None? ==> !r
    ensures o.Some? ==> (r <==> q.annotationClass == o.value.annotationClass && q.values == o.value.values)
  {
    match o
    case None => false
    case Some(that) => q.annotationClass == that.annotationClass && q.values == that.values
  }

  /** `of(Set, store)`: the empty set for empty input; otherwise one instance per
      annotation, collected into a set (so equal instances coincide). The first failing
      conversion propagates. */
  method OfSet(qualifiers: set<Annotation>, store: ClassName -> BindingModel, h: Hashing)
    returns (r: Result<set<QualifierInstance>, Throwable>)
    ensures qualifiers == {} ==> r == Ok({})
    ensures r.Ok? <==> forall a :: a in qualifiers ==> Of(a, store, h).Ok?
    ensures r.Ok? ==> r.value == set a | a in qualifiers :: Of(a, store, h).value
    ensures r.Err? ==> exists a :: a in qualifiers && Of(a, store, h) == Err(r.error)
  {
    if qualifiers == {} {
      return Ok({});
    }
    var ret: set<QualifierInstance> := {};
    var rest := qualifiers;
    while rest != {}
      invariant rest <= qualifiers
      invariant forall a :: a in qualifiers - rest ==> Of(a, store, h).Ok?
      invariant ret == set a | a in qualifiers - rest :: Of(a, store, h).value
      decreases |rest|
    {
      var a :| a in rest;
      var q := Of(a, store, h);
      if q.Err? {
        return Err(q.error);
      }
      ret := ret + {q.value};
      rest := rest - {a};
    }
    return Ok(ret);
  }

  // ---- properties ----

  /** Equality is an equivalence relation on instances. */
  lemma EqualsIsEquivalence(q1: QualifierInstance, q2: QualifierInstance, q3: QualifierInstance)
    ensures Equals(q1, Some(q1))
    ensures Equals(q1, Some(q2)) ==> Equals(q2, Some(q1))
    ensures Equals(q1, Some(q2)) && Equals(q2, Some(q3)) ==> Equals(q1, Some(q3))
  {
  }

  /** Equal instances built by the constructor have equal hash codes. */
  lemma EqualInstancesHashEqually(h: Hashing, q1: QualifierInstance, q2: QualifierInstance)
    requires WellHashed(h, q1) && WellHashed(h, q2)
    requires Equals(q1, Some(q2))
    ensures q1.hashCode == q2.hashCode
    ensures q1 == q2
  {
  }

  /** For a binding model initialised by `init` (its non-binding set is the members marked
      `@Nonbinding`), the value map keeps a member exactly when it is not marked
      `@Nonbinding`, with the annotation's own value. Member names are distinct, as the
      members of a Java annotation type are methods without parameters. */
  lemma CreateValuesSkipsExactlyNonbinding(a: Annotation, model: BindingModel)
    requires model.nonBindingMembers == MembersAnnotatedWith(model.annotatedAnnotation, NONBINDING)
    requires forall m1, m2 :: m1 in model.annotatedAnnotation.members && m2 in model.annotatedAnnotation.members ==>
               (m1.name == m2.name ==> m1 == m2)
    requires CreateValues(a, model).Ok?
    ensures forall m :: m in model.annotatedAnnotation.members ==>
              (m.name in CreateValues(a, model).value <==> NONBINDING !in m.annotations)
    ensures forall m :: m in model.annotatedAnnotation.members && NONBINDING !in m.annotations ==>
              CreateValues(a, model).value[m.name] == a.values[m.name]
  {
    var values := CreateValues(a, model).value;
    forall m | m in model.annotatedAnnotation.members
      ensures m.name in values <==> NONBINDING !in m.annotations
    {
      if m.name in values {
        var b :| b in BindingMembers(model) && b.name == m.name;
        assert b == m;
      } else {
        assert m !in BindingMembers(model);
      }
    }
  }

  /** Two annotations of the same type whose binding members agree produce equal
      instances, however their `@Nonbinding` members differ. */
  lemma NonbindingMembersIgnored(a1: Annotation, a2: Annotation, store: ClassName -> BindingModel, h: Hashing)
    requires a1.annotationType == a2.annotationType
    requires a1.annotationType !in {ANY, DEFAULT, NAMED}
    requires forall m :: m in BindingMembers(store(a1.annotationType)) ==>
               (m.name in a1.values <==> m.name in a2.values)
               && (m.name in a1.values ==> a1.values[m.name] == a2.values[m.name])
    ensures Of(a1, store, h).Ok? <==> Of(a2, store, h).Ok?
    ensures Of(a1, store, h).Ok? ==> Of(a1, store, h) == Of(a2, store, h)
  {
    var model := store(a1.annotationType);
    var c1 := CreateValues(a1, model);
    var c2 := CreateValues(a2, model);
    if c1.Ok? {
      assert c1.value.Keys == c2.value.Keys;
      assert forall k :: k in c1.value ==> c1.value[k] == c2.value[k] by {
        forall k | k in c1.value
          ensures c1.value[k] == c2.value[k]
        {
          var m :| m in BindingMembers(model) && m.name == k;
        }
      }
      assert c1.value == c2.value;
    }
  }

  /** Any `@Default` annotation, whatever its values, yields the shared DEFAULT instance,
      which is not equal to ANY. */
  lemma DefaultIsShared(a: Annotation, store: ClassName -> BindingModel, h: Hashing)
    requires a.annotationType == DEFAULT
    ensures Of(a, store, h) == Ok(DefaultInstance(h))
    ensures !Equals(DefaultInstance(h), Some(AnyInstance(h)))
  {
  }

  /** Two `@Named` annotations give equal instances exactly when their names are equal. */
  lemma NamedEqualIffSameName(a1: Annotation, a2: Annotation, store: ClassName -> BindingModel, h: Hashing)
    requires a1.annotationType == NAMED && a2.annotationType == NAMED
    requires "value" in a1.values && "value" in a2.values
    ensures Equals(Of(a1, store, h).value, Some(Of(a2, store, h).value)) <==> a1.values["value"] == a2.values["value"]
  {
    var v1 := map["value" := a1.values["value"]];
    var v2 := map["value" := a2.values["value"]];
    if v1 == v2 {
      assert v1["value"] == v2["value"];
    }
  }
}
