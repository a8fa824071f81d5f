/** A decorator built from an extension-provided injection target: it must have exactly
    one delegate injection point, and it decorates the interface types among its bean
    types, Serializable excepted. */
module SyntheticDecorators {
  import opened Outcomes
  import opened JavaTypes
  import opened Throwables
  import opened QualifierInstances

  datatype InjectionPoint = InjectionPoint(member: string, isDelegate: bool, ipType: JType, qualifiers: set<Annotation>)

  datatype SyntheticDecorator = SyntheticDecorator(delegate: InjectionPoint, decoratedTypes: set<JType>)

  const TOO_MANY_DELEGATES_FOR_DECORATOR: Throwable := DefinitionProblem("TOO_MANY_DELEGATES_FOR_DECORATOR")
  const NO_DELEGATE_FOR_DECORATOR: Throwable := DefinitionProblem("NO_DELEGATE_FOR_DECORATOR")

  function Delegates(injectionPoints: set<InjectionPoint>): set<InjectionPoint> {
    set ip | ip in injectionPoints && ip.isDelegate
  }

  /** `identifyDelegateInjectionPoint`: the injection points are scanned in their
      (unspecified) iteration order; a second delegate is an error, and so is none. */
  method IdentifyDelegateInjectionPoint(injectionPoints: set<InjectionPoint>) returns (r: Result<InjectionPoint, Throwable>)
    ensures r.Ok? <==> |Delegates(injectionPoints)| == 1
    ensures r.Ok? ==> Delegates(injectionPoints) == {r.value}
    ensures |Delegates(injectionPoints)| == 0 ==> r == Err(NO_DELEGATE_FOR_DECORATOR)
    ensures |Delegates(injectionPoints)| >= 2 ==> r == Err(TOO_MANY_DELEGATES_FOR_DECORATOR)
  {
    var delegate: Option<InjectionPoint> := None;
    var remaining := injectionPoints;
    while remaining != {}
      invariant remaining <= injectionPoints
      invariant delegate.None? ==> Delegates(injectionPoints - remaining) == {}
      invariant delegate.Some? ==> Delegates(injectionPoints - remaining) == {delegate.value}
      decreases |remaining|
    {
      var ip :| ip in remaining;
      if ip.isDelegate {
        if delegate.Some? {
          assert {delegate.value, ip} <= Delegates(injectionPoints);
          assert delegate.value != ip;
          assert |{delegate.value, ip}| == 2;
          SubsetCardinality({delegate.value, ip}, Delegates(injectionPoints));
          return Err(TOO_MANY_DELEGATES_FOR_DECORATOR);
        }
        delegate := Some(ip);
      }
      assert Delegates(injectionPoints - (remaining - {ip})) ==
             Delegates(injectionPoints - remaining) + (if ip.isDelegate then {ip} else {});
      remaining := remaining - {ip};
    }
    assert injectionPoints - remaining == injectionPoints;
    if delegate.None? {
      return Err(NO_DELEGATE_FOR_DECORATOR);
    }
    return Ok(delegate.value);
  }

  lemma SubsetCardinality<T>(a: set<T>, b: set<T>)
    requires a <= b
    ensures |a| <= |b|
  {
    assert b == a + (b - a);
  }

  /** A bean type is decorated iff its raw type is an interface other than Serializable.
      `isInterface` stands for `Class.isInterface` on the raw type. */
  predicate IsDecoratedType(t: JType, isInterface: JType -> bool) {
    isInterface(RawType(t)) && RawType(t) != Class(SERIALIZABLE)
  }

  /** `getDecoratedTypes`: the loop over the bean types keeping the decorated ones. */
  method GetDecoratedTypes(types: set<JType>, isInterface: JType -> bool) returns (decorated: set<JType>)
    ensures forall t :: t in decorated <==> t in types && IsDecoratedType(t, isInterface)
  {
    decorated := {};
    var remaining := types;
    while remaining != {}
      invariant remaining <= types
      invariant forall t :: t in decorated <==> t in types - remaining && IsDecoratedType(t, isInterface)
      decreases |remaining|
    {
      var t :| t in remaining;
      if isInterface(RawType(t)) && RawType(t) != Class(SERIALIZABLE) {
        decorated := decorated + {t};
      }
      remaining := remaining - {t};
    }
  }

  /** `getDelegateType` and `getDelegateQualifiers`: those of the delegate injection point. */
  function GetDelegateType(d: SyntheticDecorator): JType {
    d.delegate.ipType
  }

  function GetDelegateQualifiers(d: SyntheticDecorator): set<Annotation> {
    d.delegate.qualifiers
  }

  /** The constructor: the delegate injection point is identified first, then the
      decorated types are computed from the bean types. */
  method Create(types: set<JType>, injectionPoints: set<InjectionPoint>, isInterface: JType -> bool) returns (r: Result<SyntheticDecorator, Throwable>)
    ensures r.Ok? <==> |Delegates(injectionPoints)| == 1
    ensures r.Ok? ==> Delegates(injectionPoints) == {r.value.delegate}
    ensures r.Ok? ==> forall t :: t in r.value.decoratedTypes <==> t in types && IsDecoratedType(t, isInterface)
    ensures r.Ok? ==> forall ip :: ip in injectionPoints && ip.isDelegate ==>
                        GetDelegateType(r.value) == ip.ipType && GetDelegateQualifiers(r.value) == ip.qualifiers
  {
    var delegate := IdentifyDelegateInjectionPoint(injectionPoints);
    if delegate.Err? {
      return Err(delegate.error);
    }
    var decorated := GetDecoratedTypes(types, isInterface);
    forall ip | ip in injectionPoints && ip.isDelegate
      ensures ip == delegate.value
    {
      assert ip in Delegates(injectionPoints);
    }
    return Ok(SyntheticDecorator(delegate.value, decorated));
  }

  // ---- properties ----

  /** Serializable is never decorated, even though it is an interface. */
  lemma SerializableNeverDecorated(isInterface: JType -> bool)
    ensures !IsDecoratedType(Class(SERIALIZABLE), isInterface)
  {
  }

  /** A parameterized interface type is decorated exactly when its raw class is an
      interface other than Serializable, whatever its arguments. */
  lemma DecorationIgnoresArguments(raw: ClassName, args1: seq<JType>, args2: seq<JType>, isInterface: JType -> bool)
    ensures IsDecoratedType(Parameterized(raw, args1), isInterface) <==> IsDecoratedType(Parameterized(raw, args2), isInterface)
    ensures IsDecoratedType(Parameterized(raw, args1), isInterface) <==> isInterface(Class(raw)) && raw != SERIALIZABLE
  {
  }
}
