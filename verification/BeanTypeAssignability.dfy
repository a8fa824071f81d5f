/** Assignability of a bean type to a required type (section 5.2.4 of the CDI
    specification, "Assignability of raw and parameterized types"), as overridden by
    Weld's bean-resolution rules on top of the looser event-resolution rules.

    The superclass's relations are not part of this model and appear as parameters:
    `sub` is "is assignable to" over a finite class hierarchy, `positional` is the
    inherited argument-by-argument rule, and `holders` is the inherited
    holder-against-holder assignability. */
module BeanTypeAssignability {
  import opened JavaTypes

  /** `sub(t, u)`: a value of type t is assignable to type u. */
  type Subtyping = (JType, JType) -> bool

  /** The inherited `isTypeInsideBounds`: every lower bound is assignable to `t` and `t` is
      assignable to every upper bound. An empty bound array constrains nothing. */
  predicate IsTypeInsideBounds(sub: Subtyping, t: JType, lower: seq<JType>, upper: seq<JType>) {
    && (forall i :: 0 <= i < |lower| ==> sub(lower[i], t))
    && (forall j :: 0 <= j < |upper| ==> sub(t, upper[j]))
  }

  /** The inherited `areTypesInsideBounds`: each of `types` lies inside the bounds. */
  predicate AreTypesInsideBounds(sub: Subtyping, types: seq<JType>, lower: seq<JType>, upper: seq<JType>) {
    forall k :: 0 <= k < |types| ==> IsTypeInsideBounds(sub, types[k], lower, upper)
  }

  /** A type variable with no bounds, or whose only bound is Object. */
  predicate IsUnboundedTypeVariable(t: JType) {
    t.TypeVar? && (|t.bounds| == 0 || (|t.bounds| == 1 && IsObject(t.bounds[0])))
  }

  predicate IsUnboundedOrObject(t: JType) {
    IsObject(t) || IsUnboundedTypeVariable(t)
  }

  /** `isArrayOfUnboundedTypeVariablesOrObjects`: the loop skips Object and unbounded type
      variables and gives up on the first other type. */
  function AllUnboundedOrObject(types: seq<JType>): (r: bool)
    ensures r <==> forall i :: 0 <= i < |types| ==> IsUnboundedOrObject(types[i])
  {
    if |types| == 0 then true
    else if IsObject(types[0]) then AllUnboundedOrObject(types[1..])
    else if types[0].TypeVar? && (|types[0].bounds| == 0 || (|types[0].bounds| == 1 && IsObject(types[0].bounds[0])))
    then AllUnboundedOrObject(types[1..])
    else false
  }

  /** `areActualTypeArgumentsMatching`: a raw type on either side matches a parameterized
      type on the other only if all of the parameterized side's arguments are Object or
      unbounded type variables; when both sides have arguments the inherited positional
      rule decides. */
  function AreActualTypeArgumentsMatching(
    positional: (JType, seq<JType>) -> bool, required: JType, otherArgs: seq<JType>): (r: bool)
    requires IsHolder(required)
    ensures |ActualTypeArguments(required)| == 0 ==>
              (r <==> forall i :: 0 <= i < |otherArgs| ==> IsUnboundedOrObject(otherArgs[i]))
    ensures |ActualTypeArguments(required)| > 0 && |otherArgs| == 0 ==>
              (r <==> forall i :: 0 <= i < |required.args| ==> IsUnboundedOrObject(required.args[i]))
    ensures |ActualTypeArguments(required)| > 0 && |otherArgs| > 0 ==> r == positional(required, otherArgs)
  {
    var requiredArgs := ActualTypeArguments(required);
    if |requiredArgs| == 0 then AllUnboundedOrObject(otherArgs)
    else if |otherArgs| == 0 then AllUnboundedOrObject(requiredArgs)
    else positional(required, otherArgs)
  }

  /** `matches(WildcardType, Type)`: against a bean type variable, either the variable's
      bounds lie inside the wildcard's bounds or the wildcard's upper bounds lie inside the
      variable's bounds; against any other bean type, that type lies inside the wildcard's
      bounds. */
  function MatchesWildcard(sub: Subtyping, required: JType, beanType: JType): (r: bool)
    requires required.Wildcard?
    ensures beanType.TypeVar? ==>
              (r <==>
                (|| ((forall k, i :: 0 <= k < |beanType.bounds| && 0 <= i < |required.lower| ==> sub(required.lower[i], beanType.bounds[k]))
                     && (forall k, j :: 0 <= k < |beanType.bounds| && 0 <= j < |required.upper| ==> sub(beanType.bounds[k], required.upper[j])))
                 || (forall j, k :: 0 <= j < |required.upper| && 0 <= k < |beanType.bounds| ==> sub(required.upper[j], beanType.bounds[k]))))
    ensures !beanType.TypeVar? ==>
              (r <==>
                 (forall i :: 0 <= i < |required.lower| ==> sub(required.lower[i], beanType))
                 && (forall j :: 0 <= j < |required.upper| ==> sub(beanType, required.upper[j])))
  {
    if beanType.TypeVar? then
      if AreTypesInsideBounds(sub, beanType.bounds, required.lower, required.upper) then true
      else if AreTypesInsideBounds(sub, required.upper, [], beanType.bounds) then true
      else false
    else
      IsTypeInsideBounds(sub, beanType, required.lower, required.upper)
  }

  /** `matches(TypeVariable, Type)`: a required type variable matches only a bean type
      variable, and then only when every required bound is assignable to every bean bound. */
  function MatchesTypeVariable(sub: Subtyping, required: JType, beanType: JType): (r: bool)
    requires required.TypeVar?
    ensures !beanType.TypeVar? ==> !r
    ensures beanType.TypeVar? ==>
              (r <==> forall i, j :: 0 <= i < |required.bounds| && 0 <= j < |beanType.bounds| ==> sub(required.bounds[i], beanType.bounds[j]))
  {
    if beanType.TypeVar? then AreTypesInsideBounds(sub, required.bounds, [], beanType.bounds)
    else false
  }

  /** `isAssignableFrom(ActualTypeHolder, Type)`: another holder is decided by the inherited
      rule; a type variable matches when the required type is assignable to all of its
      bounds; a wildcard never matches. */
  function IsAssignableFrom(sub: Subtyping, holders: (JType, JType) -> bool, required: JType, other: JType): (r: bool)
    requires IsHolder(required)
    ensures IsHolder(other) ==> r == holders(required, other)
    ensures other.TypeVar? ==> (r <==> forall j :: 0 <= j < |other.bounds| ==> sub(required, other.bounds[j]))
    ensures other.Wildcard? ==> !r
  {
    if IsHolder(other) then holders(required, other)
    else if other.TypeVar? && IsTypeInsideBounds(sub, required, [], other.bounds) then true
    else false
  }

  /** `arraysMatch`: element types must be identical. */
  function ArraysMatch(a1: JType, a2: JType): (r: bool)
    requires a1.Array? && a2.Array?
    ensures r <==> a1.component == a2.component
  {
    a1.component == a2.component
  }

  // ---- properties relating the rules ----

  /** The empty argument array is "all unbounded or Object"; so a raw required type
      matches a raw bean type of the same class. */
  lemma RawMatchesRaw(positional: (JType, seq<JType>) -> bool, name: ClassName)
    ensures AreActualTypeArgumentsMatching(positional, Class(name), [])
  {
  }

  /** Symmetry of the raw-versus-parameterized rule: swapping which side is raw gives the
      same answer whenever exactly one side has type arguments. */
  lemma RawRuleSymmetric(positional: (JType, seq<JType>) -> bool, raw: ClassName, args: seq<JType>)
    requires |args| > 0
    ensures AreActualTypeArgumentsMatching(positional, Class(raw), args)
         == AreActualTypeArgumentsMatching(positional, Parameterized(raw, args), [])
  {
  }

  /** A raw required type does not match a parameterized bean type that has a type
      argument which is a concrete class other than Object, whatever the positional rule. */
  lemma RawRejectsConcreteArgument(positional: (JType, seq<JType>) -> bool, raw: ClassName, args: seq<JType>, k: nat)
    requires k < |args| && args[k].Class? && args[k] != ObjectType
    ensures !AreActualTypeArgumentsMatching(positional, Class(raw), args)
  {
  }

  /** A type variable bounded by something other than Object blocks the raw rule. */
  lemma BoundedVariableBlocksRawRule(positional: (JType, seq<JType>) -> bool, raw: ClassName, bound: JType)
    requires bound != ObjectType
    ensures !AreActualTypeArgumentsMatching(positional, Class(raw), [TypeVar("T", [bound])])
    ensures AreActualTypeArgumentsMatching(positional, Class(raw), [TypeVar("T", [ObjectType]), ObjectType, TypeVar("U", [])])
  {
    assert IsUnboundedOrObject(TypeVar("T", [ObjectType]));
  }

  /** The unbounded wildcard `?` (upper bound Object, no lower bound) matches every
      non-variable bean type argument, provided everything is assignable to Object. */
  lemma UnboundedWildcardMatchesConcrete(sub: Subtyping, beanType: JType)
    requires forall t :: sub(t, ObjectType)
    requires !beanType.TypeVar?
    ensures MatchesWildcard(sub, Wildcard([ObjectType], []), beanType)
  {
  }

  /** A bean type variable matches a wildcard with the same single upper bound when
      assignability is reflexive. */
  lemma WildcardMatchesSameBoundVariable(sub: Subtyping, bound: JType)
    requires forall t :: sub(t, t)
    ensures MatchesWildcard(sub, Wildcard([bound], []), TypeVar("T", [bound]))
  {
  }

  /** Structurally identical single-bounded type variables match under a reflexive relation. */
  lemma TypeVariableMatchesItself(sub: Subtyping, name: string, bound: JType)
    requires forall t :: sub(t, t)
    ensures MatchesTypeVariable(sub, TypeVar(name, [bound]), TypeVar(name, [bound]))
  {
  }

  /** Arrays are not covariant: distinct element types never match, even when one element
      type is assignable to the other. */
  lemma ArraysNotCovariant(sub: Subtyping, c1: JType, c2: JType)
    requires c1 != c2 && sub(c1, c2)
    ensures !ArraysMatch(Array(c1), Array(c2))
    ensures ArraysMatch(Array(c1), Array(c1))
  {
  }
}
