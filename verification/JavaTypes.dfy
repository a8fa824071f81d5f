/** The structural shape of `java.lang.reflect.Type` values as Weld sees them:
    classes, parameterized types, arrays, type variables and wildcards. */
module JavaTypes {

  type ClassName = string

  const OBJECT: ClassName := "java.lang.Object"
  const SERIALIZABLE: ClassName := "java.io.Serializable"

  datatype JType =
    | Class(name: ClassName)                          // a raw class, or a class with no type parameters
    | Parameterized(raw: ClassName, args: seq<JType>) // ParameterizedType
    | Array(component: JType)                         // array class or GenericArrayType
    | TypeVar(varName: string, bounds: seq<JType>)    // TypeVariable; null bounds are represented as []
    | Wildcard(upper: seq<JType>, lower: seq<JType>)  // WildcardType

  const ObjectType: JType := Class(OBJECT)

  predicate IsObject(t: JType) {
    t == ObjectType
  }

  /** The types Weld wraps in an ActualTypeHolder: classes, parameterized types and arrays. */
  predicate IsHolder(t: JType) {
    t.Class? || t.Parameterized? || t.Array?
  }

  /** `getActualTypeArguments()` of an ActualTypeHolder; a raw class has none. */
  function ActualTypeArguments(t: JType): seq<JType> {
    if t.Parameterized? then t.args else []
  }

  /** `Types.containsUnresolvedTypeVariableOrWildcard` on a canonical type. */
  predicate ContainsTypeVariableOrWildcard(t: JType) {
    match t
    case Class(_) => false
    case Parameterized(_, args) => exists i :: 0 <= i < |args| && ContainsTypeVariableOrWildcard(args[i])
    case Array(c) => ContainsTypeVariableOrWildcard(c)
    case TypeVar(_, _) => true
    case Wildcard(_, _) => true
  }

  /** `Types.containsTypeVariable`: wildcards are allowed, type variables are not. The
      bounds of a wildcard are searched as well. */
  predicate ContainsTypeVariable(t: JType) {
    match t
    case Class(_) => false
    case Parameterized(_, args) => exists i :: 0 <= i < |args| && ContainsTypeVariable(args[i])
    case Array(c) => ContainsTypeVariable(c)
    case TypeVar(_, _) => true
    case Wildcard(up, low) =>
      (exists i :: 0 <= i < |up| && ContainsTypeVariable(up[i]))
      || (exists i :: 0 <= i < |low| && ContainsTypeVariable(low[i]))
  }

  /** `Reflections.getRawType`: the erasure of a class, parameterized type or array. For a
      type variable or wildcard, for which Weld has no raw class, Object is used. */
  function RawType(t: JType): (r: JType)
    ensures r.Class? || r.Array?
  {
    match t
    case Class(_) => t
    case Parameterized(raw, _) => Class(raw)
    case Array(c) => Array(RawType(c))
    case TypeVar(_, _) => ObjectType
    case Wildcard(_, _) => ObjectType
  }

  /** A type without type variables or wildcards is never a type variable or wildcard itself. */
  lemma ResolvedTypeIsHolder(t: JType)
    requires !ContainsTypeVariableOrWildcard(t)
    ensures IsHolder(t)
  {
  }

  /** Every type containing a type variable also contains a type variable or wildcard:
      the subtype check is weaker than the event-type check. */
  lemma {:induction false} TypeVariableImpliesUnresolved(t: JType)
    requires ContainsTypeVariable(t)
    ensures ContainsTypeVariableOrWildcard(t)
  {
    match t
    case Class(_) =>
    case Parameterized(_, args) =>
      var i :| 0 <= i < |args| && ContainsTypeVariable(args[i]);
      TypeVariableImpliesUnresolved(args[i]);
    case Array(c) =>
      TypeVariableImpliesUnresolved(c);
    case TypeVar(_, _) =>
    case Wildcard(_, _) =>
  }
}
