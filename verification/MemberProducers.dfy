/** The common part of producer fields and producer methods: the definition checks made
    when the producer is built, the choice of receiver, and the creational-context
    discipline of `produce` and `dispose`. */
module MemberProducers {
  import opened Outcomes
  import opened JavaTypes
  import opened Throwables

  type Bean = string
  type Instance = string

  const DEPENDENT: ClassName := "javax.enterprise.context.Dependent"

  const DECLARING_BEAN_MISSING: Throwable := IllegalArgument("DECLARING_BEAN_MISSING")
  const RETURN_TYPE_MUST_BE_CONCRETE: Throwable := DefinitionProblem("RETURN_TYPE_MUST_BE_CONCRETE")
  const TYPE_VARIABLE_RETURN_TYPE_MUST_BE_DEPENDENT: Throwable :=
    DefinitionProblem("PRODUCER_METHOD_WITH_TYPE_VARIABLE_RETURN_TYPE_MUST_BE_DEPENDENT")
  const WILDCARD_RETURN_TYPE: Throwable := DefinitionProblem("PRODUCER_METHOD_CANNOT_HAVE_A_WILDCARD_RETURN_TYPE")

  /** The producer member and its surroundings: whether it is static, its base (return or
      field) type, the bean declaring it, the scope of the bean it defines (if any), and
      whether a disposer method exists. */
  datatype ProducerMember = ProducerMember(
    isStatic: bool,
    baseType: JType,
    declaringBean: Option<Bean>,
    beanScope: Option<ClassName>,
    hasDisposalMethod: bool)

  /** `checkDeclaringBean`: a non-static member needs a declaring bean. */
  function CheckDeclaringBean(p: ProducerMember): (r: Option<Throwable>)
    ensures r.None? <==> p.declaringBean.Some? || p.isStatic
    ensures r.Some? ==> r == Some(DECLARING_BEAN_MISSING)
  {
    if p.declaringBean.None? && !p.isStatic then Some(DECLARING_BEAN_MISSING) else None
  }

  /** The loop over the actual type arguments: the first argument that is a type variable
      of a bean that is not Dependent, or a wildcard, decides the error. */
  function CheckTypeArguments(args: seq<JType>, dependent: bool): (r: Option<Throwable>)
    ensures r.None? <==> forall i :: 0 <= i < |args| ==> !args[i].Wildcard? && (dependent || !args[i].TypeVar?)
    ensures r.Some? ==> exists i :: 0 <= i < |args| && (forall k :: 0 <= k < i ==> !args[k].Wildcard? && (dependent || !args[k].TypeVar?))
                          && (if !dependent && args[i].TypeVar? then r == Some(TYPE_VARIABLE_RETURN_TYPE_MUST_BE_DEPENDENT)
                              else args[i].Wildcard? && r == Some(WILDCARD_RETURN_TYPE))
  {
    if |args| == 0 then None
    else if !dependent && args[0].TypeVar? then Some(TYPE_VARIABLE_RETURN_TYPE_MUST_BE_DEPENDENT)
    else if args[0].Wildcard? then Some(WILDCARD_RETURN_TYPE)
    else
      var rest := CheckTypeArguments(args[1..], dependent);
      if rest.Some? then
        var i :| 0 <= i < |args[1..]| && (forall k :: 0 <= k < i ==> !args[1..][k].Wildcard? && (dependent || !args[1..][k].TypeVar?))
                 && (if !dependent && args[1..][i].TypeVar? then rest == Some(TYPE_VARIABLE_RETURN_TYPE_MUST_BE_DEPENDENT)
                     else args[1..][i].Wildcard? && rest == Some(WILDCARD_RETURN_TYPE));
        assert forall k :: 0 <= k < i + 1 ==> !args[k].Wildcard? && (dependent || !args[k].TypeVar?) by {
          forall k | 0 <= k < i + 1
            ensures !args[k].Wildcard? && (dependent || !args[k].TypeVar?)
          {
            if k > 0 { assert args[k] == args[1..][k - 1]; }
          }
        }
        assert args[i + 1] == args[1..][i];
        rest
      else
        assert forall i :: 1 <= i < |args| ==> args[i] == args[1..][i - 1];
        rest
  }

  /** The bean defined by the producer is Dependent. */
  predicate IsDependent(p: ProducerMember) {
    p.beanScope == Some(DEPENDENT)
  }

  /** `checkProducerReturnType`: a type variable or wildcard as the type itself is never
      allowed; in a parameterized type, type-variable arguments need a Dependent bean and
      wildcard arguments are never allowed. Only the top-level arguments are looked at. */
  function CheckProducerReturnType(p: ProducerMember): (r: Option<Throwable>)
    ensures p.baseType.TypeVar? || p.baseType.Wildcard? ==> r == Some(RETURN_TYPE_MUST_BE_CONCRETE)
    ensures p.baseType.Class? || p.baseType.Array? ==> r.None?
    ensures p.baseType.Parameterized? ==> r == CheckTypeArguments(p.baseType.args, IsDependent(p))
  {
    if p.baseType.TypeVar? || p.baseType.Wildcard? then Some(RETURN_TYPE_MUST_BE_CONCRETE)
    else if p.baseType.Parameterized? then CheckTypeArguments(p.baseType.args, IsDependent(p))
    else None
  }

  /** The constructor: the declaring-bean check first, then the return-type check. */
  function Create(p: ProducerMember): (r: Result<ProducerMember, Throwable>)
    ensures r.Ok? <==> CheckDeclaringBean(p).None? && CheckProducerReturnType(p).None?
    ensures r.Ok? ==> r.value == p
    ensures CheckDeclaringBean(p).Some? ==> r == Err(DECLARING_BEAN_MISSING)
  {
    var declaring := CheckDeclaringBean(p);
    if declaring.Some? then Err(declaring.value)
    else
      var returnType := CheckProducerReturnType(p);
      if returnType.Some? then Err(returnType.value) else Ok(p)
  }

  /** A creational context: whether it is Weld's own implementation, and the incomplete
      instances it holds per bean. */
  datatype CreationalContext = CreationalContext(isWeldContext: bool, incompleteInstances: map<Bean, Instance>)

  /** `BeanManager.getReference` for the declaring bean, which is not part of this model. */
  type GetReference = Option<Bean> -> Result<Instance, Throwable>

  /** `getReceiver`: no receiver for a static member; otherwise an incomplete instance of the
      declaring bean in Weld's creational context (a circular call), else a new reference. */
  function GetReceiver(p: ProducerMember, productContext: CreationalContext, getReference: GetReference): (r: Result<Option<Instance>, Throwable>)
    ensures p.isStatic ==> r == Ok(None)
    ensures !p.isStatic && p.declaringBean.Some? && productContext.isWeldContext
            && p.declaringBean.value in productContext.incompleteInstances ==>
              r == Ok(Some(productContext.incompleteInstances[p.declaringBean.value]))
    ensures !p.isStatic && !(p.declaringBean.Some? && productContext.isWeldContext
                             && p.declaringBean.value in productContext.incompleteInstances) ==>
              (r.Ok? <==> getReference(p.declaringBean).Ok?)
              && (r.Ok? ==> r.value == Some(getReference(p.declaringBean).value))
  {
    if p.isStatic then Ok(None)
    else if p.declaringBean.Some? && productContext.isWeldContext && p.declaringBean.value in productContext.incompleteInstances then
      Ok(Some(productContext.incompleteInstances[p.declaringBean.value]))
    else
      var reference :- getReference(p.declaringBean);
      Ok(Some(reference))
  }

  /** The observable steps of `produce` and `dispose`. */
  datatype ProducerStep =
    | CreateContext
    | InvokeProducer(producerReceiver: Option<Instance>)
    | InvokeDisposer(disposerReceiver: Option<Instance>, disposed: Instance)
    | ReleaseContext

  datatype ProducerRun = ProducerRun(steps: seq<ProducerStep>, result: Result<Option<Instance>, Throwable>)

  /** The member itself (`produce(receiver, ctx)` or `invokeDisposeMethod`), which is not
      part of this model. */
  type Invoke = Option<Instance> -> Result<Option<Instance>, Throwable>

  /** `dispose(instance)`: nothing without a disposer method; otherwise a fresh context is
      created, the receiver looked up and the disposer invoked, and the context is released
      whatever happens. */
  function Dispose(p: ProducerMember, instance: Instance, disposalContext: CreationalContext, getReference: GetReference, dispose: Invoke): (r: ProducerRun)
    ensures !p.hasDisposalMethod ==> r == ProducerRun([], Ok(None))
    ensures p.hasDisposalMethod ==>
              |r.steps| >= 2 && r.steps[0] == CreateContext && r.steps[|r.steps| - 1] == ReleaseContext
    ensures p.hasDisposalMethod && GetReceiver(p, disposalContext, getReference).Err? ==>
              r == ProducerRun([CreateContext, ReleaseContext], Err(GetReceiver(p, disposalContext, getReference).error))
    ensures p.hasDisposalMethod && GetReceiver(p, disposalContext, getReference).Ok? ==>
              var receiver := GetReceiver(p, disposalContext, getReference).value;
              r == ProducerRun([CreateContext, InvokeDisposer(receiver, instance), ReleaseContext], dispose(receiver))
  {
    if !p.hasDisposalMethod then ProducerRun([], Ok(None))
    else
      match GetReceiver(p, disposalContext, getReference)
      case Err(e) => ProducerRun([CreateContext, ReleaseContext], Err(e))
      case Ok(receiver) => ProducerRun([CreateContext, InvokeDisposer(receiver, instance), ReleaseContext], dispose(receiver))
  }

  /** `produce(ctx)`: a receiver context is created and the receiver looked up; the member
      is then invoked and the receiver context released whatever the invocation does. The
      lookup happens before the protected region, so when it fails the context is not
      released. */
  function Produce(p: ProducerMember, ctx: CreationalContext, getReference: GetReference, produce: Invoke): (r: ProducerRun)
    ensures |r.steps| > 0 && r.steps[0] == CreateContext
    ensures GetReceiver(p, ctx, getReference).Ok? <==> ReleaseContext in r.steps
    ensures GetReceiver(p, ctx, getReference).Ok? ==>
              var receiver := GetReceiver(p, ctx, getReference).value;
              r == ProducerRun([CreateContext, InvokeProducer(receiver), ReleaseContext], produce(receiver))
    ensures GetReceiver(p, ctx, getReference).Err? ==> r.result == Err(GetReceiver(p, ctx, getReference).error)
  {
    match GetReceiver(p, ctx, getReference)
    case Err(e) => ProducerRun([CreateContext], Err(e))
    case Ok(receiver) => ProducerRun([CreateContext, InvokeProducer(receiver), ReleaseContext], produce(receiver))
  }

  // ---- properties ----

  /** A producer whose type is `List<T>` for a type variable `T` is accepted exactly when its
      bean is Dependent. */
  lemma TypeVariableArgumentNeedsDependent(p: ProducerMember, raw: ClassName, v: string)
    requires p.baseType == Parameterized(raw, [TypeVar(v, [])])
    ensures CheckProducerReturnType(p).None? <==> IsDependent(p)
  {
  }

  /** A wildcard argument is rejected whatever the scope. */
  lemma WildcardArgumentAlwaysRejected(p: ProducerMember, raw: ClassName, w: JType)
    requires w.Wildcard? && p.baseType == Parameterized(raw, [Class("java.lang.String"), w])
    ensures CheckProducerReturnType(p) == Some(WILDCARD_RETURN_TYPE)
  {
    assert CheckTypeArguments([Class("java.lang.String"), w][1..], IsDependent(p)) == Some(WILDCARD_RETURN_TYPE);
  }

  /** A circular call reuses the incomplete instance instead of asking for a new reference. */
  lemma CircularCallUsesIncompleteInstance(p: ProducerMember, ctx: CreationalContext, getReference: GetReference, produce: Invoke)
    requires !p.isStatic && p.declaringBean.Some? && ctx.isWeldContext
    requires p.declaringBean.value in ctx.incompleteInstances
    ensures Produce(p, ctx, getReference, produce).steps[1] == InvokeProducer(Some(ctx.incompleteInstances[p.declaringBean.value]))
  {
  }

  /** A static producer never needs a reference, so its context is always released. */
  lemma StaticProducerAlwaysReleases(p: ProducerMember, ctx: CreationalContext, getReference: GetReference, produce: Invoke)
    requires p.isStatic
    ensures Produce(p, ctx, getReference, produce) == ProducerRun([CreateContext, InvokeProducer(None), ReleaseContext], produce(None))
  {
  }
}
