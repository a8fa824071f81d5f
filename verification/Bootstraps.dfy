/** The bootstrap façade: it forwards the boot phases to the startup object until
    initialization has ended, and serves managers from the runtime until shutdown. */
module Bootstraps {
  import opened Outcomes
  import opened Throwables

  /** The calls forwarded to WeldStartup and WeldRuntime, which are not part of this model. */
  datatype Forwarded =
    | StartupStartExtensions
    | StartupStartContainer(contextId: string)
    | StartupStartInitialization
    | StartupDeployBeans
    | StartupValidateBeans
    | StartupEndInitialization
    | RuntimeShutdown(runtimeOf: string)

  /** The runtime `startContainer` produced, identified by its context id. */
  datatype WeldRuntime = WeldRuntime(runtimeContextId: string)

  /** The bootstrap: whether the startup object is still held (it is dropped when
      initialization ends), the runtime (dropped at shutdown), and the calls forwarded. */
  datatype WeldBootstrap = WeldBootstrap(hasStartup: bool, runtime: Option<WeldRuntime>, forwarded: seq<Forwarded>)

  const STATIC_INSTANCE: string := "STATIC_INSTANCE"

  const AFTER_INITIALIZATION: Throwable := IllegalState("callingBootstrapMethodAfterContainerHasBeenInitialized")

  /** What a call did: the bootstrap afterwards and what escaped, if anything. The
      returned `this` is the bootstrap itself. */
  datatype Call = Call(state: WeldBootstrap, thrown: Option<Throwable>)

  /** The constructor: a startup object and no runtime. */
  const INITIAL: WeldBootstrap := WeldBootstrap(true, None, [])

  /** Calls on a startup object that has been dropped dereference null. */
  function StartExtensions(b: WeldBootstrap): (r: Call)
    ensures b.hasStartup ==> r == Call(b.(forwarded := b.forwarded + [StartupStartExtensions]), None)
    ensures !b.hasStartup ==> r == Call(b, Some(NullPointer))
  {
    if b.hasStartup then Call(b.(forwarded := b.forwarded + [StartupStartExtensions]), None)
    else Call(b, Some(NullPointer))
  }

  /** `startContainer(contextId, …)`: the runtime the startup creates is recorded. */
  function StartContainer(b: WeldBootstrap, contextId: string): (r: Call)
    ensures b.hasStartup ==> r.thrown.None? && r.state.runtime == Some(WeldRuntime(contextId))
                             && r.state.hasStartup && r.state.forwarded == b.forwarded + [StartupStartContainer(contextId)]
    ensures !b.hasStartup ==> r == Call(b, Some(NullPointer))
  {
    if b.hasStartup then
      Call(WeldBootstrap(true, Some(WeldRuntime(contextId)), b.forwarded + [StartupStartContainer(contextId)]), None)
    else Call(b, Some(NullPointer))
  }

  /** `startContainer(environment, deployment)`: the static-instance context id. */
  function StartContainerDefault(b: WeldBootstrap): (r: Call)
    ensures b.hasStartup ==> r.thrown.None? && r.state.runtime == Some(WeldRuntime(STATIC_INSTANCE))
    ensures !b.hasStartup ==> r == Call(b, Some(NullPointer))
  {
    StartContainer(b, STATIC_INSTANCE)
  }

  /** The three phase methods: refused once initialization has ended, forwarded otherwise. */
  function Phase(b: WeldBootstrap, call: Forwarded): (r: Call)
    ensures !b.hasStartup ==> r == Call(b, Some(AFTER_INITIALIZATION))
    ensures b.hasStartup ==> r == Call(b.(forwarded := b.forwarded + [call]), None)
  {
    if !b.hasStartup then Call(b, Some(AFTER_INITIALIZATION))
    else Call(b.(forwarded := b.forwarded + [call]), None)
  }

  function StartInitialization(b: WeldBootstrap): (r: Call)
    ensures !b.hasStartup ==> r.thrown == Some(AFTER_INITIALIZATION) && r.state == b
    ensures b.hasStartup ==> r.thrown.None? && r.state.forwarded == b.forwarded + [StartupStartInitialization]
  {
    Phase(b, StartupStartInitialization)
  }

  function DeployBeans(b: WeldBootstrap): (r: Call)
    ensures !b.hasStartup ==> r.thrown == Some(AFTER_INITIALIZATION) && r.state == b
    ensures b.hasStartup ==> r.thrown.None? && r.state.forwarded == b.forwarded + [StartupDeployBeans]
  {
    Phase(b, StartupDeployBeans)
  }

  function ValidateBeans(b: WeldBootstrap): (r: Call)
    ensures !b.hasStartup ==> r.thrown == Some(AFTER_INITIALIZATION) && r.state == b
    ensures b.hasStartup ==> r.thrown.None? && r.state.forwarded == b.forwarded + [StartupValidateBeans]
  {
    Phase(b, StartupValidateBeans)
  }

  /** `endInitialization`: the startup ends initialization once and is dropped; later calls
      do nothing. */
  function EndInitialization(b: WeldBootstrap): (r: Call)
    ensures r.thrown.None? && !r.state.hasStartup && r.state.runtime == b.runtime
    ensures b.hasStartup ==> r.state.forwarded == b.forwarded + [StartupEndInitialization]
    ensures !b.hasStartup ==> r.state == b
  {
    if b.hasStartup then Call(WeldBootstrap(false, b.runtime, b.forwarded + [StartupEndInitialization]), None)
    else Call(b, None)
  }

  /** `getManager(archive)`: null without a runtime; otherwise the runtime's manager for
      the archive (`managerOf`, not part of this model). */
  function GetManager<A, M>(b: WeldBootstrap, archive: A, managerOf: (WeldRuntime, A) -> M): (r: Option<M>)
    ensures r.None? <==> b.runtime.None?
    ensures r.Some? ==> r.value == managerOf(b.runtime.value, archive)
  {
    if b.runtime.None? then None else Some(managerOf(b.runtime.value, archive))
  }

  /** `shutdown`: the runtime is shut down once and dropped. */
  function Shutdown(b: WeldBootstrap): (r: WeldBootstrap)
    ensures r.runtime.None? && r.hasStartup == b.hasStartup
    ensures b.runtime.Some? ==> r.forwarded == b.forwarded + [RuntimeShutdown(b.runtime.value.runtimeContextId)]
    ensures b.runtime.None? ==> r == b
  {
    if b.runtime.Some? then WeldBootstrap(b.hasStartup, None, b.forwarded + [RuntimeShutdown(b.runtime.value.runtimeContextId)])
    else b
  }

  // ---- properties ----

  /** Once initialization has ended no phase method reaches the startup, and each throws. */
  lemma PhasesRefusedAfterEnd(b: WeldBootstrap)
    ensures var e := EndInitialization(b).state;
            && StartInitialization(e) == Call(e, Some(AFTER_INITIALIZATION))
            && DeployBeans(e) == Call(e, Some(AFTER_INITIALIZATION))
            && ValidateBeans(e) == Call(e, Some(AFTER_INITIALIZATION))
  {
  }

  /** `endInitialization` and `shutdown` are idempotent. */
  lemma EndAndShutdownIdempotent(b: WeldBootstrap)
    ensures EndInitialization(EndInitialization(b).state) == Call(EndInitialization(b).state, None)
    ensures Shutdown(Shutdown(b)) == Shutdown(b)
  {
  }

  /** There is no manager before the container starts or after shutdown. */
  lemma NoManagerOutsideRuntime<A, M>(b: WeldBootstrap, archive: A, managerOf: (WeldRuntime, A) -> M)
    ensures GetManager(INITIAL, archive, managerOf).None?
    ensures GetManager(Shutdown(b), archive, managerOf).None?
  {
  }

  /** The usual boot sequence throws nothing and forwards every phase once, in order; after
      shutdown no manager is served. */
  lemma NormalBootSequence(contextId: string)
    ensures var s1 := StartContainer(INITIAL, contextId);
            var s2 := StartInitialization(s1.state);
            var s3 := DeployBeans(s2.state);
            var s4 := ValidateBeans(s3.state);
            var s5 := EndInitialization(s4.state);
            var s6 := Shutdown(s5.state);
            && s1.thrown.None? && s2.thrown.None? && s3.thrown.None? && s4.thrown.None? && s5.thrown.None?
            && s5.state.runtime == Some(WeldRuntime(contextId))
            && s6.forwarded == [StartupStartContainer(contextId), StartupStartInitialization, StartupDeployBeans,
                                StartupValidateBeans, StartupEndInitialization, RuntimeShutdown(contextId)]
            && s6.runtime.None?
  {
  }

  /** Starting the container after initialization ended dereferences the dropped startup. */
  lemma StartContainerAfterEndFails(b: WeldBootstrap, contextId: string)
    ensures StartContainer(EndInitialization(b).state, contextId).thrown == Some(NullPointer)
  {
  }
}
