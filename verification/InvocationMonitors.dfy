/** The probe's invocation monitor: which calls it skips, and the per-thread stack of
    invocation builders it keeps while monitored calls nest. */
module InvocationMonitors {
  import opened Outcomes
  import opened Throwables
  import opened JavaInts
  import opened TextUtil

  type Value = string

  /** A monitored method: its name and its number of parameters. */
  datatype MethodInfo = MethodInfo(name: string, parameterCount: nat)

  /** The JavaBean accessor prefixes (`Strings.GET_PREFIX`, `IS_PREFIX`, `SET_PREFIX`,
      whose values are not part of this model). */
  datatype Prefixes = Prefixes(getPrefix: string, isPrefix: string, setPrefix: string)

  /** `isJavaBeanPropertyAccessor`. */
  predicate IsJavaBeanPropertyAccessor(m: MethodInfo, p: Prefixes) {
    if m.parameterCount == 0 then StartsWith(m.name, p.getPrefix) || StartsWith(m.name, p.isPrefix)
    else if m.parameterCount == 1 then StartsWith(m.name, p.setPrefix)
    else false
  }

  /** An invocation builder: an entry point with its invocation id, or a child of another
      builder; `node` tells apart children that are distinct Java objects. */
  datatype Builder = EntryPoint(id: int) | Child(parent: Builder, node: nat)

  /** The monitor's state: the current thread's builder (the thread-local), the last id
      the atomic generator handed out, a counter for child objects, and the invocations
      handed to the probe. */
  datatype Monitor = Monitor(current: Option<Builder>, lastId: int, nextNode: nat, recorded: seq<Builder>)

  const INITIAL: Monitor := Monitor(None, 0, 0, [])

  /** `initBuilder`: with no current builder a new entry point whose id is the generator's
      `incrementAndGet` (an `int`, so it wraps); otherwise a child of the current builder.
      Either becomes current. */
  function InitBuilder(m: Monitor): (r: (Monitor, Builder))
    ensures r.0.current == Some(r.1) && r.0.recorded == m.recorded
    ensures m.current.None? ==> r.1 == EntryPoint(Wrap32(m.lastId + 1)) && r.0.lastId == r.1.id
    ensures m.current.Some? ==> r.1.Child? && r.1.parent == m.current.value && r.0.lastId == m.lastId
  {
    match m.current
    case None =>
      var id := Wrap32(m.lastId + 1);
      (m.(current := Some(EntryPoint(id)), lastId := id), EntryPoint(id))
    case Some(b) =>
      var child := Child(b, m.nextNode);
      (m.(current := Some(child), nextNode := m.nextNode + 1), child)
  }

  /** The monitored call itself (`ctx.proceed()`): it may run further monitored calls, so it
      maps the monitor state to the state it leaves and its outcome. */
  type Proceed = Monitor -> (Monitor, Result<Value, Throwable>)

  /** `Action.perform` as written: on success an entry point that is not ignored is handed
      to the probe and a child makes its parent current again; in the `finally`, an entry
      point clears the thread-local. A failing child leaves itself current. */
  function Perform(m: Monitor, b: Builder, proceed: Proceed, isIgnored: Builder -> bool): (r: (Monitor, Result<Value, Throwable>))
    ensures r.1 == proceed(m).1
    ensures b.EntryPoint? ==> r.0.current.None?
    ensures b.Child? && r.1.Ok? ==> r.0.current == Some(b.parent)
    ensures b.Child? && r.1.Err? ==> r.0 == proceed(m).0
    ensures r.0.recorded == proceed(m).0.recorded + (if r.1.Ok? && b.EntryPoint? && !isIgnored(b) then [b] else [])
  {
    var (m1, outcome) := proceed(m);
    var m2 := if outcome.Err? then m1
              else if b.EntryPoint? then (if isIgnored(b) then m1 else m1.(recorded := m1.recorded + [b]))
              else m1.(current := Some(b.parent));
    (if b.EntryPoint? then m2.(current := None) else m2, outcome)
  }

  /** `Action.perform` as evidently intended (the code does not do this): a child makes its
      parent current again on every exit path, as an entry point clears the thread-local
      on every exit path. */
  function PerformRestoring(m: Monitor, b: Builder, proceed: Proceed, isIgnored: Builder -> bool): (r: (Monitor, Result<Value, Throwable>))
    ensures r.1 == proceed(m).1
    ensures b.EntryPoint? ==> r.0.current.None?
    ensures b.Child? ==> r.0.current == Some(b.parent)
    ensures r.0.recorded == proceed(m).0.recorded + (if r.1.Ok? && b.EntryPoint? && !isIgnored(b) then [b] else [])
  {
    var (m1, outcome) := proceed(m);
    var m2 := if outcome.Ok? && b.EntryPoint? && !isIgnored(b) then m1.(recorded := m1.recorded + [b]) else m1;
    (m2.(current := if b.EntryPoint? then None else Some(b.parent)), outcome)
  }

  /** `monitor` as written: with skipping configured, a JavaBean accessor just proceeds; any
      other call gets a builder (an entry point or a child) and is performed. The builder's
      descriptive fields (bean, class and method name, start time, type) are not modelled. */
  function MonitorCall(m: Monitor, called: MethodInfo, skipJavaBeanProperties: bool, prefixes: Prefixes,
                       proceed: Proceed, isIgnored: Builder -> bool): (r: (Monitor, Result<Value, Throwable>))
    ensures skipJavaBeanProperties && IsJavaBeanPropertyAccessor(called, prefixes) ==> r == proceed(m)
    ensures !(skipJavaBeanProperties && IsJavaBeanPropertyAccessor(called, prefixes)) ==>
              var (m1, b) := InitBuilder(m);
              && r.1 == proceed(m1).1
              && (m.current.None? ==> r.0.current.None? && r.0.recorded == proceed(m1).0.recorded +
                                        (if r.1.Ok? && !isIgnored(b) then [b] else []))
              && (m.current.Some? ==> r.0.recorded == proceed(m1).0.recorded)
              && (m.current.Some? && r.1.Ok? ==> r.0.current == m.current)
              && (m.current.Some? && r.1.Err? ==> r.0.current == proceed(m1).0.current)
  {
    if skipJavaBeanProperties && IsJavaBeanPropertyAccessor(called, prefixes) then proceed(m)
    else
      var (m1, b) := InitBuilder(m);
      Perform(m1, b, proceed, isIgnored)
  }

  /** `monitor` built on the intended `perform`. */
  function MonitorCallRestoring(m: Monitor, called: MethodInfo, skipJavaBeanProperties: bool, prefixes: Prefixes,
                                proceed: Proceed, isIgnored: Builder -> bool): (r: (Monitor, Result<Value, Throwable>))
    ensures skipJavaBeanProperties && IsJavaBeanPropertyAccessor(called, prefixes) ==> r == proceed(m)
    ensures !(skipJavaBeanProperties && IsJavaBeanPropertyAccessor(called, prefixes)) ==>
              var (m1, b) := InitBuilder(m);
              && r.1 == proceed(m1).1
              && r.0.recorded == proceed(m1).0.recorded + (if r.1.Ok? && m.current.None? && !isIgnored(b) then [b] else [])
  {
    if skipJavaBeanProperties && IsJavaBeanPropertyAccessor(called, prefixes) then proceed(m)
    else
      var (m1, b) := InitBuilder(m);
      PerformRestoring(m1, b, proceed, isIgnored)
  }

  // ---- properties ----

  /** A getter has no parameters and a get or is prefix; a setter has one parameter and a set
      prefix; nothing else is an accessor. */
  lemma AccessorIff(m: MethodInfo, p: Prefixes)
    ensures IsJavaBeanPropertyAccessor(m, p) <==>
              || (m.parameterCount == 0 && (OccursAt(m.name, p.getPrefix, 0) || OccursAt(m.name, p.isPrefix, 0)))
              || (m.parameterCount == 1 && OccursAt(m.name, p.setPrefix, 0))
  {
  }

  /** A skipped accessor creates no builder, hands nothing to the probe and does not touch
      the id generator beyond what the call itself does. */
  lemma SkippedAccessorLeavesNoTrace(m: Monitor, called: MethodInfo, prefixes: Prefixes, isIgnored: Builder -> bool)
    requires IsJavaBeanPropertyAccessor(called, prefixes)
    ensures var proceed := (s: Monitor) => (s, Ok("result"));
            MonitorCall(m, called, true, prefixes, proceed, isIgnored) == (m, Ok("result"))
  {
  }

  /** Entry points created one after another get strictly increasing ids, as long as the
      `int` generator has not reached its maximum. */
  lemma EntryPointIdsIncrease(m: Monitor)
    requires m.current.None? && IsInt32(m.lastId) && m.lastId < MAX_INT - 1
    ensures var (m1, b1) := InitBuilder(m);
            var (m2, b2) := InitBuilder(m1.(current := None));
            && b1.EntryPoint? && b2.EntryPoint? && m.lastId < b1.id < b2.id
  {
  }

  /** At the top of the int range the id wraps to the most negative `int`. */
  lemma EntryPointIdWraps(m: Monitor)
    requires m.current.None? && m.lastId == MAX_INT
    ensures InitBuilder(m).1 == EntryPoint(MIN_INT)
  {
  }

  /** On success a non-ignored entry point is handed to the probe exactly once, an ignored
      one not at all; and an entry point clears the thread-local whether or not the call
      succeeds. */
  lemma EntryPointRecordedOnceAndCleared(m: Monitor, id: int, proceed: Proceed, isIgnored: Builder -> bool)
    ensures var (m1, outcome) := Perform(m, EntryPoint(id), proceed, isIgnored);
            && m1.current.None?
            && m1.recorded == proceed(m).0.recorded +
                 (if outcome.Ok? && !isIgnored(EntryPoint(id)) then [EntryPoint(id)] else [])
  {
  }

  /** On success a child makes its parent current again and hands nothing to the probe. */
  lemma ChildRestoresParentOnSuccess(m: Monitor, parent: Builder, node: nat, proceed: Proceed, isIgnored: Builder -> bool)
    requires proceed(m).1.Ok?
    ensures var (m1, _) := Perform(m, Child(parent, node), proceed, isIgnored);
            m1.current == Some(parent) && m1.recorded == proceed(m).0.recorded
  {
  }

  /** The intended `perform` agrees with the written one whenever the call succeeds, and
      for entry points always. */
  lemma RestoringAgreesWhereWrittenIsRight(m: Monitor, b: Builder, proceed: Proceed, isIgnored: Builder -> bool)
    requires proceed(m).1.Ok? || b.EntryPoint?
    ensures PerformRestoring(m, b, proceed, isIgnored) == Perform(m, b, proceed, isIgnored)
  {
  }

  /** As written, a child call that throws stays current, so a sibling called next (after
      the caller catches the exception) becomes the failed call's child rather than the
      caller's. */
  lemma FailedChildMisparentsSibling()
    ensures var m := Monitor(Some(EntryPoint(1)), 1, 0, []);
            var called := MethodInfo("compute", 2);
            var prefixes := Prefixes("get", "is", "set");
            var failing := (s: Monitor) => (s, Err(RuntimeFailure("java.lang.RuntimeException")));
            var (m2, _) := MonitorCall(m, called, true, prefixes, failing, (b: Builder) => false);
            var (_, sibling) := InitBuilder(m2);
            && m2.current == Some(Child(EntryPoint(1), 0))
            && m2.current != m.current
            && sibling == Child(Child(EntryPoint(1), 0), 1)
            && sibling.parent != EntryPoint(1)
  {
  }

  /** With the intended `perform`, a monitored call leaves the thread-local as it found it,
      so siblings share their parent whatever the first one did. */
  lemma MonitorCallRestoresCurrent(m: Monitor, called: MethodInfo, skip: bool, prefixes: Prefixes,
                                   proceed: Proceed, isIgnored: Builder -> bool)
    requires !(skip && IsJavaBeanPropertyAccessor(called, prefixes))
    ensures MonitorCallRestoring(m, called, skip, prefixes, proceed, isIgnored).0.current == m.current
  {
  }

  /** The written `monitor` and the intended one differ only for a child call that throws. */
  lemma MonitorCallsAgreeUnlessChildFails(m: Monitor, called: MethodInfo, skip: bool, prefixes: Prefixes,
                                          proceed: Proceed, isIgnored: Builder -> bool)
    requires m.current.None? || proceed(InitBuilder(m).0).1.Ok?
    ensures MonitorCall(m, called, skip, prefixes, proceed, isIgnored) ==
            MonitorCallRestoring(m, called, skip, prefixes, proceed, isIgnored)
  {
    if !(skip && IsJavaBeanPropertyAccessor(called, prefixes)) {
      var (m1, b) := InitBuilder(m);
      RestoringAgreesWhereWrittenIsRight(m1, b, proceed, isIgnored);
    }
  }
}
