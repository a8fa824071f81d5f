/** A method injection point that calls a static method (observer and disposer methods
    use it): where the special parameter sits, how the argument array is laid out, and the
    invocation context created around the call. */
module StaticInjection {
  import opened Outcomes
  import opened JavaTypes
  import opened Throwables

  type Instance = string

  /** A declared parameter: its position and annotations. */
  datatype Parameter = Parameter(position: nat, annotations: set<ClassName>)

  const TRANSIENT_REFERENCE: ClassName := "javax.enterprise.inject.TransientReference"

  const NOT_A_DISPOSER_NOR_OBSERVER: Throwable := IllegalArgument("Not a disposer nor observer method")

  /** The parameters carrying the marker annotation, in declaration order
      (`getEnhancedParameters(marker)`). */
  function MarkedParameters(parameters: seq<Parameter>, marker: ClassName): (r: seq<Parameter>)
    ensures |r| <= |parameters|
  {
    if |parameters| == 0 then []
    else
      var rest := MarkedParameters(parameters[1..], marker);
      if marker in parameters[0].annotations then [parameters[0]] + rest else rest
  }

  /** Nothing is marked exactly when no parameter carries the marker; otherwise the first
      marked parameter is the first parameter that carries it. */
  lemma {:induction false} MarkedParametersFirst(parameters: seq<Parameter>, marker: ClassName)
    ensures |MarkedParameters(parameters, marker)| == 0 <==> forall i :: 0 <= i < |parameters| ==> marker !in parameters[i].annotations
    ensures |MarkedParameters(parameters, marker)| > 0 ==>
              exists i :: 0 <= i < |parameters| && parameters[i] == MarkedParameters(parameters, marker)[0]
                          && marker in parameters[i].annotations
                          && forall k :: 0 <= k < i ==> marker !in parameters[k].annotations
  {
    if |parameters| > 0 && marker !in parameters[0].annotations {
      var tail := parameters[1..];
      MarkedParametersFirst(tail, marker);
      assert forall k :: 0 < k < |parameters| ==> parameters[k] == tail[k - 1];
      if |MarkedParameters(tail, marker)| > 0 {
        var i :| 0 <= i < |tail| && tail[i] == MarkedParameters(tail, marker)[0]
                 && marker in tail[i].annotations
                 && forall k :: 0 <= k < i ==> marker !in tail[k].annotations;
        assert parameters[i + 1] == tail[i];
      }
    }
  }

  /** `initSpecialInjectionPointIndex`: -1 without a marker; an error when no parameter
      carries the marker; otherwise the position of the first one that does. */
  function SpecialInjectionPointIndex(parameters: seq<Parameter>, marker: Option<ClassName>): (r: Result<int, Throwable>)
    ensures marker.None? ==> r == Ok(-1)
    ensures marker.Some? ==>
              (r.Err? <==> forall i :: 0 <= i < |parameters| ==> marker.value !in parameters[i].annotations)
    ensures r.Err? ==> r.error == NOT_A_DISPOSER_NOR_OBSERVER
    ensures marker.Some? && r.Ok? ==>
              exists i :: 0 <= i < |parameters| && r.value == parameters[i].position
                          && marker.value in parameters[i].annotations
                          && forall k :: 0 <= k < i ==> marker.value !in parameters[k].annotations
  {
    match marker
    case None => Ok(-1 as int)
    case Some(m) =>
      var marked := MarkedParameters(parameters, m);
      MarkedParametersFirst(parameters, m);
      if |marked| == 0 then Err(NOT_A_DISPOSER_NOR_OBSERVER) else Ok(marked[0].position as int)
  }

  /** One slot of the argument array: the special value, or the value of the parameter
      injection point at that index resolved against the invocation context (for a
      `@TransientReference` parameter) or against the caller's context. */
  datatype Argument = Special(special: Instance) | Injected(index: nat, fromInvocationContext: bool)

  /** `getParameterValues`: with no injection points, an empty array or just the special
      value; otherwise one slot per parameter injection point. */
  method GetParameterValues(hasInjectionPoints: bool, parameterInjectionPoints: seq<Parameter>,
                            specialIndex: int, specialValue: Instance) returns (values: seq<Argument>)
    ensures !hasInjectionPoints && specialIndex == -1 ==> values == []
    ensures !hasInjectionPoints && specialIndex != -1 ==> values == [Special(specialValue)]
    ensures hasInjectionPoints ==> |values| == |parameterInjectionPoints|
    ensures hasInjectionPoints ==> forall i :: 0 <= i < |values| ==>
              values[i] == (if i == specialIndex then Special(specialValue)
                            else Injected(i, TRANSIENT_REFERENCE in parameterInjectionPoints[i].annotations))
  {
    if !hasInjectionPoints {
      if specialIndex == -1 {
        return [];
      } else {
        return [Special(specialValue)];
      }
    }
    values := [];
    var i := 0;
    while i < |parameterInjectionPoints|
      invariant 0 <= i <= |parameterInjectionPoints| && |values| == i
      invariant forall k :: 0 <= k < i ==>
                  values[k] == (if k == specialIndex then Special(specialValue)
                                else Injected(k, TRANSIENT_REFERENCE in parameterInjectionPoints[k].annotations))
    {
      var param := parameterInjectionPoints[i];
      if i == specialIndex {
        values := values + [Special(specialValue)];
      } else if TRANSIENT_REFERENCE in param.annotations {
        values := values + [Injected(i, true)];
      } else {
        values := values + [Injected(i, false)];
      }
      i := i + 1;
    }
  }

  /** The failures `invoke` catches: Java's IllegalArgumentException, SecurityException,
      IllegalAccessException, InvocationTargetException and NoSuchMethodException. */
  predicate IsReflectiveFailure(t: Throwable) {
    || t.IllegalArgument?
    || t == RuntimeFailure("java.lang.SecurityException")
    || t == CheckedFailure("java.lang.IllegalAccessException")
    || t == CheckedFailure("java.lang.reflect.InvocationTargetException")
    || t == CheckedFailure("java.lang.NoSuchMethodException")
  }

  datatype InvocationStep = CreateInvocationContext | InvokeMethod(arguments: seq<Argument>) | ReleaseInvocationContext

  datatype InvocationRun = InvocationRun(steps: seq<InvocationStep>, result: Result<Option<Instance>, Throwable>)

  /** `invoke`: an invocation context is created only when there are injection points, and
      released on every path; reflective failures are rethrown as the requested exception
      type, anything else escapes as it is. `call` stands for `Method.invoke`. */
  method Invoke(hasInjectionPoints: bool, parameterInjectionPoints: seq<Parameter>, specialIndex: int,
                specialValue: Instance, exceptionTypeToThrow: string,
                call: seq<Argument> -> Result<Option<Instance>, Throwable>) returns (r: InvocationRun, arguments: seq<Argument>)
    ensures hasInjectionPoints ==>
              r.steps == [CreateInvocationContext, InvokeMethod(arguments), ReleaseInvocationContext]
    ensures !hasInjectionPoints ==> r.steps == [InvokeMethod(arguments)]
    ensures |arguments| == (if hasInjectionPoints then |parameterInjectionPoints| else if specialIndex == -1 then 0 else 1)
    ensures 0 <= specialIndex < |arguments| ==> arguments[specialIndex] == Special(specialValue)
    ensures call(arguments).Ok? ==> r.result == call(arguments)
    ensures call(arguments).Err? && IsReflectiveFailure(call(arguments).error) ==> r.result == Err(RuntimeFailure(exceptionTypeToThrow))
    ensures call(arguments).Err? && !IsReflectiveFailure(call(arguments).error) ==> r.result == call(arguments)
  {
    arguments := GetParameterValues(hasInjectionPoints, parameterInjectionPoints, specialIndex, specialValue);
    var outcome := call(arguments);
    var result := if outcome.Err? && IsReflectiveFailure(outcome.error) then Err(RuntimeFailure(exceptionTypeToThrow)) else outcome;
    if hasInjectionPoints {
      r := InvocationRun([CreateInvocationContext, InvokeMethod(arguments), ReleaseInvocationContext], result);
    } else {
      r := InvocationRun([InvokeMethod(arguments)], result);
    }
  }

  // ---- properties ----

  /** An observer method `void m(@Observes E e, Service s)` has its event parameter at
      index 0, and its argument array puts the event there and the service after it. */
  method ObserverLayoutExample(observes: ClassName, e: Instance) returns (values: seq<Argument>)
    ensures values == [Special(e), Injected(1, false)]
  {
    var params := [Parameter(0, {observes}), Parameter(1, {})];
    var index := SpecialInjectionPointIndex(params, Some(observes));
    assert index == Ok(0) by {
      assert params[0].position == 0;
    }
    values := GetParameterValues(true, params, 0, e);
    assert values[0] == Special(e);
    assert values[1] == Injected(1, false);
  }
}
