/** The exceptions that cross the modelled APIs. Each kind records what Java class it
    stands for; only the distinctions the code branches on are kept. */
module Throwables {
  import opened Outcomes

  datatype Throwable =
    | RuntimeFailure(name: string)   // an unchecked RuntimeException raised by user code
    | ErrorFailure(name: string)     // a java.lang.Error
    | CheckedFailure(name: string)   // a checked exception
    | ObserverException(cause: Throwable)
    | CompletionException(completionCause: Option<Throwable>, suppressed: seq<Throwable>)
    | DefinitionException(causes: seq<Throwable>)
    | DefinitionProblem(message: string) // a DefinitionException raised with a message key
    | IllegalArgument(reason: string)
    | IllegalState(reason: string)
    | ContextNotActive
    | UnsupportedOperation
    | NullPointer
    | WeldException(wrapped: string) // WeldException wrapping a reflective failure

  /** `throwable instanceof Error`. */
  predicate IsError(t: Throwable) {
    t.ErrorFailure?
  }

  /** `throwable instanceof RuntimeException`: every kind that is neither an Error nor checked. */
  predicate IsRuntimeException(t: Throwable) {
    !t.ErrorFailure? && !t.CheckedFailure?
  }

  /** `throwable instanceof Exception`. */
  predicate IsException(t: Throwable) {
    !IsError(t)
  }
}
