/** Values the polling and retry engine exchanges with the code that calls it
    and with the callables it is given. */
module Outcomes {

  datatype Option<+T> = None | Some(value: T)

  /** What one call of a caller-supplied callable did: it returned a value or
      it raised an exception. */
  datatype Outcome<+T, +E> = Ok(value: T) | Raised(error: E)

  /** An exception that leaves a wait: a TimeoutError the engine raises
      itself, or an exception of the caller's callable passed on unchanged. */
  datatype Failure<+E> = TimeoutError(message: string) | Propagated(error: E)

  /** The result of one polling wait together with the number of polling
      rounds it entered. */
  datatype Run<+T, +E> = Run(result: Outcome<T, Failure<E>>, rounds: nat)

  /** The result of one retried call: the value returned (None when the
      wrapper gives up without calling), or the exception that escaped; the
      number of attempts made and the delays slept between them, in order. */
  datatype RetryRun<+T, +E> = RetryRun(result: Outcome<Option<T>, E>, attempts: nat, sleeps: seq<real>)

  /** A boolean condition call holds when it returned True; a call that
      raised counts as not holding. */
  predicate Holds<E>(o: Outcome<bool, E>) {
    o.Ok? && o.value
  }

  /** An exception a caller's callable raised: `error` stands for the
      exception object, and `isException` tells whether its class derives
      from Exception, as nearly all do, or only from BaseException, as
      KeyboardInterrupt and SystemExit do. */
  datatype Thrown<+E> = Thrown(error: E, isException: bool)

  /** A condition call raised an exception that the polling loops' `except
      Exception` clause does not catch. */
  predicate Escapes<E>(o: Outcome<bool, Thrown<E>>) {
    o.Raised? && !o.error.isException
  }

  /** A condition call after which polling goes on: it returned False, or it
      raised an exception the loop catches. */
  predicate KeepsPolling<E>(o: Outcome<bool, Thrown<E>>) {
    !Holds(o) && !Escapes(o)
  }

  /** Two condition calls a polling loop cannot tell apart: both hold or
      neither does, and an exception that escapes from one escapes, the same,
      from the other. */
  ghost predicate SameCall<E>(o1: Outcome<bool, Thrown<E>>, o2: Outcome<bool, Thrown<E>>) {
    && Holds(o1) == Holds(o2)
    && Escapes(o1) == Escapes(o2)
    && (Escapes(o1) ==> o1 == o2)
  }
}
