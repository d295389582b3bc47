/**
  The four-function calculator service: one request carries two operands
  and an operation; the reply is delivered through a response observer as
  either a result followed by completion, or a single error status.
*/
module Calculator {
  import opened Wrappers

  /** The request's operation enum; Unrecognized stands for any value the
      switch has no case for (protobuf's UNRECOGNIZED). */
  datatype Operation = Add | Subtract | Multiply | Divide | Unrecognized

  /** The gRPC status codes other than OK. */
  datatype StatusCode =
    | Cancelled | Unknown | InvalidArgument | DeadlineExceeded | NotFound
    | AlreadyExists | PermissionDenied | ResourceExhausted | FailedPrecondition
    | Aborted | OutOfRange | Unimplemented | Internal | Unavailable | DataLoss
    | Unauthenticated

  datatype Status = Status(code: StatusCode, description: string)

  const DivisionByZeroMessage: string := "Division by zero is not allowed"
  const InvalidOperationMessage: string := "Invalid operation"

  /** The outcome of one calculation: the switch over the operation, with a
      zero divisor reported as INVALID_ARGUMENT and every other failure
      (the unmatched operation) as INTERNAL. */
  function Compute(a: real, operation: Operation, b: real): (r: Result<real, Status>)
    ensures r.Failure? <==> operation == Unrecognized || (operation == Divide && b == 0.0)
    ensures r.Failure? ==> (r.error.code == InvalidArgument <==> operation == Divide)
    ensures r.Failure? ==> r.error.code == InvalidArgument || r.error.code == Internal
    ensures r.Failure? && operation == Divide ==> r.error.description == DivisionByZeroMessage
  {
    match operation
    case Add => Success(a + b)
    case Subtract => Success(a - b)
    case Multiply => Success(a * b)
    case Divide =>
      if b == 0.0 then Failure(Status(InvalidArgument, DivisionByZeroMessage))
      else Success(a / b)
    case Unrecognized => Failure(Status(Internal, "Unexpected error: " + InvalidOperationMessage))
  }

  /** Each successful operation is undone by its inverse: subtracting b
      after adding it and adding it back after subtracting it. */
  lemma AddSubtractInverse(a: real, b: real)
    ensures Compute(a, Add, b).Success? && Compute(Compute(a, Add, b).value, Subtract, b) == Success(a)
    ensures Compute(a, Subtract, b).Success? && Compute(Compute(a, Subtract, b).value, Add, b) == Success(a)
  {
  }

  /** Dividing by a non-zero b after multiplying by it, and multiplying
      after dividing, give the first operand back. */
  lemma MultiplyDivideInverse(a: real, b: real)
    requires b != 0.0
    ensures Compute(Compute(a, Multiply, b).value, Divide, b) == Success(a)
    ensures Compute(a, Divide, b).Success? && Compute(Compute(a, Divide, b).value, Multiply, b) == Success(a)
  {
    MultiplyThenDivide(a, b);
    DivideThenMultiply(a, b);
  }

  lemma MultiplyThenDivide(a: real, b: real)
    requires b != 0.0
    ensures Compute(a * b, Divide, b) == Success(a)
  {
    assert (a * b) / b == a;
  }

  lemma DivideThenMultiply(a: real, b: real)
    requires b != 0.0
    ensures Compute(a / b, Multiply, b) == Success(a)
  {
    var q := a / b;
    var r := Compute(q, Multiply, b);
    assert r == Success(q * b);
    assert q * b == a;
  }

  /** The calls a response observer receives. */
  datatype Event = OnNext(result: real) | OnCompleted | OnError(status: Status)

  /** The events that deliver an outcome: onNext then onCompleted for a
      result, a single onError for a failure. */
  function Delivery(outcome: Result<real, Status>): (events: seq<Event>)
    ensures |events| > 0 && (events[|events| - 1].OnCompleted? || events[|events| - 1].OnError?)
    ensures forall i :: 0 <= i < |events| - 1 ==> events[i].OnNext?
    ensures forall i :: 0 <= i < |events| && events[i].OnNext? ==>
      outcome.Success? && events[i].result == outcome.value
    ensures outcome.Success? <==> events[|events| - 1] == OnCompleted
    ensures outcome.Success? ==> OnNext(outcome.value) in events
    ensures outcome.Failure? ==> events[|events| - 1] == OnError(outcome.error)
  {
    match outcome
    case Success(v) => [OnNext(v), OnCompleted]
    case Failure(s) => [OnError(s)]
  }

  /** Each call ends in exactly one way: a result and completion, or one error. */
  lemma ExactlyOneOutcome(a: real, operation: Operation, b: real)
    ensures var events := Delivery(Compute(a, operation, b));
            || (|events| == 2 && events[0].OnNext? && events[1] == OnCompleted)
            || (|events| == 1 && events[0].OnError?)
    ensures var events := Delivery(Compute(a, operation, b));
            (|events| == 2) <==> operation != Unrecognized && !(operation == Divide && b == 0.0)
  {
  }

  /** The stream observer the service answers through; it records the calls
      it receives. */
  class ResponseObserver {
    var events: seq<Event>

    constructor ()
      ensures events == []
    {
      events := [];
    }

    method OnNextCall(result: real)
      modifies this
      ensures events == old(events) + [OnNext(result)]
    {
      events := events + [OnNext(result)];
    }

    method OnCompletedCall()
      modifies this
      ensures events == old(events) + [OnCompleted]
    {
      events := events + [OnCompleted];
    }

    method OnErrorCall(status: Status)
      modifies this
      ensures events == old(events) + [OnError(status)]
    {
      events := events + [OnError(status)];
    }
  }

  /** The service method: compute, then answer through the observer. */
  method Calculate(a: real, operation: Operation, b: real, responseObserver: ResponseObserver)
    modifies responseObserver
    ensures responseObserver.events == old(responseObserver.events) + Delivery(Compute(a, operation, b))
  {
    var outcome := Compute(a, operation, b);
    match outcome {
      case Success(result) =>
        responseObserver.OnNextCall(result);
        responseObserver.OnCompletedCall();
      case Failure(status) =>
        responseObserver.OnErrorCall(status);
    }
  }
}
