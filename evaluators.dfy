/**
  The two evaluator services: each holds a blocking client for the remote
  calculator and runs the postfix loop over a local operand deque.
*/
module Evaluators {
  import opened Wrappers
  import opened Tokens
  import opened Calculator
  import opened PostfixEvaluation

  /** The blocking calculator stub: it answers each request with the remote
      service's reply. The ghost log `sent` exists only for the proofs:
      it lets contracts say which requests the loop sent. */
  class CalculatorClient {
    const respond: CalculatorCall
    ghost var sent: seq<Request>

    constructor (respond: CalculatorCall)
      ensures this.respond == respond && sent == []
    {
      this.respond := respond;
      sent := [];
    }

    method Calculate(request: Request) returns (response: Result<real, Status>)
      modifies this
      ensures response == respond(request.a, request.operation, request.b)
      ensures sent == old(sent) + [request]
    {
      sent := sent + [request];
      response := respond(request.a, request.operation, request.b);
    }
  }

  /** The loop both services run: push numbers; for an operator pop b, then
      a, build the request, call the calculator and push its answer; at the
      end pop the top. A failed call ends the loop as the handling says. */
  method RunPostfix(tokens: seq<Token>, client: CalculatorClient, h: Handling) returns (r: Result<real, EvalError>)
    modifies client
    ensures r == Evaluate(tokens, client.respond, h)
    ensures client.sent == old(client.sent) + Requests(tokens, [], client.respond, h)
  {
    var stack: seq<real> := [];
    for i := 0 to |tokens|
      invariant Exec(tokens[i..], stack, client.respond, h) == Exec(tokens, [], client.respond, h)
      invariant old(client.sent) + Requests(tokens, [], client.respond, h)
             == client.sent + Requests(tokens[i..], stack, client.respond, h)
    {
      assert tokens[i..][1..] == tokens[i + 1..];
      match tokens[i] {
        case Number(v) =>
          stack := stack + [v as real];
        case Operator(c) =>
          var applied := ApplyOperator(stack, c, client, h);
          if applied.Failure? {
            return Failure(applied.error);
          }
          stack := applied.value;
      }
    }
    if stack == [] {
      return Failure(NoSuchElement);
    }
    r := Success(stack[|stack| - 1]);
  }

  /** The loop body for an operator: pop b, then a, map the symbol, send the
      request and return the stack with the answer pushed. */
  method ApplyOperator(stack: seq<real>, c: char, client: CalculatorClient, h: Handling)
    returns (r: Result<seq<real>, EvalError>)
    modifies client
    ensures r == Apply(stack, Operator(c), client.respond, h)
    ensures client.sent == old(client.sent) + (if Prepare(stack, c).Success? then [Prepare(stack, c).value] else [])
  {
    if stack == [] {
      return Failure(NoSuchElement);
    }
    var b := stack[|stack| - 1];
    var rest := stack[..|stack| - 1];
    if rest == [] {
      return Failure(NoSuchElement);
    }
    var a := rest[|rest| - 1];
    rest := rest[..|rest| - 1];
    assert rest == stack[..|stack| - 2];
    var operation := MapOperator(c);
    if operation.Failure? {
      return Failure(operation.error);
    }
    var request := Request(a, operation.value, b);
    assert Prepare(stack, c) == Success(request);
    var response := client.Calculate(request);
    match response {
      case Success(x) =>
        r := Success(rest + [x]);
      case Failure(status) =>
        r := Failure(CallFailure(h, status, c, b));
    }
  }

  /** The newer service: calculator failures are classified. */
  class PostfixEvaluationService {
    const calculatorClient: CalculatorClient

    constructor (calculatorClient: CalculatorClient)
      ensures this.calculatorClient == calculatorClient
    {
      this.calculatorClient := calculatorClient;
    }

    method EvaluatePostfix(tokens: seq<Token>) returns (r: Result<real, EvalError>)
      modifies calculatorClient
      ensures r == Evaluate(tokens, calculatorClient.respond, Classify)
      ensures calculatorClient.sent == old(calculatorClient.sent) + Requests(tokens, [], calculatorClient.respond, Classify)
    {
      r := RunPostfix(tokens, calculatorClient, Classify);
    }
  }

  /** The older service: calculator failures pass through unchanged. */
  class EvaluateService {
    const calculatorClient: CalculatorClient

    constructor (calculatorClient: CalculatorClient)
      ensures this.calculatorClient == calculatorClient
    {
      this.calculatorClient := calculatorClient;
    }

    method EvaluatePostfix(postfix: seq<Token>) returns (r: Result<real, EvalError>)
      modifies calculatorClient
      ensures r == Evaluate(postfix, calculatorClient.respond, Propagate)
      ensures calculatorClient.sent == old(calculatorClient.sent) + Requests(postfix, [], calculatorClient.respond, Propagate)
    {
      r := RunPostfix(postfix, calculatorClient, Propagate);
    }
  }
}
