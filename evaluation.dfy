/**
  Postfix evaluation on an operand stack, as both evaluator services do it:
  a number is pushed; an operator pops b, then a, sends (a, operation, b)
  to the remote calculator and pushes the answer; the result is the top of
  the stack at the end. The remote calculator is a function parameter. The
  two services differ only in what a failed call becomes: the older one
  lets the status through, the newer one classifies it.

  The operand stack is a sequence whose LAST element is the top.
*/
module PostfixEvaluation {
  import opened Wrappers
  import opened Tokens
  import opened Calculator
  import opened Expressions

  /** The exceptions that end an evaluation, by Java class: a pop on an
      empty deque (NoSuchElementException), an operator the request builder
      cannot map (IllegalArgumentException), a calculator status let through
      (StatusRuntimeException) and a classified calculator failure
      (RuntimeException). */
  datatype EvalError =
    | NoSuchElement
    | IllegalArgument(message: string)
    | StatusFailure(status: Status)
    | RuntimeFailure(message: string)

  /** What a failed calculator call becomes: passed through unchanged, or
      classified into one of three runtime errors. */
  datatype Handling = Propagate | Classify

  /** The remote calculator as the evaluator sees it. */
  type CalculatorCall = (real, Operation, real) -> Result<real, Status>

  /** A calculator request: first operand, operation, second operand. */
  datatype Request = Request(a: real, operation: Operation, b: real)

  const UnknownOperatorPrefix: string := "Unknown operator: "
  const DivisionByZeroPrefix: string := "Division by zero error: "
  const InvalidOperationPrefix: string := "Invalid operation error: "
  const UnexpectedErrorPrefix: string := "Unexpected error from calculator service: "

  /** The operator character of each request operation. */
  function SymbolOf(operation: Operation): (c: char)
    requires operation != Unrecognized
    ensures IsArithmeticSymbol(c)
  {
    match operation
    case Add => '+'
    case Subtract => '-'
    case Multiply => '*'
    case Divide => '/'
  }

  /** The request operation of an operator character; every other
      character, the parentheses included, is rejected. */
  function MapOperator(symbol: char): (r: Result<Operation, EvalError>)
    ensures r.Success? <==> IsArithmeticSymbol(symbol)
    ensures r.Success? ==> r.value != Unrecognized && SymbolOf(r.value) == symbol
    ensures r.Failure? ==> r.error == IllegalArgument(UnknownOperatorPrefix + [symbol])
  {
    match symbol
    case '+' => Success(Add)
    case '-' => Success(Subtract)
    case '*' => Success(Multiply)
    case '/' => Success(Divide)
    case _ => Failure(IllegalArgument(UnknownOperatorPrefix + [symbol]))
  }

  /** Mapping is the inverse of SymbolOf: each of the four operations is
      reached from exactly its own character. */
  lemma MapOperatorRoundTrip(operation: Operation)
    requires operation != Unrecognized
    ensures MapOperator(SymbolOf(operation)) == Success(operation)
  {
  }

  /** The classification of a failed call: INVALID_ARGUMENT for a `/` whose
      divisor is zero is a division-by-zero error, any other
      INVALID_ARGUMENT an invalid-operation error, and every other status
      an unexpected error; each message ends with the status description. */
  function HandleGrpcException(status: Status, symbol: char, b: real): (e: EvalError)
    ensures e.RuntimeFailure?
    ensures DivisionByZeroPrefix <= e.message <==> status.code == InvalidArgument && symbol == '/' && b == 0.0
    ensures InvalidOperationPrefix <= e.message <==> status.code == InvalidArgument && !(symbol == '/' && b == 0.0)
    ensures UnexpectedErrorPrefix <= e.message <==> status.code != InvalidArgument
    ensures |status.description| <= |e.message|
    ensures e.message[|e.message| - |status.description|..] == status.description
    ensures |e.message| == |status.description| +
      if status.code == InvalidArgument then
        if symbol == '/' && b == 0.0 then |DivisionByZeroPrefix| else |InvalidOperationPrefix|
      else |UnexpectedErrorPrefix|
  {
    var prefix :=
      if status.code == InvalidArgument then
        if symbol == '/' && b == 0.0 then DivisionByZeroPrefix else InvalidOperationPrefix
      else UnexpectedErrorPrefix;
    var message := prefix + status.description;
    assert message[|prefix|..] == status.description;
    assert message[0] == prefix[0];
    assert DivisionByZeroPrefix[0] == 'D' && InvalidOperationPrefix[0] == 'I' && UnexpectedErrorPrefix[0] == 'U';
    RuntimeFailure(message)
  }

  /** What a failed call turns into under each handling. */
  function CallFailure(h: Handling, status: Status, symbol: char, b: real): (e: EvalError)
    ensures h == Propagate ==> e == StatusFailure(status)
    ensures h == Classify ==> e.RuntimeFailure?
  {
    if h == Propagate then StatusFailure(status) else HandleGrpcException(status, symbol, b)
  }

  /** The request an operator token builds: b is popped first, then a, so
      that a is the left operand; too few operands or an unknown operator
      fail before anything is sent. */
  function Prepare(stack: seq<real>, symbol: char): (r: Result<Request, EvalError>)
    ensures |stack| < 2 ==> r == Failure(NoSuchElement)
    ensures |stack| >= 2 ==> (r.Success? <==> IsArithmeticSymbol(symbol))
    ensures r.Success? ==> r.value.a == stack[|stack| - 2] && r.value.b == stack[|stack| - 1]
    ensures r.Success? ==> r.value.operation != Unrecognized && SymbolOf(r.value.operation) == symbol
  {
    if |stack| < 2 then Failure(NoSuchElement)
    else
      match MapOperator(symbol)
      case Failure(e) => Failure(e)
      case Success(operation) => Success(Request(stack[|stack| - 2], operation, stack[|stack| - 1]))
  }

  /** One token: a number is pushed; an operator replaces its two operands
      by the calculator's answer. */
  function Apply(stack: seq<real>, t: Token, calculate: CalculatorCall, h: Handling): (r: Result<seq<real>, EvalError>)
    ensures t.Number? ==> r == Success(stack + [t.value as real])
    ensures t.Operator? && r.Success? ==>
      && |stack| >= 2 && |r.value| == |stack| - 1
      && r.value[..|stack| - 2] == stack[..|stack| - 2]
      && IsArithmeticSymbol(t.symbol)
      && calculate(stack[|stack| - 2], MapOperator(t.symbol).value, stack[|stack| - 1]) == Success(r.value[|stack| - 2])
  {
    match t
    case Number(v) => Success(stack + [v as real])
    case Operator(c) =>
      match Prepare(stack, c)
      case Failure(e) => Failure(e)
      case Success(request) =>
        match calculate(request.a, request.operation, request.b)
        case Success(x) => Success(stack[..|stack| - 2] + [x])
        case Failure(status) => Failure(CallFailure(h, status, c, request.b))
  }

  /** The loop over the tokens: the final stack, or the first exception. */
  function Exec(tokens: seq<Token>, stack: seq<real>, calculate: CalculatorCall, h: Handling): Result<seq<real>, EvalError>
    decreases |tokens|
  {
    if tokens == [] then Success(stack)
    else
      match Apply(stack, tokens[0], calculate, h)
      case Failure(e) => Failure(e)
      case Success(next) => Exec(tokens[1..], next, calculate, h)
  }

  /** The evaluation result: the top of the final stack, whatever lies below
      it; an empty final stack fails like the pop it is. */
  function Evaluate(tokens: seq<Token>, calculate: CalculatorCall, h: Handling): Result<real, EvalError> {
    match Exec(tokens, [], calculate, h)
    case Failure(e) => Failure(e)
    case Success(stack) => if stack == [] then Failure(NoSuchElement) else Success(stack[|stack| - 1])
  }

  /** The requests sent to the calculator, in order, until the loop stops. */
  function Requests(tokens: seq<Token>, stack: seq<real>, calculate: CalculatorCall, h: Handling): seq<Request>
    decreases |tokens|
  {
    if tokens == [] then []
    else
      var t := tokens[0];
      var sent := if t.Operator? && Prepare(stack, t.symbol).Success? then [Prepare(stack, t.symbol).value] else [];
      match Apply(stack, t, calculate, h)
      case Failure(_) => sent
      case Success(next) => sent + Requests(tokens[1..], next, calculate, h)
  }

  function NumberCount(tokens: seq<Token>): nat {
    if tokens == [] then 0 else (if tokens[0].Number? then 1 else 0) + NumberCount(tokens[1..])
  }

  function OperatorCount(tokens: seq<Token>): nat {
    if tokens == [] then 0 else (if tokens[0].Operator? then 1 else 0) + OperatorCount(tokens[1..])
  }

  /** The operator characters of a token sequence, in order. */
  function OperatorSymbols(tokens: seq<Token>): seq<char> {
    if tokens == [] then []
    else (if tokens[0].Operator? then [tokens[0].symbol] else []) + OperatorSymbols(tokens[1..])
  }

  /** Running over a + b is running over a, then over b from where a left
      the stack; a failure in a ends the run. */
  lemma {:induction false} ExecAppend(a: seq<Token>, b: seq<Token>, stack: seq<real>, calculate: CalculatorCall, h: Handling)
    ensures Exec(a, stack, calculate, h).Failure? ==> Exec(a + b, stack, calculate, h) == Exec(a, stack, calculate, h)
    ensures Exec(a, stack, calculate, h).Success? ==> Exec(a + b, stack, calculate, h) == Exec(b, Exec(a, stack, calculate, h).value, calculate, h)
    decreases |a|
  {
    if a == [] {
      assert a + b == b;
    } else {
      assert (a + b)[1..] == a[1..] + b;
      assert (a + b)[0] == a[0];
      var step := Apply(stack, a[0], calculate, h);
      if step.Success? {
        ExecAppend(a[1..], b, step.value, calculate, h);
      }
    }
  }

  /** Stack height: each number adds one value, each operator takes two and
      gives one back. */
  lemma {:induction false} ExecHeight(tokens: seq<Token>, stack: seq<real>, calculate: CalculatorCall, h: Handling)
    requires Exec(tokens, stack, calculate, h).Success?
    ensures |Exec(tokens, stack, calculate, h).value| == |stack| + NumberCount(tokens) - OperatorCount(tokens)
    decreases |tokens|
  {
    if tokens != [] {
      ExecHeight(tokens[1..], Apply(stack, tokens[0], calculate, h).value, calculate, h);
    }
  }

  /** A run that succeeds from the empty stack over n numbers and n - 1
      operators leaves exactly one value. */
  lemma CompleteExpressionLeavesOne(tokens: seq<Token>, calculate: CalculatorCall, h: Handling)
    requires Exec(tokens, [], calculate, h).Success?
    requires NumberCount(tokens) == OperatorCount(tokens) + 1
    ensures |Exec(tokens, [], calculate, h).value| == 1
  {
    ExecHeight(tokens, [], calculate, h);
  }

  /** The operators never run out of operands, starting from height values. */
  predicate Fits(tokens: seq<Token>, height: nat)
    decreases |tokens|
  {
    tokens == []
    || if tokens[0].Number? then Fits(tokens[1..], height + 1)
       else height >= 2 && Fits(tokens[1..], height - 1)
  }

  /** Every operator token is one of `+ - * /`. */
  predicate AllArithmetic(tokens: seq<Token>) {
    forall i :: 0 <= i < |tokens| && tokens[i].Operator? ==> IsArithmeticSymbol(tokens[i].symbol)
  }

  /** A calculator that answers every request it can be sent. */
  ghost predicate Total(calculate: CalculatorCall) {
    forall a, operation, b :: operation != Unrecognized ==> calculate(a, operation, b).Success?
  }

  /** With a calculator that always answers and only arithmetic operators,
      the run succeeds exactly when no operator finds fewer than two
      operands. */
  lemma {:induction false} ExecSucceedsIffFits(tokens: seq<Token>, stack: seq<real>, calculate: CalculatorCall, h: Handling)
    requires Total(calculate) && AllArithmetic(tokens)
    ensures Exec(tokens, stack, calculate, h).Success? <==> Fits(tokens, |stack|)
    decreases |tokens|
  {
    if tokens != [] {
      var t := tokens[0];
      assert AllArithmetic(tokens[1..]) by {
        forall i | 0 <= i < |tokens[1..]| && tokens[1..][i].Operator?
          ensures IsArithmeticSymbol(tokens[1..][i].symbol)
        {
          assert tokens[1..][i] == tokens[i + 1];
        }
      }
      if t.Number? {
        ExecSucceedsIffFits(tokens[1..], stack + [t.value as real], calculate, h);
      } else if |stack| >= 2 {
        assert IsArithmeticSymbol(t.symbol) by {
          assert tokens[0].Operator?;
        }
        var request := Prepare(stack, t.symbol).value;
        assert calculate(request.a, request.operation, request.b).Success?;
        var next := Apply(stack, t, calculate, h).value;
        ExecSucceedsIffFits(tokens[1..], next, calculate, h);
      }
    }
  }

  /** Values below the operands an expression uses are never touched: a run
      that succeeds on a stack succeeds the same way with more values
      underneath. */
  lemma {:induction false} ExecFrame(tokens: seq<Token>, base: seq<real>, stack: seq<real>, calculate: CalculatorCall, h: Handling)
    requires Exec(tokens, stack, calculate, h).Success?
    ensures Exec(tokens, base + stack, calculate, h) == Success(base + Exec(tokens, stack, calculate, h).value)
    decreases |tokens|
  {
    if tokens == [] {
    } else {
      var t := tokens[0];
      var next := Apply(stack, t, calculate, h).value;
      assert Apply(base + stack, t, calculate, h) == Success(base + next) by {
        ApplyFrame(t, base, stack, calculate, h);
      }
      ExecFrame(tokens[1..], base, next, calculate, h);
    }
  }

  lemma ApplyFrame(t: Token, base: seq<real>, stack: seq<real>, calculate: CalculatorCall, h: Handling)
    requires Apply(stack, t, calculate, h).Success?
    ensures Apply(base + stack, t, calculate, h) == Success(base + Apply(stack, t, calculate, h).value)
  {
    var whole := base + stack;
    if t.Number? {
      assert whole + [t.value as real] == base + (stack + [t.value as real]);
    } else {
      var n, m := |stack|, |whole|;
      assert whole[m - 1] == stack[n - 1] && whole[m - 2] == stack[n - 2];
      var request := Prepare(stack, t.symbol).value;
      assert Prepare(whole, t.symbol) == Success(request);
      var x := calculate(request.a, request.operation, request.b).value;
      assert Apply(stack, t, calculate, h) == Success(stack[..n - 2] + [x]);
      assert Apply(whole, t, calculate, h) == Success(whole[..m - 2] + [x]);
      assert whole[..m - 2] + [x] == base + (stack[..n - 2] + [x]);
    }
  }

  /** So the returned value ignores everything left below the top: values
      pushed ahead of a complete expression do not change its result. */
  lemma ResultIgnoresValuesBelow(prefix: seq<Token>, tokens: seq<Token>, calculate: CalculatorCall, h: Handling)
    requires Exec(prefix, [], calculate, h).Success?
    requires Exec(tokens, [], calculate, h).Success? && Exec(tokens, [], calculate, h).value != []
    ensures Evaluate(prefix + tokens, calculate, h) == Evaluate(tokens, calculate, h)
  {
    var below := Exec(prefix, [], calculate, h).value;
    ExecAppend(prefix, tokens, [], calculate, h);
    ExecFrame(tokens, below, [], calculate, h);
    assert below + [] == below;
  }

  /** Both services agree except in what a failed calculator call becomes:
      where the older one passes a status through, the newer one raises a
      classified runtime error. */
  lemma {:induction false} HandlingsAgree(tokens: seq<Token>, stack: seq<real>, calculate: CalculatorCall)
    ensures var p, c := Exec(tokens, stack, calculate, Propagate), Exec(tokens, stack, calculate, Classify);
      && (p.Success? <==> c.Success?)
      && (p.Success? ==> p == c)
      && (p.Failure? && !p.error.StatusFailure? ==> p == c)
      && (p.Failure? && p.error.StatusFailure? ==> c.Failure? && c.error.RuntimeFailure?)
      && (c.Failure? && c.error.RuntimeFailure? ==> p.Failure? && p.error.StatusFailure?)
    decreases |tokens|
  {
    if tokens != [] {
      var t := tokens[0];
      var p, c := Apply(stack, t, calculate, Propagate), Apply(stack, t, calculate, Classify);
      if t.Operator? && Prepare(stack, t.symbol).Success? {
        var request := Prepare(stack, t.symbol).value;
        if calculate(request.a, request.operation, request.b).Success? {
          assert p == c;
          HandlingsAgree(tokens[1..], p.value, calculate);
        }
      } else if t.Number? {
        HandlingsAgree(tokens[1..], p.value, calculate);
      }
    }
  }

  /** With the four-function calculator itself behind the evaluator, the
      only classified error is division by zero. */
  lemma {:induction false} OnlyDivisionByZeroIsClassified(tokens: seq<Token>, stack: seq<real>)
    requires Exec(tokens, stack, Compute, Classify).Failure?
    requires Exec(tokens, stack, Compute, Classify).error.RuntimeFailure?
    ensures Exec(tokens, stack, Compute, Classify).error.message == DivisionByZeroPrefix + DivisionByZeroMessage
    decreases |tokens|
  {
    var t := tokens[0];
    var step := Apply(stack, t, Compute, Classify);
    if step.Success? {
      OnlyDivisionByZeroIsClassified(tokens[1..], step.value);
    } else {
      var request := Prepare(stack, t.symbol).value;
      var status := Compute(request.a, request.operation, request.b).error;
      assert request.operation == Divide && request.b == 0.0;
      assert status == Status(InvalidArgument, DivisionByZeroMessage);
    }
  }

  /** Each calculator request carries the operation of the operator token
      that sent it, in order: a run that succeeds sends one request per
      operator, and none for a number. */
  lemma {:induction false} OneRequestPerOperator(tokens: seq<Token>, stack: seq<real>, calculate: CalculatorCall, h: Handling)
    requires Exec(tokens, stack, calculate, h).Success?
    ensures var sent := Requests(tokens, stack, calculate, h);
      && |sent| == OperatorCount(tokens) == |OperatorSymbols(tokens)|
      && forall i :: 0 <= i < |sent| ==>
           sent[i].operation != Unrecognized && SymbolOf(sent[i].operation) == OperatorSymbols(tokens)[i]
    decreases |tokens|
  {
    if tokens != [] {
      var t := tokens[0];
      var next := Apply(stack, t, calculate, h).value;
      OneRequestPerOperator(tokens[1..], next, calculate, h);
    }
  }

  /** The value of a tree, evaluated left operand first, with the same
      operator mapping and failure handling as the loop. */
  function EvalTree(e: Expr, calculate: CalculatorCall, h: Handling): Result<real, EvalError> {
    match e
    case Lit(v) => Success(v as real)
    case Bin(l, o, r) =>
      match EvalTree(l, calculate, h)
      case Failure(err) => Failure(err)
      case Success(x) =>
        match EvalTree(r, calculate, h)
        case Failure(err) => Failure(err)
        case Success(y) => Combine(x, o, y, calculate, h)
  }

  /** One operator applied to the values of its operands. */
  function Combine(x: real, o: char, y: real, calculate: CalculatorCall, h: Handling): Result<real, EvalError> {
    match MapOperator(o)
    case Failure(err) => Failure(err)
    case Success(operation) =>
      match calculate(x, operation, y)
      case Success(z) => Success(z)
      case Failure(status) => Failure(CallFailure(h, status, o, y))
  }

  /** An operator token above two values combines them, or stops the run. */
  lemma ExecOperator(x: real, o: char, y: real, rest: seq<Token>, stack: seq<real>, calculate: CalculatorCall, h: Handling)
    ensures var c := Combine(x, o, y, calculate, h);
      && (c.Failure? ==> Exec([Operator(o)] + rest, stack + [x] + [y], calculate, h) == Failure(c.error))
      && (c.Success? ==> Exec([Operator(o)] + rest, stack + [x] + [y], calculate, h) == Exec(rest, stack + [c.value], calculate, h))
  {
    var two := stack + [x] + [y];
    assert ([Operator(o)] + rest)[1..] == rest;
    assert two[..|two| - 2] == stack;
    assert two[|two| - 2] == x && two[|two| - 1] == y;
  }

  /** Evaluating a tree's postfix spelling pushes exactly the tree's value,
      or stops with the tree's failure. */
  lemma {:induction false} ExecTree(e: Expr, rest: seq<Token>, stack: seq<real>, calculate: CalculatorCall, h: Handling)
    ensures EvalTree(e, calculate, h).Failure? ==> Exec(PostfixOf(e) + rest, stack, calculate, h) == Failure(EvalTree(e, calculate, h).error)
    ensures EvalTree(e, calculate, h).Success? ==> Exec(PostfixOf(e) + rest, stack, calculate, h) == Exec(rest, stack + [EvalTree(e, calculate, h).value], calculate, h)
  {
    match e
    case Lit(v) =>
      assert (PostfixOf(e) + rest)[1..] == rest;
    case Bin(l, o, r) =>
      var op := [Operator(o)];
      assert PostfixOf(e) + rest == PostfixOf(l) + (PostfixOf(r) + (op + rest));
      ExecTree(l, PostfixOf(r) + (op + rest), stack, calculate, h);
      if EvalTree(l, calculate, h).Success? {
        var x := EvalTree(l, calculate, h).value;
        ExecTree(r, op + rest, stack + [x], calculate, h);
        if EvalTree(r, calculate, h).Success? {
          ExecOperator(x, o, EvalTree(r, calculate, h).value, rest, stack, calculate, h);
        }
      }
  }

  /** The result of evaluating a tree's postfix spelling is the tree's value. */
  lemma EvaluateTree(e: Expr, calculate: CalculatorCall, h: Handling)
    ensures Evaluate(PostfixOf(e), calculate, h) == EvalTree(e, calculate, h)
  {
    ExecTree(e, [], [], calculate, h);
    assert PostfixOf(e) + [] == PostfixOf(e);
  }
}
