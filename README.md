# calc: tokenizer, converter, evaluator, calculator and generator in Dafny

A model of the infix calculator pipeline of the `calc` services. It has five parts:

- The tokenizer scans a string into number and operator tokens.
- The shunting-yard converter turns the infix tokens into postfix.
- Two evaluator services run the postfix tokens on an operand stack. They send each operator to a remote four-function calculator.
- The calculator service computes one operation and answers through a response observer.
- The generator builds random space-separated expressions.

Layout, one module per file:

- `tokens.dfy` (Tokens): the token datatype and its character classes.
- `tokenizer.dfy` (Tokenizer): `Lex`, a recursive reference scan, and `Tokenize`, the imperative scan proved equal to it. It also holds `Render`, the space-separated spelling the tests use.
- `postfix.dfy` (Postfix): the converter as functions (`PopWhile`, `Step`, `Steps`, `ToPostfix`) and as the imperative `ConvertToPostfix`, plus its invariants.
- `expressions.dfy` (Expressions): expression trees, their infix and postfix spellings, and `Parse`, which gives the tree that precedence and left-to-right grouping assign to bracket-free tokens.
- `postfix_correctness.dfy` (PostfixCorrectness): the converter emits the postfix spelling of that tree.
- `calculator.dfy` (Calculator): the calculator's switch, its statuses, and the service method over a response-observer class.
- `evaluation.dfy` (PostfixEvaluation): the evaluation loop as functions. The remote calculator is a function parameter, and a `Handling` parameter says what a failed call becomes.
- `evaluators.dfy` (Evaluators): the blocking client and both evaluator services as classes, whose loop is proved against those functions.
- `generator.dfy` (Generator): the generator loop, with the random draws given as an input sequence.
- `pipeline.dfy` (Pipeline): end-to-end theorems, the converter test's golden values, and examples.

Two behaviours of the code that a reader might not expect, modelled as written:

- The converter does not match brackets, as the comment at `tokenizer/src/main/java/example/calc/generator/Util.java:38` says. `(` and `)` have precedence -1. Each one pops the whole operator stack and is then pushed and emitted like any operator. So `"(2 + 3) * 4"` converts to `2 3 + ( 4 * )`, and the evaluator then fails with `NoSuchElementException` under the `(` instead of giving 20.
- The evaluator returns the top of the final stack without checking that exactly one value remains (`evaluator/src/main/java/example/calc/evaluator/PostfixEvaluationService.java:52`). Surplus operands are ignored: `1 2` evaluates to 2.

Model decisions:

- Stacks are sequences whose last element is the top.
- Number tokens hold `nat` values. Doubles are `real` values.
- A failure is a `Result` carrying the Java exception that would be thrown.

## Model

| member | source | states |
|---|---|---|
| Tokenizer.Tokenize | tokenizer/src/main/java/example/calc/generator/Util.java:17-31 | the match loop returns exactly the left-to-right maximal-munch scan `Lex` of the input |
| Tokenizer.MatchDigits | tokenizer/src/main/java/example/calc/generator/Util.java:18-25 | a `\d+` match at a digit runs to the first non-digit, and its value is the run's decimal value |
| Tokenizer.DigitRun | tokenizer/src/main/java/example/calc/generator/Util.java:18 | the greedy digit run at the front is all digits and is followed by a non-digit or the end |
| Tokenizer.LexAtDigitRun | tokenizer/src/main/java/example/calc/generator/Util.java:22-25 | at a maximal digit run the scan emits one number holding the run's value, then continues after the run |
| Tokenizer.LexAtNonDigit | tokenizer/src/main/java/example/calc/generator/Util.java:22-28 | at any other character the scan emits an operator for one of `+ - * / ( )` and nothing otherwise, then continues one character on |
| Tokenizer.LexWellFormed | tokenizer/src/main/java/example/calc/generator/Util.java:18-28 | every token is a natural number or an operator whose symbol is one of `+ - * / ( )` |
| Tokenizer.LexDigitRun | tokenizer/src/main/java/example/calc/generator/Util.java:18-25 | a maximal digit run becomes exactly one number with its decimal value, and a `-` before it stays a separate operator token |
| Tokenizer.LexAppend | tokenizer/src/main/java/example/calc/generator/Util.java:22-29 | tokens come out in input order: scanning a + b gives the tokens of a, then those of b, unless a digit run spans the seam |
| Tokenizer.DecimalDigitsValue | tokenizer/src/main/java/example/calc/generator/Util.java:25 | parsing the decimal spelling of n gives n back |
| Tokenizer.LexTokenText | tokenizer/src/main/java/example/calc/generator/Util.java:22-28 | scanning one token's spelling gives back exactly that token |
| Tokenizer.LexSeparated | tokenizer/src/main/java/example/calc/generator/Util.java:22-28 | a token's spelling followed by a space scans to that token, then the scan of the rest |
| Tokenizer.LexRender | tokenizer/src/test/java/example/calc/generator/UtilTest.java:24-32 | for every list of well-formed tokens, scanning its space-separated spelling gives the list back: `Lex(Render(ts)) == ts`. This is the list the test builds by splitting on spaces whenever that split succeeds; the test's split throws on an empty list or a list holding `(` or `)` |
| Postfix.Precedence | tokenizer/src/main/java/example/calc/generator/Util.java:57-63 | the precedence is 1 or 2 exactly for `+ - * /`, and -1 for every other symbol |
| Postfix.PopWhile | tokenizer/src/main/java/example/calc/generator/Util.java:43-45 | pops the longest top part whose precedences are at least p and appends it to the output top first; what stays is a prefix of the stack whose top is below p |
| Postfix.PopOne | tokenizer/src/main/java/example/calc/generator/Util.java:43-44 | popping the top, then popping the rest of the stack, pops the whole top part in reverse |
| Postfix.ConvertToPostfix | tokenizer/src/main/java/example/calc/generator/Util.java:33-55 | the imperative converter returns exactly `ToPostfix` of its input |
| Postfix.StepsAppend | tokenizer/src/main/java/example/calc/generator/Util.java:39-48 | the loop over a + b is the loop over a, then over b from the state a left |
| Postfix.FlushAll | tokenizer/src/main/java/example/calc/generator/Util.java:50-52 | the final loop empties the operator stack onto the output top first |
| Postfix.ToPostfixPermutation | tokenizer/src/main/java/example/calc/generator/Util.java:39-54 | the output is a permutation of the input: same length and same multiset of tokens |
| Postfix.StepsMultiset | tokenizer/src/main/java/example/calc/generator/Util.java:39-48 | at every point, the stack and the output together hold exactly the tokens handled so far |
| Postfix.ToPostfixKeepsNumberOrder | tokenizer/src/main/java/example/calc/generator/Util.java:40-41 | number tokens come out in the same relative order as they went in |
| Postfix.StepsKeepIncreasing | tokenizer/src/main/java/example/calc/generator/Util.java:43-46 | precedences on the operator stack strictly increase from bottom to top after every token |
| Postfix.OperatorStackBound | tokenizer/src/main/java/example/calc/generator/Util.java:43-46 | the operator stack never holds more than three operators |
| Postfix.PushOver | tokenizer/src/main/java/example/calc/generator/Util.java:43-46 | an operator binding more tightly than the stack top, or meeting an empty stack, is pushed and nothing is popped |
| Postfix.BracketFlushes | tokenizer/src/main/java/example/calc/generator/Util.java:38-46 | a bracket (any symbol outside `+ - * /`) pops the whole stack onto the output and is then pushed: brackets are not matched |
| Postfix.BracketsAreNotMatched | tokenizer/src/main/java/example/calc/generator/Util.java:38-61 | `( 2 + 3 ) * 4` converts to `2 3 + ( 4 * )` |
| Expressions.Parse | tokenizer/src/main/java/example/calc/generator/Util.java:57-62 | every alternating number/operator sequence is the infix spelling of a sum-of-products tree grouped to the left |
| PostfixCorrectness.StepsOverTree | tokenizer/src/main/java/example/calc/generator/Util.java:39-48 | on a tree's infix tokens, over a stack of looser operators, the loop emits the tree's finished parts and leaves its right-spine operators on the stack |
| PostfixCorrectness.EmittedThenWaiting | tokenizer/src/main/java/example/calc/generator/Util.java:50-52 | flushing the waiting operators completes the tree's postfix spelling |
| PostfixCorrectness.FlushWaiting | tokenizer/src/main/java/example/calc/generator/Util.java:43-45 | an operator no tighter than a tree's root pops exactly that tree's waiting operators |
| PostfixCorrectness.ToPostfixOfTree | tokenizer/src/main/java/example/calc/generator/Util.java:33-55 | on bracket-free input the converter returns the postfix spelling of the precedence tree |
| PostfixCorrectness.ToPostfixOfAlternating | tokenizer/src/main/java/example/calc/generator/Util.java:33-55 | every bracket-free alternating token sequence converts to the postfix spelling of its parsed tree |
| PostfixCorrectness.Associativity | tokenizer/src/main/java/example/calc/generator/Util.java:43 | with equal or lower precedence on the right, `x o1 y o2 z` groups to the left; with higher precedence on the right, `o2` is emitted first |
| PostfixCorrectness.ArithmeticPrecedence | tokenizer/src/main/java/example/calc/generator/Util.java:57-62 | `*` and `/` are exactly the precedence-2 symbols, and `+` and `-` exactly the precedence-1 symbols |
| Calculator.Compute | calculator/src/main/java/example/calc/calculator/CalculatorService.java:38-47 | fails exactly for an unrecognized operation or a zero divisor; a zero divisor gives INVALID_ARGUMENT "Division by zero is not allowed", and every other failure INTERNAL |
| Calculator.AddSubtractInverse | calculator/src/main/java/example/calc/calculator/CalculatorService.java:39-40 | ADD and SUBTRACT always succeed and undo each other |
| Calculator.MultiplyDivideInverse | calculator/src/main/java/example/calc/calculator/CalculatorService.java:41-45 | for b ≠ 0, DIVIDE undoes MULTIPLY and MULTIPLY undoes DIVIDE |
| Calculator.Delivery | calculator/src/main/java/example/calc/calculator/CalculatorService.java:50-73 | an outcome is delivered as a non-empty event list whose last event, and only that one, is terminal (onCompleted or onError); every onNext carries the computed result, a result ends with onCompleted and a failure with onError of its status |
| Calculator.ExactlyOneOutcome | calculator/src/main/java/example/calc/calculator/CalculatorService.java:50-73 | each call ends either with onNext and onCompleted or with a single onError, and with a result exactly when the operation is valid and the divisor is not zero |
| Calculator.Calculate | calculator/src/main/java/example/calc/calculator/CalculatorService.java:26-74 | the observer receives exactly the delivery of the computed outcome, appended to what it had |
| PostfixEvaluation.MapOperator | evaluator/src/main/java/example/calc/evaluator/PostfixEvaluationService.java:55-63 | succeeds exactly for `+ - * /`, with the operation whose symbol is that character; any other symbol fails with IllegalArgumentException "Unknown operator: " and the symbol (the copy at EvaluateService.java:97-105 is identical) |
| PostfixEvaluation.MapOperatorRoundTrip | evaluator/src/main/java/example/calc/evaluator/PostfixEvaluationService.java:55-62 | each of the four operations is mapped from exactly its own symbol |
| PostfixEvaluation.HandleGrpcException | evaluator/src/main/java/example/calc/evaluator/PostfixEvaluationService.java:65-74 | INVALID_ARGUMENT with `/` and b = 0 gives a division-by-zero error, any other INVALID_ARGUMENT an invalid-operation error, and every other status an unexpected error; the message is exactly the chosen prefix followed by the status description |
| PostfixEvaluation.CallFailure | evaluator/src/main/java/example/calc/evaluator/PostfixEvaluationService.java:43-49 | the older service passes the status through unchanged, and the newer one turns it into a runtime error |
| PostfixEvaluation.Prepare | evaluator/src/main/java/example/calc/evaluator/PostfixEvaluationService.java:34-41 | b is popped first and a second, so the request is (a, operation, b); fewer than two operands fail with NoSuchElementException, and an unknown symbol fails when mapped |
| PostfixEvaluation.Apply | evaluator/src/main/java/example/calc/evaluator/PostfixEvaluationService.java:30-50 | a number is pushed; an operator replaces its two operands by the calculator's answer and leaves the values below them untouched |
| PostfixEvaluation.ExecAppend | evaluator/src/main/java/example/calc/evaluator/PostfixEvaluationService.java:30-51 | the loop over a + b is the loop over a, then over b, and a failure in a ends it |
| PostfixEvaluation.ExecHeight | evaluator/src/main/java/example/calc/evaluator/PostfixEvaluationService.java:30-46 | after a successful run, the stack height is the start height plus numbers minus operators |
| PostfixEvaluation.CompleteExpressionLeavesOne | evaluator/src/main/java/example/calc/evaluator/PostfixEvaluationService.java:30-46 | a successful run over n numbers and n - 1 operators ends with one value |
| PostfixEvaluation.ExecSucceedsIffFits | evaluator/src/main/java/example/calc/evaluator/PostfixEvaluationService.java:34-35 | with a calculator that always answers, when every operator is one of `+ - * /`, a run succeeds exactly when no operator finds fewer than two operands |
| PostfixEvaluation.ExecFrame | evaluator/src/main/java/example/calc/evaluator/PostfixEvaluationService.java:30-50 | values below the operands a run uses are left untouched |
| PostfixEvaluation.ApplyFrame | evaluator/src/main/java/example/calc/evaluator/PostfixEvaluationService.java:31-45 | one token leaves the values below its operands untouched |
| PostfixEvaluation.ResultIgnoresValuesBelow | evaluator/src/main/java/example/calc/evaluator/PostfixEvaluationService.java:52 | values left below the top are ignored, not rejected: a complete expression after other values gives its own result |
| PostfixEvaluation.HandlingsAgree | evaluator/src/main/java/example/calc/evaluator/EvaluateService.java:90-91 | the two services give the same stack and the same failure, except that a failed call is the calculator status in the older one and a classified runtime error in the newer one |
| PostfixEvaluation.OnlyDivisionByZeroIsClassified | evaluator/src/main/java/example/calc/evaluator/PostfixEvaluationService.java:65-74 | with the four-function calculator behind it, the newer service's only classified error is "Division by zero error: Division by zero is not allowed" |
| PostfixEvaluation.OneRequestPerOperator | evaluator/src/main/java/example/calc/evaluator/PostfixEvaluationService.java:30-45 | a successful run sends one request per operator token and none per number, in order, each with its token's operation |
| PostfixEvaluation.ExecOperator | evaluator/src/main/java/example/calc/evaluator/PostfixEvaluationService.java:33-49 | an operator above two values replaces them by their combination, or ends the run with its failure |
| PostfixEvaluation.ExecTree | evaluator/src/main/java/example/calc/evaluator/PostfixEvaluationService.java:30-50 | running a tree's postfix spelling pushes exactly the tree's value, or stops with the tree's failure |
| PostfixEvaluation.EvaluateTree | evaluator/src/main/java/example/calc/evaluator/PostfixEvaluationService.java:26-53 | evaluating a tree's postfix spelling gives the tree's value |
| Evaluators.CalculatorClient.Calculate | evaluator/src/main/java/example/calc/evaluator/PostfixEvaluationService.java:44 | the blocking stub answers with the calculator's reply; a ghost log `sent`, which the Java stub does not keep, records the request so that contracts can speak about the calls made |
| Evaluators.RunPostfix | evaluator/src/main/java/example/calc/evaluator/PostfixEvaluationService.java:26-53 | the imperative loop returns `Evaluate` of the tokens and sends exactly `Requests` of them to the client |
| Evaluators.ApplyOperator | evaluator/src/main/java/example/calc/evaluator/PostfixEvaluationService.java:33-49 | the operator step returns `Apply` of the stack and sends one request exactly when the operands and the symbol allow it |
| Evaluators.PostfixEvaluationService.EvaluatePostfix | evaluator/src/main/java/example/calc/evaluator/PostfixEvaluationService.java:26-53 | the newer service evaluates with failed calls classified |
| Evaluators.EvaluateService.EvaluatePostfix | evaluator/src/main/java/example/calc/evaluator/EvaluateService.java:74-95 | the older service evaluates with failed calls passed through |
| Generator.Item | generator/src/main/java/example/calc/generator/Util.java:14-17 | an item at an even index is a number from 1 to 9, and at an odd index one of `+ - * /` |
| Generator.Items | generator/src/main/java/example/calc/generator/Util.java:13-18 | the first n items, item i made from draw i |
| Generator.Trim | generator/src/main/java/example/calc/generator/Util.java:21 | the result is a slice of the input with no blank (a character at most `' '`) at either end, and everything cut off before and after it is blank |
| Generator.GenerateRandomExpression | generator/src/main/java/example/calc/generator/Util.java:7-22 | length ≤ 0 gives the empty string; otherwise the items joined by single spaces |
| Generator.SpacedItems | generator/src/main/java/example/calc/generator/Util.java:13-20 | each pass of the loop appends the next item's text and one space |
| Generator.TrimBuilder | generator/src/main/java/example/calc/generator/Util.java:19-21 | trimming the builder removes exactly the trailing space |
| Generator.GeneratedShape | generator/src/main/java/example/calc/generator/Util.java:13-21 | for length n ≥ 1 the text has 2n - 1 characters, spaces at odd positions, a digit 1-9 at position 2k for even k and an operator for odd k |
| Generator.ItemTexts | generator/src/main/java/example/calc/generator/Util.java:14-17 | every item is spelled with one character: a digit 1-9 for a number, one of `+ - * /` otherwise |
| Generator.LexGenerated | generator/src/main/java/example/calc/generator/Util.java:13-21 | the tokenizer scans the generated text back to exactly the drawn items |
| Generator.GeneratedForm | generator/src/main/java/example/calc/generator/Util.java:12-18 | an odd length gives a bracket-free expression that starts and ends with a number; an even length ends with an operator |
| Pipeline.EvaluateConverted | evaluator/src/main/java/example/calc/evaluator/PostfixEvaluationService.java:26-53 | on bracket-free input, evaluating the converter's output gives the value of the precedence tree, for any calculator and either handling |
| Pipeline.LexRenderAlternating | tokenizer/src/test/java/example/calc/generator/UtilTest.java:24-32 | the spelling of a bracket-free expression scans back to its tokens |
| Pipeline.EvaluateRendered | tokenizer/src/main/java/example/calc/generator/Util.java:17-55 | scanning and converting the spelling of a bracket-free expression gives the tree's postfix spelling, and evaluating it gives the tree's value |
| Pipeline.TestTreeInfix | tokenizer/src/test/java/example/calc/generator/UtilTest.java:16 | the test's infix tokens spell a sum-of-products tree |
| Pipeline.TestTreePostfix | tokenizer/src/test/java/example/calc/generator/UtilTest.java:17 | the test's expected postfix tokens are that tree's postfix spelling |
| Pipeline.ScanTestCase | tokenizer/src/test/java/example/calc/generator/UtilTest.java:34-41 | the tokenizer reproduces both hand-built token lists from their strings |
| Pipeline.InfixSpelling | tokenizer/src/test/java/example/calc/generator/UtilTest.java:16 | the space-separated spelling of the infix token list is the test's input string |
| Pipeline.PostfixSpelling | tokenizer/src/test/java/example/calc/generator/UtilTest.java:17 | the space-separated spelling of the postfix token list is the test's expected string |
| Pipeline.SpellOneCharTokens | tokenizer/src/test/java/example/calc/generator/UtilTest.java:24-32 | one-character tokens render to the string with their characters at even positions and spaces between, the format the test splits |
| Pipeline.ScanTestStrings | tokenizer/src/test/java/example/calc/generator/UtilTest.java:34-41 | the tokenizer scans the test's two literal strings to exactly its two token lists |
| Pipeline.ConvertTestCase | tokenizer/src/test/java/example/calc/generator/UtilTest.java:43-49 | the test's infix tokens convert to exactly the expected postfix tokens |
| Pipeline.TestCaseValue | tokenizer/src/test/java/example/calc/generator/UtilTest.java:17 | evaluating the expected postfix tokens against the calculator gives 50 |
| Pipeline.BracketedEvaluation | evaluator/src/main/java/example/calc/evaluator/PostfixEvaluationService.java:34-35 | the converted `(2 + 3) * 4` fails with NoSuchElementException, because the `(` finds one operand |
| Pipeline.DivisionByZero | evaluator/src/main/java/example/calc/evaluator/PostfixEvaluationService.java:65-70 | `5 0 /` fails with "Division by zero error: Division by zero is not allowed" in the newer service and with the INVALID_ARGUMENT status in the older one |
| Pipeline.SurplusOperands | evaluator/src/main/java/example/calc/evaluator/PostfixEvaluationService.java:52 | `1 2` evaluates to 2: the top is returned and the value below it is ignored |

## Left out

- Transport and plumbing are not modelled: gRPC, REST, the controllers, the client configuration, the REST `tokenize` and the gRPC `evaluate` wrapper of the older service. The blocking stub is a class whose reply is a function parameter.
- Logging, tracing spans, metrics and the `sleep` in the calculator are not modelled.
- Concurrency is not modelled: executors and context propagation.
- Doubles are modelled as exact reals, with no rounding, NaN, infinity or negative zero. `Double.parseDouble` of a digit run is its exact natural-number value, even for runs too long for a double.
- `java.util.Random` is replaced by a sequence of draws given as input. `ValidDraws` requires each draw to lie in the range `nextInt` promises.
- HandleGrpcException: the operand `a` is left out, because the source never reads it.
- HandleGrpcException: a missing status description is not modelled. Java would concatenate it as "null"; here every status carries a string description.
- Calculator.Compute: a request whose operation is not one of the four, including the protobuf UNRECOGNIZED value, is the one constructor `Unrecognized`.
- Tokenizer.Tokenize: the regular-expression engine is not modelled. The digit run is matched by the loop in `MatchDigits`, and every other character is tested directly against the six operator characters.
