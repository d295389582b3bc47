/**
  The infix-to-postfix converter: a shunting-yard pass with a precedence
  table and no bracket matching. `(` and `)` have the lowest precedence and
  are treated as ordinary operators: each one flushes the operator stack and
  is itself pushed, to be emitted later like any other operator.

  The operator stack is a sequence whose LAST element is the top.
*/
module Postfix {
  import opened Tokens

  /** The precedence table: 1 for `+` and `-`, 2 for `*` and `/`, -1 for
      every other symbol (the parentheses). */
  function Precedence(symbol: char): (p: int)
    ensures p == -1 || p == 1 || p == 2
    ensures p >= 1 <==> IsArithmeticSymbol(symbol)
  {
    match symbol
    case '+' => 1
    case '-' => 1
    case '*' => 2
    case '/' => 2
    case _ => -1
  }

  /** Pops every operator whose precedence is at least p off the top of the
      stack onto the output, stopping at the first one below p. */
  function PopWhile(stack: seq<Token>, out: seq<Token>, p: int): (r: (seq<Token>, seq<Token>))
    requires AllOperators(stack)
    ensures |r.0| <= |stack| && r.0 == stack[..|r.0|]
    ensures r.1 == out + Reverse(stack[|r.0|..])
    ensures r.0 != [] ==> Precedence(r.0[|r.0| - 1].symbol) < p
    ensures forall i :: |r.0| <= i < |stack| ==> Precedence(stack[i].symbol) >= p
    decreases |stack|
  {
    if stack != [] && Precedence(stack[|stack| - 1].symbol) >= p then
      var r := PopWhile(stack[..|stack| - 1], out + [stack[|stack| - 1]], p);
      PopOne(stack, out, p, r.0, r.1);
      r
    else
      (stack, out)
  }

  /** What popping the rest of the stack gives, once its top has been
      popped, is what popping the whole stack gives. */
  lemma PopOne(stack: seq<Token>, out: seq<Token>, p: int, kept: seq<Token>, emitted: seq<Token>)
    requires AllOperators(stack) && stack != [] && Precedence(stack[|stack| - 1].symbol) >= p
    requires |kept| <= |stack| - 1 && kept == stack[..|kept|]
    requires emitted == out + [stack[|stack| - 1]] + Reverse(stack[|kept|..|stack| - 1])
    requires forall i :: |kept| <= i < |stack| - 1 ==> Precedence(stack[i].symbol) >= p
    ensures emitted == out + Reverse(stack[|kept|..])
    ensures forall i :: |kept| <= i < |stack| ==> Precedence(stack[i].symbol) >= p
  {
    var top := stack[|stack| - 1];
    ReverseAppend(stack[|kept|..|stack| - 1], [top]);
    assert stack[|kept|..] == stack[|kept|..|stack| - 1] + [top];
    assert Reverse([top]) == [top];
  }

  /** What the converter does with one token, given the stack and output. */
  function Step(stack: seq<Token>, out: seq<Token>, t: Token): (r: (seq<Token>, seq<Token>))
    requires AllOperators(stack)
    ensures AllOperators(r.0)
  {
    match t
    case Number(_) => (stack, out + [t])
    case Operator(c) =>
      var popped := PopWhile(stack, out, Precedence(c));
      (popped.0 + [t], popped.1)
  }

  /** The state after the tokens have been handled one by one. */
  function Steps(tokens: seq<Token>, stack: seq<Token>, out: seq<Token>): (r: (seq<Token>, seq<Token>))
    requires AllOperators(stack)
    ensures AllOperators(r.0)
    decreases |tokens|
  {
    if tokens == [] then (stack, out)
    else
      var next := Step(stack, out, tokens[0]);
      Steps(tokens[1..], next.0, next.1)
  }

  /** The postfix sequence: the state after all the tokens, with the stack
      then emptied onto the output (-1 is the least precedence, so popping
      while the top's precedence is at least -1 pops everything). */
  function ToPostfix(tokens: seq<Token>): seq<Token> {
    var last := Steps(tokens, [], []);
    PopWhile(last.0, last.1, -1).1
  }

  /** The imperative converter: a for loop that pushes and pops a local
      operator stack and appends to the output list. */
  method ConvertToPostfix(tokens: seq<Token>) returns (postfix: seq<Token>)
    ensures postfix == ToPostfix(tokens)
  {
    var operatorStack: seq<Token> := [];
    postfix := [];
    for i := 0 to |tokens|
      invariant AllOperators(operatorStack)
      invariant Steps(tokens[i..], operatorStack, postfix) == Steps(tokens, [], [])
    {
      var token := tokens[i];
      assert tokens[i..][1..] == tokens[i + 1..];
      match token {
        case Number(_) =>
          postfix := postfix + [token];
        case Operator(c) =>
          ghost var popped := PopWhile(operatorStack, postfix, Precedence(c));
          while operatorStack != [] && Precedence(operatorStack[|operatorStack| - 1].symbol) >= Precedence(c)
            invariant AllOperators(operatorStack)
            invariant PopWhile(operatorStack, postfix, Precedence(c)) == popped
            decreases |operatorStack|
          {
            postfix := postfix + [operatorStack[|operatorStack| - 1]];
            operatorStack := operatorStack[..|operatorStack| - 1];
          }
          operatorStack := operatorStack + [token];
      }
    }
    ghost var flushed := PopWhile(operatorStack, postfix, -1);
    while operatorStack != []
      invariant AllOperators(operatorStack)
      invariant PopWhile(operatorStack, postfix, -1) == flushed
      decreases |operatorStack|
    {
      postfix := postfix + [operatorStack[|operatorStack| - 1]];
      operatorStack := operatorStack[..|operatorStack| - 1];
    }
  }

  /** Running the converter over a + b is running it over a, then over b. */
  lemma {:induction false} StepsAppend(a: seq<Token>, b: seq<Token>, stack: seq<Token>, out: seq<Token>)
    requires AllOperators(stack)
    ensures Steps(a + b, stack, out)
         == (var mid := Steps(a, stack, out); Steps(b, mid.0, mid.1))
    decreases |a|
  {
    if a == [] {
      assert a + b == b;
    } else {
      assert (a + b)[1..] == a[1..] + b;
      var next := Step(stack, out, a[0]);
      StepsAppend(a[1..], b, next.0, next.1);
    }
  }

  lemma StepsOne(t: Token, stack: seq<Token>, out: seq<Token>)
    requires AllOperators(stack)
    ensures Steps([t], stack, out) == Step(stack, out, t)
  {
    var next := Step(stack, out, t);
    assert [t][1..] == [];
    assert Steps([t], stack, out) == Steps([], next.0, next.1);
  }

  lemma StepMultiset(stack: seq<Token>, out: seq<Token>, t: Token)
    requires AllOperators(stack)
    ensures var r := Step(stack, out, t);
            multiset(r.0) + multiset(r.1) == multiset(stack) + multiset(out) + multiset([t])
  {
    if t.Operator? {
      var popped := PopWhile(stack, out, Precedence(t.symbol));
      PopMultiset(stack, out, popped.0, popped.1);
      assert Step(stack, out, t) == (popped.0 + [t], popped.1);
    }
  }

  lemma PopMultiset(stack: seq<Token>, out: seq<Token>, kept: seq<Token>, emitted: seq<Token>)
    requires |kept| <= |stack| && kept == stack[..|kept|]
    requires emitted == out + Reverse(stack[|kept|..])
    ensures multiset(kept) + multiset(emitted) == multiset(stack) + multiset(out)
  {
    ReverseMultiset(stack[|kept|..]);
    assert stack == kept + stack[|kept|..];
  }

  /** Nothing is created or lost: the output and the stack together always
      hold the tokens handled so far. */
  lemma {:induction false} StepsMultiset(tokens: seq<Token>, stack: seq<Token>, out: seq<Token>)
    requires AllOperators(stack)
    ensures var r := Steps(tokens, stack, out);
            multiset(r.0) + multiset(r.1) == multiset(stack) + multiset(out) + multiset(tokens)
    decreases |tokens|
  {
    if tokens != [] {
      var t := tokens[0];
      var next := Step(stack, out, t);
      StepMultiset(stack, out, t);
      StepsMultiset(tokens[1..], next.0, next.1);
      assert tokens == [t] + tokens[1..];
    }
  }

  lemma {:induction false} ReverseMultiset<T>(s: seq<T>)
    ensures multiset(Reverse(s)) == multiset(s)
  {
    if s != [] {
      ReverseMultiset(s[1..]);
      assert s == [s[0]] + s[1..];
    }
  }

  /** Popping while the precedence is at least -1 empties the stack. */
  lemma FlushAll(stack: seq<Token>, out: seq<Token>)
    requires AllOperators(stack)
    ensures PopWhile(stack, out, -1) == ([], out + Reverse(stack))
  {
    var r := PopWhile(stack, out, -1);
    assert r.0 == [];
    assert stack[0..] == stack;
  }

  /** An operator that binds more tightly than the stack's top (or meets an
      empty stack) is pushed and nothing is popped. */
  lemma PushOver(stack: seq<Token>, out: seq<Token>, c: char)
    requires AllOperators(stack)
    requires stack == [] || Precedence(stack[|stack| - 1].symbol) < Precedence(c)
    ensures Step(stack, out, Operator(c)) == (stack + [Operator(c)], out)
  {
  }

  /** Brackets are not matched: any symbol outside `+ - * /` has the least
      precedence, so it pops the whole stack onto the output and is then
      pushed like an operator. */
  lemma BracketFlushes(stack: seq<Token>, out: seq<Token>, c: char)
    requires AllOperators(stack) && !IsArithmeticSymbol(c)
    ensures Step(stack, out, Operator(c)) == ([Operator(c)], out + Reverse(stack))
  {
    FlushAll(stack, out);
    assert [] + [Operator(c)] == [Operator(c)];
  }

  lemma StepsCons(t: Token, rest: seq<Token>, stack: seq<Token>, out: seq<Token>)
    requires AllOperators(stack)
    ensures Steps([t] + rest, stack, out) == (var next := Step(stack, out, t); Steps(rest, next.0, next.1))
  {
    assert ([t] + rest)[1..] == rest;
  }

  /** The converter returns a permutation of its input: every operator that
      was pushed has been popped to the output. */
  lemma ToPostfixPermutation(tokens: seq<Token>)
    ensures multiset(ToPostfix(tokens)) == multiset(tokens)
    ensures |ToPostfix(tokens)| == |tokens|
  {
    var last := Steps(tokens, [], []);
    StepsMultiset(tokens, [], []);
    FlushAll(last.0, last.1);
    ReverseMultiset(last.0);
    assert ToPostfix(tokens) == last.1 + Reverse(last.0);
    assert multiset(last.0) + multiset(last.1) == multiset(tokens);
  }

  /** The number tokens of a sequence, in order. */
  function Numbers(ts: seq<Token>): seq<nat> {
    if ts == [] then []
    else (if ts[0].Number? then [ts[0].value] else []) + Numbers(ts[1..])
  }

  lemma {:induction false} NumbersAppend(a: seq<Token>, b: seq<Token>)
    ensures Numbers(a + b) == Numbers(a) + Numbers(b)
  {
    if a == [] {
      assert a + b == b;
    } else {
      var rest := a[1..];
      var head := if a[0].Number? then [a[0].value] else [];
      assert (a + b)[0] == a[0];
      assert (a + b)[1..] == rest + b;
      assert Numbers(a + b) == head + Numbers(rest + b);
      assert Numbers(a) == head + Numbers(rest);
      NumbersAppend(rest, b);
      assert head + (Numbers(rest) + Numbers(b)) == (head + Numbers(rest)) + Numbers(b);
    }
  }

  lemma {:induction false} NumbersOfOperators(s: seq<Token>)
    requires AllOperators(s)
    ensures Numbers(s) == []
  {
    if s != [] {
      NumbersOfOperators(s[1..]);
    }
  }

  lemma StepNumbers(stack: seq<Token>, out: seq<Token>, t: Token)
    requires AllOperators(stack)
    ensures Numbers(Step(stack, out, t).1) == Numbers(out) + Numbers([t])
  {
    if t.Operator? {
      var popped := PopWhile(stack, out, Precedence(t.symbol));
      ReverseOperators(stack[|popped.0|..]);
      NumbersOfOperators(Reverse(stack[|popped.0|..]));
      NumbersAppend(out, Reverse(stack[|popped.0|..]));
      assert Numbers([t]) == [];
    } else {
      NumbersAppend(out, [t]);
    }
  }

  lemma {:induction false} StepsNumbers(tokens: seq<Token>, stack: seq<Token>, out: seq<Token>)
    requires AllOperators(stack)
    ensures Numbers(Steps(tokens, stack, out).1) == Numbers(out) + Numbers(tokens)
    decreases |tokens|
  {
    if tokens != [] {
      var t := tokens[0];
      var next := Step(stack, out, t);
      StepNumbers(stack, out, t);
      StepsNumbers(tokens[1..], next.0, next.1);
      NumbersAppend([t], tokens[1..]);
      assert tokens == [t] + tokens[1..];
      assert Numbers(out) + Numbers([t]) + Numbers(tokens[1..]) == Numbers(out) + (Numbers([t]) + Numbers(tokens[1..]));
    }
  }

  /** Number tokens come out in the same relative order as they went in. */
  lemma ToPostfixKeepsNumberOrder(tokens: seq<Token>)
    ensures Numbers(ToPostfix(tokens)) == Numbers(tokens)
  {
    var last := Steps(tokens, [], []);
    StepsNumbers(tokens, [], []);
    ReverseOperators(last.0);
    NumbersOfOperators(Reverse(last.0));
    NumbersAppend(last.1, Reverse(last.0));
  }

  /** Precedences strictly increase from the bottom of the stack to the top. */
  predicate Increasing(stack: seq<Token>)
    requires AllOperators(stack)
  {
    forall i, j :: 0 <= i < j < |stack| ==> Precedence(stack[i].symbol) < Precedence(stack[j].symbol)
  }

  /** Each step keeps the operator stack strictly increasing. */
  lemma {:induction false} StepsKeepIncreasing(tokens: seq<Token>, stack: seq<Token>, out: seq<Token>)
    requires AllOperators(stack) && Increasing(stack)
    ensures Increasing(Steps(tokens, stack, out).0)
    decreases |tokens|
  {
    if tokens != [] {
      var next := Step(stack, out, tokens[0]);
      if tokens[0].Operator? {
        var popped := PopWhile(stack, out, Precedence(tokens[0].symbol));
        assert Increasing(popped.0);
      }
      StepsKeepIncreasing(tokens[1..], next.0, next.1);
    }
  }

  lemma IncreasingAt(s: seq<Token>, i: nat, j: nat)
    requires AllOperators(s) && Increasing(s) && i < j < |s|
    ensures -1 <= Precedence(s[i].symbol) < Precedence(s[j].symbol) <= 2
  {
  }

  /** So the operator stack never holds more than three operators, whatever
      the input: `(` or `)` at the bottom, then `+`/`-`, then `*`/`/`. */
  lemma OperatorStackBound(tokens: seq<Token>)
    ensures |Steps(tokens, [], []).0| <= 3
  {
    StepsKeepIncreasing(tokens, [], []);
    var s := Steps(tokens, [], []).0;
    if |s| > 3 {
      IncreasingAt(s, 0, 1);
      IncreasingAt(s, 1, 2);
      IncreasingAt(s, 2, 3);
      assert false;
    }
  }

  /** Brackets are not matched: in "(2 + 3) * 4" each bracket flushes the
      stack and is emitted like an operator. */
  lemma BracketsAreNotMatched()
    ensures ToPostfix([Operator('('), Number(2), Operator('+'), Number(3), Operator(')'), Operator('*'), Number(4)])
         == BracketedPostfix
  {
    var first := [Operator('('), Number(2), Operator('+'), Number(3)];
    var second := [Operator(')'), Operator('*'), Number(4)];
    assert first + second == [Operator('('), Number(2), Operator('+'), Number(3), Operator(')'), Operator('*'), Number(4)];
    BracketedFirstHalf();
    BracketedSecondHalf();
    StepsAppend(first, second, [], []);
    BracketedFlush();
  }

  lemma BracketedFlush()
    ensures PopWhile([Operator(')'), Operator('*')], BracketedPostfix[..5], -1).1 == BracketedPostfix
  {
    FlushAll([Operator(')'), Operator('*')], BracketedPostfix[..5]);
    assert Reverse([Operator(')'), Operator('*')]) == [Operator('*'), Operator(')')];
    assert BracketedPostfix == BracketedPostfix[..5] + [Operator('*'), Operator(')')];
  }


  /** "(2 + 3) * 4" after conversion. */
  const BracketedPostfix: seq<Token> :=
    [Number(2), Number(3), Operator('+'), Operator('('), Number(4), Operator('*'), Operator(')')]

  lemma BracketedFirstHalf()
    ensures Steps([Operator('('), Number(2), Operator('+'), Number(3)], [], [])
         == ([Operator('('), Operator('+')], [Number(2), Number(3)])
  {
    var open, plus := Operator('('), Operator('+');
    assert [] + [open] == [open];
    assert [open, Number(2), plus, Number(3)] == [open] + [Number(2), plus, Number(3)];
    assert [Number(2), plus, Number(3)] == [Number(2)] + [plus, Number(3)];
    assert [] + [Number(2)] == [Number(2)];
    PushOver([], [], '(');
    StepsCons(open, [Number(2), plus, Number(3)], [], []);
    StepsCons(Number(2), [plus, Number(3)], [open], []);
    BracketedSum();
  }

  lemma BracketedSum()
    ensures Steps([Operator('+'), Number(3)], [Operator('(')], [Number(2)])
         == ([Operator('('), Operator('+')], [Number(2), Number(3)])
  {
    var open, plus := Operator('('), Operator('+');
    assert [plus, Number(3)] == [plus] + [Number(3)];
    assert [open] + [plus] == [open, plus];
    assert [Number(2)] + [Number(3)] == [Number(2), Number(3)];
    PushOver([open], [Number(2)], '+');
    StepsCons(plus, [Number(3)], [open], [Number(2)]);
    StepsOne(Number(3), [open, plus], [Number(2)]);
  }


  lemma BracketedSecondHalf()
    ensures Steps([Operator(')'), Operator('*'), Number(4)], [Operator('('), Operator('+')], [Number(2), Number(3)])
         == ([Operator(')'), Operator('*')], BracketedPostfix[..5])
  {
    var open, plus, close, times := Operator('('), Operator('+'), Operator(')'), Operator('*');
    var out := [Number(2), Number(3), plus, open];
    assert Reverse([open, plus]) == [plus, open];
    assert [Number(2), Number(3)] + [plus, open] == out;
    assert [close, times, Number(4)] == [close] + [times, Number(4)];
    assert [close] + [times] == [close, times];
    assert [times, Number(4)] == [times] + [Number(4)];
    assert out + [Number(4)] == BracketedPostfix[..5];
    BracketFlushes([open, plus], [Number(2), Number(3)], ')');
    StepsCons(close, [times, Number(4)], [open, plus], [Number(2), Number(3)]);
    PushOver([close], out, '*');
    StepsCons(times, [Number(4)], [close], out);
    StepsOne(Number(4), [close, times], out);
  }

}
