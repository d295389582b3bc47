/**
  Correctness of the converter on bracket-free input: for the tree that
  precedence and left-to-right grouping give an infix expression, the
  shunting-yard pass emits exactly that tree's postfix spelling.
*/
module PostfixCorrectness {
  import opened Tokens
  import opened Postfix
  import opened Expressions

  /** The least precedence an operator may have to stay below a tree on
      the stack: its root's, or above every precedence for a number. */
  function Bound(e: Expr): int {
    if e.Bin? then Precedence(e.op) else 3
  }

  /** Operators of the tree still on the stack after its infix tokens have
      been handled: the root and the operators down its right spine. */
  function Waiting(e: Expr): (w: seq<Token>)
    ensures AllOperators(w)
  {
    match e
    case Lit(_) => []
    case Bin(_, o, r) => [Operator(o)] + Waiting(r)
  }

  /** Tokens of the tree already on the output at that point. */
  function Emitted(e: Expr): seq<Token> {
    match e
    case Lit(v) => [Number(v)]
    case Bin(l, _, r) => PostfixOf(l) + Emitted(r)
  }

  /** Popping what waits on the stack completes the postfix spelling. */
  lemma {:induction false} EmittedThenWaiting(e: Expr)
    ensures Emitted(e) + Reverse(Waiting(e)) == PostfixOf(e)
  {
    match e
    case Lit(_) =>
    case Bin(l, o, r) =>
      EmittedThenWaiting(r);
      ReverseAppend([Operator(o)], Waiting(r));
      assert Reverse([Operator(o)]) == [Operator(o)];
  }

  /** Everything that waits binds at least as tightly as the tree's root. */
  lemma {:induction false} WaitingPrecedence(e: Expr)
    requires IsSum(e)
    ensures forall i :: 0 <= i < |Waiting(e)| ==> Precedence(Waiting(e)[i].symbol) >= Bound(e)
  {
    match e
    case Lit(_) =>
    case Bin(l, o, r) =>
      WaitingPrecedence(r);
      assert Bound(r) >= Bound(e);
  }

  /** Popping from a stack made of a part below p and a part at or above p
      pops exactly the upper part, in reverse. */
  lemma PopUpperPart(lower: seq<Token>, upper: seq<Token>, out: seq<Token>, p: int)
    requires AllOperators(lower) && AllOperators(upper)
    requires forall i :: 0 <= i < |lower| ==> Precedence(lower[i].symbol) < p
    requires forall i :: 0 <= i < |upper| ==> Precedence(upper[i].symbol) >= p
    ensures PopWhile(lower + upper, out, p) == (lower, out + Reverse(upper))
  {
    var stack := lower + upper;
    var r := PopWhile(stack, out, p);
    assert |r.0| == |lower|;
    assert r.0 == lower;
    assert stack[|lower|..] == upper;
  }

  /** The heart of the proof: handling a tree's infix tokens, above a stack
      whose operators bind less tightly than the tree's root, leaves the
      stack extended by the waiting operators and the output extended by
      the emitted tokens. */
  lemma {:induction false} StepsOverTree(e: Expr, stack: seq<Token>, out: seq<Token>)
    requires IsSum(e) && AllOperators(stack)
    requires forall i :: 0 <= i < |stack| ==> Precedence(stack[i].symbol) < Bound(e)
    ensures Steps(InfixOf(e), stack, out) == (stack + Waiting(e), out + Emitted(e))
  {
    match e
    case Lit(v) =>
      StepsOne(Number(v), stack, out);
      assert stack + [] == stack;
    case Bin(l, o, r) =>
      SumParts(l, o, r);
      var pushed: seq<Token> := stack + [Operator(o)];
      var left := InfixOf(l) + [Operator(o)];
      assert Steps(left, stack, out) == (pushed, out + PostfixOf(l)) by {
        StepsOverTree(l, stack, out);
        OperatorAfterTree(l, o, stack, out);
      }
      assert Steps(InfixOf(r), pushed, out + PostfixOf(l)) == (pushed + Waiting(r), out + PostfixOf(l) + Emitted(r)) by {
        assert forall i :: 0 <= i < |pushed| ==> Precedence(pushed[i].symbol) < Bound(r);
        StepsOverTree(r, pushed, out + PostfixOf(l));
      }
      StepsAppend(left, InfixOf(r), stack, out);
      Associative(stack, [Operator(o)], Waiting(r));
      Associative(out, PostfixOf(l), Emitted(r));
  }

  /** The operands of a sum-of-products node are sums of products, the left
      one's root binds no less tightly than the node's and the right one is
      a product. */
  lemma SumParts(l: Expr, o: char, r: Expr)
    requires IsSum(Bin(l, o, r))
    ensures IsSum(l) && IsSum(r) && IsTerm(r)
    ensures Bound(l) >= Precedence(o) && Bound(r) >= 2
  {
    if IsMulOp(o) {
      TermBound(l);
    } else {
      TermBound(r);
      SumBound(l);
    }
  }

  lemma TermBound(e: Expr)
    requires IsTerm(e)
    ensures IsSum(e) && Bound(e) >= 2
  {
  }

  lemma SumBound(e: Expr)
    requires IsSum(e)
    ensures Bound(e) >= 1
  {
  }

  lemma Associative<T>(a: seq<T>, b: seq<T>, c: seq<T>)
    ensures a + b + c == a + (b + c)
  {
  }

  /** An operator that follows a tree and binds no more tightly than the
      tree's root flushes the tree's waiting operators and is pushed. */
  lemma OperatorAfterTree(l: Expr, o: char, stack: seq<Token>, out: seq<Token>)
    requires IsSum(l) && AllOperators(stack)
    requires forall i :: 0 <= i < |stack| ==> Precedence(stack[i].symbol) < Precedence(o)
    requires Bound(l) >= Precedence(o)
    requires Steps(InfixOf(l), stack, out) == (stack + Waiting(l), out + Emitted(l))
    ensures Steps(InfixOf(l) + [Operator(o)], stack, out) == (stack + [Operator(o)], out + PostfixOf(l))
  {
    var waiting, emitted := stack + Waiting(l), out + Emitted(l);
    assert Steps(InfixOf(l) + [Operator(o)], stack, out) == Step(waiting, emitted, Operator(o)) by {
      StepsAppend(InfixOf(l), [Operator(o)], stack, out);
      StepsOne(Operator(o), waiting, emitted);
    }
    FlushWaiting(l, o, stack, out);
  }

  /** The waiting operators of a tree all bind at least as tightly as an
      operator no tighter than its root, so that operator pops them all,
      completing the tree's postfix spelling on the output. */
  lemma FlushWaiting(l: Expr, o: char, stack: seq<Token>, out: seq<Token>)
    requires IsSum(l) && AllOperators(stack)
    requires forall i :: 0 <= i < |stack| ==> Precedence(stack[i].symbol) < Precedence(o)
    requires Bound(l) >= Precedence(o)
    ensures PopWhile(stack + Waiting(l), out + Emitted(l), Precedence(o)) == (stack, out + PostfixOf(l))
  {
    WaitingPrecedence(l);
    PopUpperPart(stack, Waiting(l), out + Emitted(l), Precedence(o));
    EmittedThenWaiting(l);
    Associative(out, Emitted(l), Reverse(Waiting(l)));
  }

  /** Shunting-yard is correct on bracket-free input: the converter turns
      the infix spelling of a sum-of-products tree into its postfix
      spelling. */
  lemma ToPostfixOfTree(e: Expr)
    requires IsSum(e)
    ensures ToPostfix(InfixOf(e)) == PostfixOf(e)
  {
    StepsOverTree(e, [], []);
    assert [] + Waiting(e) == Waiting(e);
    assert [] + Emitted(e) == Emitted(e);
    FlushAll(Waiting(e), Emitted(e));
    EmittedThenWaiting(e);
  }

  /** Hence on every bracket-free alternating token sequence, the converter
      emits the postfix spelling of the tree precedence gives it. */
  lemma ToPostfixOfAlternating(ts: seq<Token>)
    requires Alternating(ts)
    ensures ToPostfix(ts) == PostfixOf(Parse(ts))
  {
    ToPostfixOfTree(Parse(ts));
  }

  /** Operators of equal precedence group to the left (the stack top is
      popped before the new operator is pushed); a tighter operator on the
      right waits on the stack and comes out first. */
  lemma Associativity(x: nat, o1: char, y: nat, o2: char, z: nat)
    requires IsArithmeticSymbol(o1) && IsArithmeticSymbol(o2)
    ensures Precedence(o1) >= Precedence(o2) ==>
      ToPostfix([Number(x), Operator(o1), Number(y), Operator(o2), Number(z)])
        == [Number(x), Number(y), Operator(o1), Number(z), Operator(o2)]
    ensures Precedence(o1) < Precedence(o2) ==>
      ToPostfix([Number(x), Operator(o1), Number(y), Operator(o2), Number(z)])
        == [Number(x), Number(y), Number(z), Operator(o2), Operator(o1)]
  {
    var ts := [Number(x), Operator(o1), Number(y), Operator(o2), Number(z)];
    ArithmeticPrecedence(o1);
    ArithmeticPrecedence(o2);
    if Precedence(o1) >= Precedence(o2) {
      var left := Bin(Lit(x), o1, Lit(y));
      var e := Bin(left, o2, Lit(z));
      if IsMulOp(o2) {
        assert IsTerm(left);
      } else {
        assert IsAddOp(o2) && IsSum(left);
      }
      assert InfixOf(e) == ts by {
        assert InfixOf(left) == [Number(x), Operator(o1), Number(y)];
      }
      assert PostfixOf(e) == [Number(x), Number(y), Operator(o1), Number(z), Operator(o2)] by {
        assert PostfixOf(left) == [Number(x), Number(y), Operator(o1)];
      }
      ToPostfixOfTree(e);
    } else {
      var right := Bin(Lit(y), o2, Lit(z));
      var e := Bin(Lit(x), o1, right);
      assert IsAddOp(o1) && IsTerm(right);
      assert InfixOf(e) == ts by {
        assert InfixOf(right) == [Number(y), Operator(o2), Number(z)];
      }
      assert PostfixOf(e) == [Number(x), Number(y), Number(z), Operator(o2), Operator(o1)] by {
        assert PostfixOf(right) == [Number(y), Number(z), Operator(o2)];
      }
      ToPostfixOfTree(e);
    }
  }

  /** `*` and `/` are exactly the operators of precedence 2, `+` and `-`
      exactly those of precedence 1. */
  lemma ArithmeticPrecedence(c: char)
    requires IsArithmeticSymbol(c)
    ensures IsMulOp(c) <==> Precedence(c) == 2
    ensures IsAddOp(c) <==> Precedence(c) == 1
  {
  }
}
