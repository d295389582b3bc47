/**
  The whole pipeline: an infix string is scanned into tokens, converted to
  postfix and evaluated against the calculator. On bracket-free input the
  result is the value of the tree that precedence and left-to-right
  grouping give the expression; the examples below pin down the
  converter's test case and what the code does with brackets, a zero
  divisor and surplus operands.
*/
module Pipeline {
  import opened Wrappers
  import opened Tokens
  import opened Tokenizer
  import opened Postfix
  import opened Expressions
  import opened PostfixCorrectness
  import opened Calculator
  import opened PostfixEvaluation

  /** End to end on bracket-free input: evaluating the converter's output
      gives the value of the tree precedence gives the tokens, for any
      calculator and either handling of its failures. */
  lemma EvaluateConverted(ts: seq<Token>, calculate: CalculatorCall, h: Handling)
    requires Alternating(ts)
    ensures Evaluate(ToPostfix(ts), calculate, h) == EvalTree(Parse(ts), calculate, h)
  {
    ToPostfixOfAlternating(ts);
    EvaluateTree(Parse(ts), calculate, h);
  }

  /** The converter's test case, "4 * 9 - 6 + 3 + 6 * 8 / 6 + 9", and the
      postfix it expects, "4 9 * 6 - 3 + 6 8 * 6 / + 9 +", as token lists
      (InfixSpelling and PostfixSpelling prove that each string is the
      space-separated rendering of its list). */
  const InfixTokens: seq<Token> := [
    Number(4), Operator('*'), Number(9), Operator('-'), Number(6), Operator('+'), Number(3),
    Operator('+'), Number(6), Operator('*'), Number(8), Operator('/'), Number(6), Operator('+'), Number(9)]

  const PostfixTokens: seq<Token> := [
    Number(4), Number(9), Operator('*'), Number(6), Operator('-'), Number(3), Operator('+'),
    Number(6), Number(8), Operator('*'), Number(6), Operator('/'), Operator('+'), Number(9), Operator('+')]

  /** The test's tree: ((((4 * 9) - 6) + 3) + ((6 * 8) / 6)) + 9. */
  const TestTree: Expr :=
    Bin(Bin(Bin(Bin(Bin(Lit(4), '*', Lit(9)), '-', Lit(6)), '+', Lit(3)), '+',
            Bin(Bin(Lit(6), '*', Lit(8)), '/', Lit(6))), '+', Lit(9))

  /** The rendering of a bracket-free expression scans back to its tokens. */
  lemma LexRenderAlternating(ts: seq<Token>)
    requires Alternating(ts)
    ensures Lex(Render(ts)) == ts
  {
    forall t | t in ts
      ensures WellFormed(t)
    {
      var i :| 0 <= i < |ts| && ts[i] == t;
      assert i % 2 == 0 || i % 2 == 1;
    }
    LexRender(ts);
  }

  /** Scanning the rendering of a bracket-free expression and converting it
      gives the postfix spelling of its tree, so evaluating it gives the
      tree's value. */
  lemma EvaluateRendered(ts: seq<Token>, calculate: CalculatorCall, h: Handling)
    requires Alternating(ts)
    ensures ToPostfix(Lex(Render(ts))) == PostfixOf(Parse(ts))
    ensures Evaluate(ToPostfix(Lex(Render(ts))), calculate, h) == EvalTree(Parse(ts), calculate, h)
  {
    LexRenderAlternating(ts);
    ToPostfixOfAlternating(ts);
    EvaluateConverted(ts, calculate, h);
  }


  lemma TestTreeInfix()
    ensures IsSum(TestTree) && InfixOf(TestTree) == InfixTokens
  {
    var a := Bin(Bin(Lit(4), '*', Lit(9)), '-', Lit(6));
    var b := Bin(a, '+', Lit(3));
    var c := Bin(Bin(Lit(6), '*', Lit(8)), '/', Lit(6));
    assert InfixOf(b) == InfixTokens[..7];
    assert InfixOf(c) == InfixTokens[8..13];
    assert InfixOf(Bin(b, '+', c)) == InfixTokens[..13];
  }

  lemma TestTreePostfix()
    ensures PostfixOf(TestTree) == PostfixTokens
  {
    var a := Bin(Bin(Lit(4), '*', Lit(9)), '-', Lit(6));
    var b := Bin(a, '+', Lit(3));
    var c := Bin(Bin(Lit(6), '*', Lit(8)), '/', Lit(6));
    assert PostfixOf(b) == PostfixTokens[..7];
    assert PostfixOf(c) == PostfixTokens[7..12];
    assert PostfixOf(Bin(b, '+', c)) == PostfixTokens[..13];
  }

  /** The converter's test case: the infix tokens convert to exactly the
      expected postfix tokens. */
  lemma ConvertTestCase()
    ensures ToPostfix(InfixTokens) == PostfixTokens
  {
    TestTreeInfix();
    TestTreePostfix();
    ToPostfixOfTree(TestTree);
  }

  /** The test's two strings are the renderings of its two token lists,
      and the tokenizer scans each back to its list. */
  lemma ScanTestCase()
    ensures Lex(Render(InfixTokens)) == InfixTokens
    ensures Lex(Render(PostfixTokens)) == PostfixTokens
  {
    assert Alternating(InfixTokens);
    LexRenderAlternating(InfixTokens);
    ScanPostfixTokens();
  }

  /** The infix list renders to the test's input string. */
  lemma InfixSpelling()
    ensures Render(InfixTokens) == "4 * 9 - 6 + 3 + 6 * 8 / 6 + 9"
  {
    InfixParts();
    InfixFront();
    InfixBack();
    JoinSpellings(InfixTokens,
      [Number(4), Operator('*'), Number(9), Operator('-'), Number(6), Operator('+'), Number(3)],
      [Operator('+'), Number(6), Operator('*'), Number(8), Operator('/'), Number(6), Operator('+'), Number(9)],
      "4 * 9 - 6 + 3", "+ 6 * 8 / 6 + 9", "4 * 9 - 6 + 3 + 6 * 8 / 6 + 9");
  }

  /** The infix list and its string, each cut into the two halves. */
  lemma InfixParts()
    ensures InfixTokens ==
      [Number(4), Operator('*'), Number(9), Operator('-'), Number(6), Operator('+'), Number(3)] +
      [Operator('+'), Number(6), Operator('*'), Number(8), Operator('/'), Number(6), Operator('+'), Number(9)]
    ensures "4 * 9 - 6 + 3 + 6 * 8 / 6 + 9" == "4 * 9 - 6 + 3" + " " + "+ 6 * 8 / 6 + 9"
  {
  }

  /** The postfix list renders to the test's expected string. */
  lemma PostfixSpelling()
    ensures Render(PostfixTokens) == "4 9 * 6 - 3 + 6 8 * 6 / + 9 +"
  {
    PostfixParts();
    PostfixFront();
    PostfixBack();
    JoinSpellings(PostfixTokens,
      [Number(4), Number(9), Operator('*'), Number(6), Operator('-'), Number(3), Operator('+')],
      [Number(6), Number(8), Operator('*'), Number(6), Operator('/'), Operator('+'), Number(9), Operator('+')],
      "4 9 * 6 - 3 +", "6 8 * 6 / + 9 +", "4 9 * 6 - 3 + 6 8 * 6 / + 9 +");
  }

  /** The postfix list and its string, each cut into the two halves. */
  lemma PostfixParts()
    ensures PostfixTokens ==
      [Number(4), Number(9), Operator('*'), Number(6), Operator('-'), Number(3), Operator('+')] +
      [Number(6), Number(8), Operator('*'), Number(6), Operator('/'), Operator('+'), Number(9), Operator('+')]
    ensures "4 9 * 6 - 3 + 6 8 * 6 / + 9 +" == "4 9 * 6 - 3 +" + " " + "6 8 * 6 / + 9 +"
  {
  }

  /** The first seven infix tokens, spelled. */
  lemma InfixFront()
    ensures Render([Number(4), Operator('*'), Number(9), Operator('-'), Number(6), Operator('+'), Number(3)]) == "4 * 9 - 6 + 3"
  {
    var ts := [Number(4), Operator('*'), Number(9), Operator('-'), Number(6), Operator('+'), Number(3)];
    var s := "4 * 9 - 6 + 3";
    forall i | 0 <= i < |ts|
      ensures TokenText(ts[i]) == [s[2 * i]]
    {
      DigitTexts();
    }
    SpellOneCharTokens(ts, s);
  }

  /** The last eight infix tokens, spelled. */
  lemma InfixBack()
    ensures Render([Operator('+'), Number(6), Operator('*'), Number(8), Operator('/'), Number(6), Operator('+'), Number(9)]) == "+ 6 * 8 / 6 + 9"
  {
    var ts := [Operator('+'), Number(6), Operator('*'), Number(8), Operator('/'), Number(6), Operator('+'), Number(9)];
    var s := "+ 6 * 8 / 6 + 9";
    forall i | 0 <= i < |ts|
      ensures TokenText(ts[i]) == [s[2 * i]]
    {
      DigitTexts();
    }
    SpellOneCharTokens(ts, s);
  }

  /** The first seven postfix tokens, spelled. */
  lemma PostfixFront()
    ensures Render([Number(4), Number(9), Operator('*'), Number(6), Operator('-'), Number(3), Operator('+')]) == "4 9 * 6 - 3 +"
  {
    var ts := [Number(4), Number(9), Operator('*'), Number(6), Operator('-'), Number(3), Operator('+')];
    var s := "4 9 * 6 - 3 +";
    forall i | 0 <= i < |ts|
      ensures TokenText(ts[i]) == [s[2 * i]]
    {
      DigitTexts();
    }
    SpellOneCharTokens(ts, s);
  }

  /** The last eight postfix tokens, spelled. */
  lemma PostfixBack()
    ensures Render([Number(6), Number(8), Operator('*'), Number(6), Operator('/'), Operator('+'), Number(9), Operator('+')]) == "6 8 * 6 / + 9 +"
  {
    var ts := [Number(6), Number(8), Operator('*'), Number(6), Operator('/'), Operator('+'), Number(9), Operator('+')];
    var s := "6 8 * 6 / + 9 +";
    forall i | 0 <= i < |ts|
      ensures TokenText(ts[i]) == [s[2 * i]]
    {
      DigitTexts();
    }
    SpellOneCharTokens(ts, s);
  }

  /** The spellings of the digits the test uses. */
  lemma DigitTexts()
    ensures TokenText(Number(3)) == "3" && TokenText(Number(4)) == "4" && TokenText(Number(6)) == "6"
    ensures TokenText(Number(8)) == "8" && TokenText(Number(9)) == "9"
  {
  }

  /** Two spelled halves give the spelling of the whole list. */
  lemma JoinSpellings(ts: seq<Token>, a: seq<Token>, b: seq<Token>, sa: string, sb: string, s: string)
    requires a != [] && b != [] && ts == a + b
    requires Render(a) == sa && Render(b) == sb && s == sa + " " + sb
    ensures Render(ts) == s
  {
    RenderAppend(a, b);
  }

  /** Rendering two non-empty lists one after the other puts one space
      between their renderings. */
  lemma {:induction false} RenderAppend(a: seq<Token>, b: seq<Token>)
    requires a != [] && b != []
    ensures Render(a + b) == Render(a) + " " + Render(b)
  {
    if |a| == 1 {
      assert (a + b)[1..] == b;
    } else {
      assert (a + b)[1..] == a[1..] + b;
      RenderAppend(a[1..], b);
    }
  }

  /** Tokens spelled by one character each render to the string holding
      those characters at even positions and spaces at odd ones. */
  lemma {:induction false} SpellOneCharTokens(ts: seq<Token>, s: string)
    requires ts != [] && |s| == 2 * |ts| - 1
    requires forall i :: 0 <= i < |ts| ==> TokenText(ts[i]) == [s[2 * i]]
    requires forall i :: 0 <= i < |ts| - 1 ==> s[2 * i + 1] == ' '
    ensures Render(ts) == s
  {
    if |ts| > 1 {
      var rest := s[2..];
      forall i | 0 <= i < |ts| - 1
        ensures TokenText(ts[1..][i]) == [rest[2 * i]]
      {
        assert rest[2 * i] == s[2 * (i + 1)];
      }
      forall i | 0 <= i < |ts| - 2
        ensures rest[2 * i + 1] == ' '
      {
        assert rest[2 * i + 1] == s[2 * (i + 1) + 1];
      }
      SpellOneCharTokens(ts[1..], rest);
      assert TokenText(ts[0]) == [s[0]] && s[1] == ' ';
      assert s == [s[0]] + " " + rest;
    }
  }

  /** The tokenizer scans the test's two literal strings to its two lists. */
  lemma ScanTestStrings()
    ensures Lex("4 * 9 - 6 + 3 + 6 * 8 / 6 + 9") == InfixTokens
    ensures Lex("4 9 * 6 - 3 + 6 8 * 6 / + 9 +") == PostfixTokens
  {
    InfixSpelling();
    PostfixSpelling();
    ScanTestCase();
  }

  lemma ScanPostfixTokens()
    ensures Lex(Render(PostfixTokens)) == PostfixTokens
  {
    assert forall i :: 0 <= i < |PostfixTokens| ==> WellFormed(PostfixTokens[i]);
    LexRender(PostfixTokens);
  }



  /** Evaluating the test's postfix tokens against the calculator gives 50,
      with no failure to handle. */
  lemma TestCaseValue(h: Handling)
    ensures Evaluate(PostfixTokens, Compute, h) == Success(50.0)
  {
    var a := Bin(Bin(Lit(4), '*', Lit(9)), '-', Lit(6));
    var b := Bin(a, '+', Lit(3));
    var c0 := Bin(Lit(6), '*', Lit(8));
    var c := Bin(c0, '/', Lit(6));
    assert EvalTree(a, Compute, h) == Success(30.0);
    assert EvalTree(b, Compute, h) == Success(33.0);
    assert EvalTree(c0, Compute, h) == Success(48.0);
    assert EvalTree(c, Compute, h) == Success(8.0);
    assert EvalTree(Bin(b, '+', c), Compute, h) == Success(41.0);
    TestTreeInfix();
    TestTreePostfix();
    EvaluateTree(TestTree, Compute, h);
  }

  /** Brackets are not matched: the converted "(2 + 3) * 4" finds too few
      operands under the `(`. */
  lemma BracketedEvaluation(h: Handling)
    ensures Evaluate(BracketedPostfix, Compute, h) == Failure(NoSuchElement)
  {
  }

  /** A zero divisor: the calculator answers INVALID_ARGUMENT; the newer
      service turns it into a division-by-zero error, the older one passes
      the status on. */
  lemma DivisionByZero()
    ensures Evaluate([Number(5), Number(0), Operator('/')], Compute, Classify)
         == Failure(RuntimeFailure(DivisionByZeroPrefix + DivisionByZeroMessage))
    ensures Evaluate([Number(5), Number(0), Operator('/')], Compute, Propagate)
         == Failure(StatusFailure(Status(InvalidArgument, DivisionByZeroMessage)))
  {
  }

  /** Surplus operands are not an error: the top of the stack is returned. */
  lemma SurplusOperands(calculate: CalculatorCall, h: Handling)
    ensures Evaluate([Number(1), Number(2)], calculate, h) == Success(2.0)
  {
  }
}
