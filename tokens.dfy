/**
  The token domain shared by the tokenizer, the postfix converter and the
  evaluators (NumberToken and OperatorToken of the shared domain package).
*/
module Tokens {

  /** A NumberToken only ever holds the value of a run of decimal digits, so a
      natural number stands for the Java double. */
  datatype Token = Number(value: nat) | Operator(symbol: char)

  predicate IsDigit(c: char) {
    '0' <= c <= '9'
  }

  /** The single-character operators the tokenizer recognises. */
  predicate IsOperatorSymbol(c: char) {
    c == '+' || c == '-' || c == '*' || c == '/' || c == '(' || c == ')'
  }

  /** The four operators the evaluators can send to the calculator. */
  predicate IsArithmeticSymbol(c: char) {
    c == '+' || c == '-' || c == '*' || c == '/'
  }

  /** A token the tokenizer can produce. */
  predicate WellFormed(t: Token) {
    t.Operator? ==> IsOperatorSymbol(t.symbol)
  }

  predicate AllOperators(s: seq<Token>) {
    forall i :: 0 <= i < |s| ==> s[i].Operator?
  }

  function Reverse<T>(s: seq<T>): (r: seq<T>)
    ensures |r| == |s|
  {
    if s == [] then [] else Reverse(s[1..]) + [s[0]]
  }

  lemma {:induction false} ReverseIndex<T>(s: seq<T>)
    ensures forall i :: 0 <= i < |s| ==> Reverse(s)[i] == s[|s| - 1 - i]
  {
    if s != [] {
      ReverseIndex(s[1..]);
    }
  }

  lemma ReverseOperators(s: seq<Token>)
    requires AllOperators(s)
    ensures AllOperators(Reverse(s))
  {
    ReverseIndex(s);
  }

  lemma {:induction false} ReverseAppend<T>(a: seq<T>, b: seq<T>)
    ensures Reverse(a + b) == Reverse(b) + Reverse(a)
  {
    if a == [] {
      assert a + b == b;
    } else {
      assert (a + b)[1..] == a[1..] + b;
      ReverseAppend(a[1..], b);
    }
  }
}
