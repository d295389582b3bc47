/**
  Arithmetic expressions as trees, the reference against which the
  converter and the evaluators are proved: a tree's infix and postfix
  spellings, the trees that standard precedence and left-to-right grouping
  give (sums of products), and the parse of a bracket-free alternating
  token sequence into such a tree.
*/
module Expressions {
  import opened Tokens

  datatype Expr = Lit(value: nat) | Bin(left: Expr, op: char, right: Expr)

  function InfixOf(e: Expr): seq<Token> {
    match e
    case Lit(v) => [Number(v)]
    case Bin(l, o, r) => InfixOf(l) + [Operator(o)] + InfixOf(r)
  }

  function PostfixOf(e: Expr): seq<Token> {
    match e
    case Lit(v) => [Number(v)]
    case Bin(l, o, r) => PostfixOf(l) + PostfixOf(r) + [Operator(o)]
  }

  predicate IsMulOp(c: char) {
    c == '*' || c == '/'
  }

  predicate IsAddOp(c: char) {
    c == '+' || c == '-'
  }

  /** A product: numbers joined by `*` and `/`, grouped to the left. */
  predicate IsTerm(e: Expr) {
    match e
    case Lit(_) => true
    case Bin(l, o, r) => IsMulOp(o) && IsTerm(l) && r.Lit?
  }

  /** A sum of products: products joined by `+` and `-`, grouped to the
      left. This is the tree that `*` and `/` binding tighter than `+` and
      `-`, and equal operators grouping left to right, give an expression. */
  predicate IsSum(e: Expr) {
    match e
    case Lit(_) => true
    case Bin(l, o, r) => if IsMulOp(o) then IsTerm(e) else IsAddOp(o) && IsSum(l) && IsTerm(r)
  }

  /** A bracket-free infix token sequence: numbers at the even positions,
      arithmetic operators at the odd ones, a number at each end. */
  predicate Alternating(ts: seq<Token>) {
    && |ts| % 2 == 1
    && (forall i :: 0 <= i < |ts| && i % 2 == 0 ==> ts[i].Number?)
    && (forall i :: 0 <= i < |ts| && i % 2 == 1 ==> ts[i].Operator? && IsArithmeticSymbol(ts[i].symbol))
  }

  /** The part of a sum already read: nothing yet, or a sum and the `+`/`-`
      that waits for its right operand. */
  datatype Prefix = Start | Pending(sum: Expr, addOp: char)

  predicate ValidPrefix(p: Prefix) {
    p.Pending? ==> IsSum(p.sum) && IsAddOp(p.addOp)
  }

  function Close(p: Prefix, term: Expr): Expr {
    match p
    case Start => term
    case Pending(s, a) => Bin(s, a, term)
  }

  /** Reads `op number` pairs left to right: a `*` or `/` extends the
      current product, a `+` or `-` closes it into the sum. */
  function ParseRest(p: Prefix, term: Expr, rest: seq<Token>): (e: Expr)
    requires ValidPrefix(p) && IsTerm(term)
    requires Alternating([Number(0)] + rest)
    ensures IsSum(e)
    ensures InfixOf(e) == InfixOf(Close(p, term)) + rest
    decreases |rest|
  {
    var tail := [Number(0)] + rest;
    if rest == [] then
      Close(p, term)
    else
      assert tail[1] == rest[0] && tail[2] == rest[1];
      var o, v := rest[0].symbol, rest[1].value;
      AlternatingDrop([Number(0)] + rest);
      assert [Number(0)] + rest[2..] == tail[2..][0 := Number(0)];
      if IsMulOp(o) then
        var e := ParseRest(p, Bin(term, o, Lit(v)), rest[2..]);
        CloseExtend(p, term, o, v);
        assert rest == [Operator(o), Number(v)] + rest[2..];
        e
      else
        var e := ParseRest(Pending(Close(p, term), o), Lit(v), rest[2..]);
        assert InfixOf(Close(Pending(Close(p, term), o), Lit(v)))
            == InfixOf(Close(p, term)) + [Operator(o)] + [Number(v)];
        assert rest == [Operator(o), Number(v)] + rest[2..];
        e
  }

  lemma CloseExtend(p: Prefix, term: Expr, o: char, v: nat)
    ensures InfixOf(Close(p, Bin(term, o, Lit(v)))) == InfixOf(Close(p, term)) + [Operator(o), Number(v)]
  {
    match p
    case Start =>
    case Pending(s, a) =>
      calc {
        InfixOf(Close(p, Bin(term, o, Lit(v))));
        InfixOf(Bin(s, a, Bin(term, o, Lit(v))));
        InfixOf(s) + [Operator(a)] + InfixOf(Bin(term, o, Lit(v)));
        InfixOf(s) + [Operator(a)] + (InfixOf(term) + [Operator(o)] + [Number(v)]);
        InfixOf(s) + [Operator(a)] + InfixOf(term) + [Operator(o), Number(v)];
      }
  }

  lemma AlternatingDrop(ts: seq<Token>)
    requires Alternating(ts) && |ts| >= 3
    ensures Alternating(ts[2..])
    ensures Alternating(ts[2..][0 := Number(0)])
  {
    var d := ts[2..];
    forall i | 0 <= i < |d| ensures i % 2 == 0 ==> d[i].Number? {
      assert d[i] == ts[i + 2];
    }
    forall i | 0 <= i < |d| ensures i % 2 == 1 ==> d[i].Operator? && IsArithmeticSymbol(d[i].symbol) {
      assert d[i] == ts[i + 2];
    }
  }

  /** Every bracket-free alternating token sequence is the infix spelling
      of exactly the sum-of-products tree that precedence and left-to-right
      grouping give it. */
  function Parse(ts: seq<Token>): (e: Expr)
    requires Alternating(ts)
    ensures IsSum(e) && InfixOf(e) == ts
  {
    var rest := ts[1..];
    assert [Number(0)] + rest == ts[0 := Number(0)];
    var e := ParseRest(Start, Lit(ts[0].value), rest);
    assert ts == [ts[0]] + rest;
    e
  }
}
