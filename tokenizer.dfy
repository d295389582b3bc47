/**
  The tokenizer: a regular-expression lexer over the alternation of a digit
  run and one of the six operator characters. Every other character lies
  between two matches and is skipped.
*/
module Tokenizer {
  import opened Tokens

  function DigitValue(c: char): (d: nat)
    requires IsDigit(c)
    ensures d < 10
  {
    c as int - '0' as int
  }

  function DigitChar(d: nat): (c: char)
    requires d < 10
    ensures IsDigit(c) && DigitValue(c) == d
  {
    ('0' as int + d) as char
  }

  predicate AllDigits(s: string) {
    forall i :: 0 <= i < |s| ==> IsDigit(s[i])
  }

  /** The value of a decimal numeral, most significant digit first; leading
      zeros do not change it, as with Double.parseDouble. */
  function DigitsValue(s: string): nat
    requires AllDigits(s)
    decreases |s|
  {
    if s == [] then 0 else 10 * DigitsValue(s[..|s| - 1]) + DigitValue(s[|s| - 1])
  }

  /** Length of the longest run of digits at the start of s: the greedy `\d+`. */
  function DigitRun(s: string): (k: nat)
    ensures k <= |s|
    ensures AllDigits(s[..k])
    ensures k < |s| ==> !IsDigit(s[k])
    ensures s != [] && IsDigit(s[0]) ==> k >= 1
  {
    if s == [] || !IsDigit(s[0]) then 0
    else
      var k := 1 + DigitRun(s[1..]);
      assert s[..k] == [s[0]] + s[1..][..k - 1];
      k
  }

  /** The tokens the regular-expression scan finds, from left to right. */
  function Lex(s: string): seq<Token>
    decreases |s|
  {
    if s == [] then []
    else if IsDigit(s[0]) then
      var k := DigitRun(s);
      [Number(DigitsValue(s[..k]))] + Lex(s[k..])
    else if IsOperatorSymbol(s[0]) then [Operator(s[0])] + Lex(s[1..])
    else Lex(s[1..])
  }

  /** A run of digits that is followed by a non-digit (or by nothing) is
      the whole greedy match. */
  lemma {:induction false} DigitRunExact(s: string, k: nat)
    requires k <= |s| && AllDigits(s[..k])
    requires k < |s| ==> !IsDigit(s[k])
    ensures DigitRun(s) == k
  {
    if k > 0 {
      assert IsDigit(s[..k][0]);
      assert s[1..][..k - 1] == s[..k][1..];
      DigitRunExact(s[1..], k - 1);
    }
  }

  lemma DigitsValueSnoc(s: string, c: char)
    requires AllDigits(s) && IsDigit(c)
    ensures AllDigits(s + [c])
    ensures DigitsValue(s + [c]) == 10 * DigitsValue(s) + DigitValue(c)
  {
    assert (s + [c])[..|s|] == s;
  }

  /** One step of the scan at a digit: the greedy run s[i..j] is one token. */
  lemma LexAtDigitRun(s: string, i: nat, j: nat)
    requires i < j <= |s| && AllDigits(s[i..j])
    requires j < |s| ==> !IsDigit(s[j])
    ensures Lex(s[i..]) == [Number(DigitsValue(s[i..j]))] + Lex(s[j..])
  {
    var rest := s[i..];
    assert rest[..j - i] == s[i..j];
    DigitRunExact(rest, j - i);
    assert rest[j - i..] == s[j..];
  }

  /** One step of the scan at a character that does not start a digit run. */
  lemma LexAtNonDigit(s: string, i: nat)
    requires i < |s| && !IsDigit(s[i])
    ensures Lex(s[i..]) == (if IsOperatorSymbol(s[i]) then [Operator(s[i])] else []) + Lex(s[i + 1..])
  {
    assert s[i..][1..] == s[i + 1..];
  }

  /** The imperative scan: one pass over the characters that appends a token
      for each match, as the `while (matcher.find())` loop does. */
  method Tokenize(expression: string) returns (tokens: seq<Token>)
    ensures tokens == Lex(expression)
  {
    tokens := [];
    var i := 0;
    while i < |expression|
      invariant 0 <= i <= |expression|
      invariant tokens + Lex(expression[i..]) == Lex(expression)
    {
      var c := expression[i];
      if IsDigit(c) {
        var j, value := MatchDigits(expression, i);
        LexAtDigitRun(expression, i, j);
        assert (tokens + [Number(value)]) + Lex(expression[j..]) == tokens + Lex(expression[i..]);
        tokens := tokens + [Number(value)];
        i := j;
      } else {
        LexAtNonDigit(expression, i);
        if IsOperatorSymbol(c) {
          assert (tokens + [Operator(c)]) + Lex(expression[i + 1..]) == tokens + Lex(expression[i..]);
          tokens := tokens + [Operator(c)];
        }
        i := i + 1;
      }
    }
  }

  /** The greedy `\d+` match at a digit: the longest run of digits from i,
      and its value. */
  method MatchDigits(s: string, i: nat) returns (j: nat, value: nat)
    requires i < |s| && IsDigit(s[i])
    ensures i < j <= |s| && AllDigits(s[i..j])
    ensures j < |s| ==> !IsDigit(s[j])
    ensures value == DigitsValue(s[i..j])
  {
    j, value := i + 1, DigitValue(s[i]);
    assert s[i..j] == [] + [s[i]];
    DigitsValueSnoc([], s[i]);
    while j < |s| && IsDigit(s[j])
      invariant i < j <= |s|
      invariant AllDigits(s[i..j])
      invariant value == DigitsValue(s[i..j])
    {
      DigitsValueSnoc(s[i..j], s[j]);
      assert s[i..j] + [s[j]] == s[i..j + 1];
      value := 10 * value + DigitValue(s[j]);
      j := j + 1;
    }
  }

  /** Every token is a natural-number literal or one of `+ - * / ( )`. */
  lemma {:induction false} LexWellFormed(s: string)
    ensures forall t :: t in Lex(s) ==> WellFormed(t)
    decreases |s|
  {
    if s != [] {
      if IsDigit(s[0]) {
        LexWellFormed(s[DigitRun(s)..]);
      } else {
        LexWellFormed(s[1..]);
      }
    }
  }

  /** A maximal run of digits becomes exactly one number token holding its
      decimal value, and a `-` in front of it stays a separate operator. */
  lemma LexDigitRun(sign: string, digits: string, rest: string)
    requires sign == [] || sign == ['-']
    requires digits != [] && AllDigits(digits)
    requires rest == [] || !IsDigit(rest[0])
    ensures Lex(sign + digits + rest)
         == (if sign == [] then [] else [Operator('-')]) + [Number(DigitsValue(digits))] + Lex(rest)
  {
    var s := digits + rest;
    assert s[..|digits|] == digits;
    DigitRunExact(s, |digits|);
    assert s[|digits|..] == rest;
    if sign != [] {
      assert (sign + digits + rest)[1..] == s;
    } else {
      assert sign + digits + rest == s;
    }
  }

  /** Scanning two pieces separately gives the same tokens, in the same order,
      as scanning them joined, unless a digit run would span the seam. */
  lemma {:induction false} LexAppend(a: string, b: string)
    requires a == [] || b == [] || !IsDigit(a[|a| - 1]) || !IsDigit(b[0])
    ensures Lex(a + b) == Lex(a) + Lex(b)
    decreases |a|
  {
    if a == [] {
      assert a + b == b;
    } else if IsDigit(a[0]) {
      var k := DigitRun(a);
      if k < |a| {
        LexAppend(a[k..], b);
      } else {
        assert a[k..] + b == b;
      }
      LexAppendRun(a, b, k);
    } else {
      LexAppend(a[1..], b);
      LexAppendChar(a, b);
    }
  }

  /** The step of LexAppend at a maximal digit run a[..k]: the run is also
      the first token of a + b. */
  lemma {:induction false} LexAppendRun(a: string, b: string, k: nat)
    requires 0 < k <= |a| && AllDigits(a[..k]) && (k < |a| ==> !IsDigit(a[k]))
    requires k == |a| ==> b == [] || !IsDigit(b[0])
    requires Lex(a[k..] + b) == Lex(a[k..]) + Lex(b)
    ensures Lex(a + b) == Lex(a) + Lex(b)
  {
    var ab := a + b;
    assert ab[..k] == a[..k] && ab[k..] == a[k..] + b;
    LexAtRunStart(a, k);
    LexAtRunStart(ab, k);
    RegroupHead([Number(DigitsValue(a[..k]))], Lex(a[k..]), Lex(b), Lex(a + b), Lex(a));
  }

  /** Moves the first part of a scan in front of a concatenation. */
  lemma RegroupHead(first: seq<Token>, x: seq<Token>, y: seq<Token>, whole: seq<Token>, left: seq<Token>)
    requires whole == first + (x + y) && left == first + x
    ensures whole == left + y
  {
  }

  /** A maximal digit run of length k at the front is the first token. */
  lemma {:induction false} LexAtRunStart(s: string, k: nat)
    requires 0 < k <= |s| && AllDigits(s[..k]) && (k < |s| ==> !IsDigit(s[k]))
    ensures Lex(s) == [Number(DigitsValue(s[..k]))] + Lex(s[k..])
  {
    DigitRunExact(s, k);
  }

  /** The step of LexAppend at a non-digit: that character is also the
      first thing a + b scans. */
  lemma {:induction false} LexAppendChar(a: string, b: string)
    requires a != [] && !IsDigit(a[0])
    requires Lex(a[1..] + b) == Lex(a[1..]) + Lex(b)
    ensures Lex(a + b) == Lex(a) + Lex(b)
  {
    var ab := a + b;
    assert ab[0..] == ab && a[0..] == a && ab[0] == a[0] && ab[1..] == a[1..] + b;
    LexAtNonDigit(ab, 0);
    LexAtNonDigit(a, 0);
    var first := if IsOperatorSymbol(a[0]) then [Operator(a[0])] else [];
    RegroupHead(first, Lex(a[1..]), Lex(b), Lex(a + b), Lex(a));
  }

  /** Decimal numeral of n without leading zeros, as Java prints an int. */
  function DecimalDigits(n: nat): (s: string)
    ensures s != [] && AllDigits(s)
    decreases n
  {
    if n < 10 then [DigitChar(n)] else DecimalDigits(n / 10) + [DigitChar(n % 10)]
  }

  lemma {:induction false} DecimalDigitsValue(n: nat)
    ensures DigitsValue(DecimalDigits(n)) == n
    decreases n
  {
    if n >= 10 {
      DecimalDigitsValue(n / 10);
      DigitsValueSnoc(DecimalDigits(n / 10), DigitChar(n % 10));
    }
  }

  function TokenText(t: Token): string {
    match t
    case Number(v) => DecimalDigits(v)
    case Operator(c) => [c]
  }

  /** Tokens written out separated by single spaces, the format the tests
      split back into tokens. */
  function Render(ts: seq<Token>): string {
    if ts == [] then []
    else if |ts| == 1 then TokenText(ts[0])
    else TokenText(ts[0]) + " " + Render(ts[1..])
  }

  lemma LexTokenText(t: Token)
    requires WellFormed(t)
    ensures Lex(TokenText(t)) == [t]
  {
    if t.Number? {
      DecimalDigitsValue(t.value);
      LexDigitRun([], DecimalDigits(t.value), []);
      assert [] + DecimalDigits(t.value) + [] == TokenText(t);
    } else {
      assert TokenText(t)[1..] == [];
    }
  }

  /** Round trip: scanning the space-separated rendering of well-formed
      tokens gives those tokens back. */
  lemma {:induction false} LexRender(ts: seq<Token>)
    requires forall t :: t in ts ==> WellFormed(t)
    ensures Lex(Render(ts)) == ts
  {
    if ts == [] {
    } else if |ts| == 1 {
      LexTokenText(ts[0]);
    } else {
      LexRender(ts[1..]);
      LexSeparated(ts[0], Render(ts[1..]));
    }
  }

  lemma LexSeparated(t: Token, rest: string)
    requires WellFormed(t)
    ensures Lex(TokenText(t) + " " + rest) == [t] + Lex(rest)
  {
    var tail := " " + rest;
    assert tail[0] == ' ' && tail[1..] == rest;
    assert Lex(tail) == Lex(rest);
    assert TokenText(t) + " " + rest == TokenText(t) + tail;
    LexTokenText(t);
    LexAppend(TokenText(t), tail);
  }

}
