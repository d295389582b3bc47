/**
  The random expression generator: items alternate between a digit from 1
  to 9 and one of `+ - * /`, each followed by a space, and the result is
  trimmed. The random draws are an input: draw i is the value nextInt
  returned for item i (below 9 for a digit, below 4 for an operator).
*/
module Generator {
  import opened Tokens
  import opened Tokenizer
  import opened Expressions

  const Operators: string := "+-*/"

  /** How many values nextInt may return for item i. */
  function DrawRange(i: nat): nat {
    if i % 2 == 0 then 9 else |Operators|
  }

  /** Enough draws for the requested length, each in its range. */
  predicate ValidDraws(length: int, draws: seq<nat>) {
    && length <= |draws|
    && forall i :: 0 <= i < length ==> draws[i] < DrawRange(i)
  }

  /** Item i made from its draw: a number from 1 to 9 at an even index, an
      operator at an odd one. */
  function Item(i: nat, draw: nat): (t: Token)
    requires draw < DrawRange(i)
    ensures i % 2 == 0 ==> t.Number? && 1 <= t.value <= 9
    ensures i % 2 == 1 ==> t.Operator? && IsArithmeticSymbol(t.symbol)
  {
    if i % 2 == 0 then Number(draw + 1) else Operator(Operators[draw])
  }

  /** The first n items the draws give. */
  function Items(n: nat, draws: seq<nat>): (ts: seq<Token>)
    requires ValidDraws(n, draws)
    ensures |ts| == n
    ensures forall i :: 0 <= i < n ==> ts[i] == Item(i, draws[i])
  {
    if n == 0 then [] else Items(n - 1, draws) + [Item(n - 1, draws[n - 1])]
  }

  /** The builder's contents after some items: each item's text and a space. */
  function Spaced(ts: seq<Token>): string {
    if ts == [] then [] else Spaced(ts[..|ts| - 1]) + TokenText(ts[|ts| - 1]) + " "
  }

  /** String.trim: drops every character up to and including the space from
      both ends. */
  function Trim(s: string): (r: string)
    ensures r == [] || (r[0] > ' ' && r[|r| - 1] > ' ')
    ensures exists i, j :: 0 <= i <= j <= |s| && r == s[i..j] && BlankOutside(s, i, j)
  {
    var e := TrimEnd(s);
    SliceBlanks(s, e, TrimStart(e));
    TrimStart(e)
  }

  /** Cutting blanks off the end, then off the start, leaves a slice with
      blanks only outside it. */
  lemma SliceBlanks(s: string, e: string, r: string)
    requires |e| <= |s| && e == s[..|e|] && forall k :: |e| <= k < |s| ==> s[k] <= ' '
    requires |r| <= |e| && r == e[|e| - |r|..] && forall k :: 0 <= k < |e| - |r| ==> e[k] <= ' '
    ensures r == s[|e| - |r|..|e|] && BlankOutside(s, |e| - |r|, |e|)
  {
    forall k | 0 <= k < |e| - |r|
      ensures s[k] <= ' '
    {
      assert s[k] == e[k];
    }
  }

  /** Every character of s before i and from j on is a blank (at most ' '). */
  predicate BlankOutside(s: string, i: nat, j: nat)
    requires i <= j <= |s|
  {
    (forall k :: 0 <= k < i ==> s[k] <= ' ') && (forall k :: j <= k < |s| ==> s[k] <= ' ')
  }

  function TrimEnd(s: string): (r: string)
    ensures r == [] || r[|r| - 1] > ' '
    ensures |r| <= |s| && r == s[..|r|]
    ensures forall k :: |r| <= k < |s| ==> s[k] <= ' '
  {
    if s != [] && s[|s| - 1] <= ' ' then TrimEnd(s[..|s| - 1]) else s
  }

  function TrimStart(s: string): (r: string)
    ensures r == [] || r[0] > ' '
    ensures s != [] && s[|s| - 1] > ' ' ==> r != [] && r[|r| - 1] == s[|s| - 1]
    ensures |r| <= |s| && r == s[|s| - |r|..]
    ensures forall k :: 0 <= k < |s| - |r| ==> s[k] <= ' '
  {
    if s != [] && s[0] <= ' ' then
      var r := TrimStart(s[1..]);
      DropBlank(s, r);
      r
    else s
  }

  /** What trimming the rest after one leading blank says about the whole. */
  lemma DropBlank(s: string, r: string)
    requires s != [] && s[0] <= ' '
    requires |r| <= |s| - 1 && r == s[1..][|s| - 1 - |r|..]
    requires forall k :: 0 <= k < |s| - 1 - |r| ==> s[1..][k] <= ' '
    ensures r == s[|s| - |r|..]
    ensures forall k :: 0 <= k < |s| - |r| ==> s[k] <= ' '
  {
    assert s[1..][|s| - 1 - |r|..] == s[|s| - |r|..];
    forall k | 0 <= k < |s| - |r|
      ensures s[k] <= ' '
    {
      if k > 0 {
        assert s[k] == s[1..][k - 1];
      }
    }
  }

  /** The generator loop: append each item and a space, then trim. */
  method GenerateRandomExpression(length: int, draws: seq<nat>) returns (expression: string)
    requires ValidDraws(length, draws)
    ensures length <= 0 ==> expression == []
    ensures length > 0 ==> expression == Render(Items(length, draws))
  {
    var builder: string := [];
    var i := 0;
    while i < length
      invariant 0 <= i && (i <= length || i == 0) && ValidDraws(i, draws)
      invariant builder == Spaced(Items(i, draws))
    {
      ghost var item := Item(i, draws[i]);
      var text: string;
      if i % 2 == 0 {
        text := DecimalDigits(draws[i] + 1);
      } else {
        text := [Operators[draws[i]]];
      }
      assert text == TokenText(item);
      builder := builder + text + " ";
      SpacedItems(i, draws);
      i := i + 1;
    }
    expression := Trim(builder);
    TrimBuilder(i, draws);
  }

  /** Trimming what the loop built gives the items joined by single spaces. */
  lemma TrimBuilder(n: nat, draws: seq<nat>)
    requires ValidDraws(n, draws)
    ensures n == 0 ==> Trim(Spaced(Items(n, draws))) == []
    ensures n > 0 ==> Trim(Spaced(Items(n, draws))) == Render(Items(n, draws))
  {
    var ts := Items(n, draws);
    if n > 0 {
      assert forall t :: t in ts ==> WellFormed(t);
      TrimSpaced(ts);
    } else {
      assert Spaced(ts) == [];
    }
  }

  /** Each pass of the loop adds the next item's text and a space. */
  lemma SpacedItems(i: nat, draws: seq<nat>)
    requires ValidDraws(i + 1, draws)
    ensures Spaced(Items(i + 1, draws)) == Spaced(Items(i, draws)) + TokenText(Item(i, draws[i])) + " "
  {
    var ts := Items(i + 1, draws);
    assert ts[..i] == Items(i, draws);
  }

  /** Adding one more token to the rendering adds a space and its text. */
  lemma {:induction false} RenderSnoc(ts: seq<Token>, t: Token)
    requires ts != []
    ensures Render(ts + [t]) == Render(ts) + " " + TokenText(t)
  {
    var whole := ts + [t];
    var head := TokenText(ts[0]) + " ";
    assert whole[0] == ts[0];
    if |ts| == 1 {
      assert whole[1..] == [t];
      assert Render(whole) == head + TokenText(t);
    } else {
      var rest := ts[1..];
      assert whole[1..] == rest + [t];
      RenderSnoc(rest, t);
      assert Render(whole) == head + (Render(rest) + " " + TokenText(t));
      assert Render(ts) == head + Render(rest);
    }
  }

  /** The builder is the rendering followed by one space. */
  lemma {:induction false} SpacedRender(ts: seq<Token>)
    requires ts != []
    ensures Spaced(ts) == Render(ts) + " "
  {
    var init := ts[..|ts| - 1];
    if init == [] {
      assert ts == [ts[0]];
    } else {
      SpacedRender(init);
      RenderSnoc(init, ts[|ts| - 1]);
      assert init + [ts[|ts| - 1]] == ts;
    }
  }

  /** No character of a token's text is blank. */
  predicate Visible(s: string) {
    forall i :: 0 <= i < |s| ==> s[i] > ' '
  }

  lemma TokenTextVisible(t: Token)
    requires WellFormed(t)
    ensures TokenText(t) != [] && Visible(TokenText(t))
  {
  }

  /** The rendering starts and ends with a visible character. */
  lemma {:induction false} RenderEnds(ts: seq<Token>)
    requires ts != [] && forall t :: t in ts ==> WellFormed(t)
    ensures Render(ts) != [] && Render(ts)[0] > ' ' && Render(ts)[|Render(ts)| - 1] > ' '
  {
    TokenTextVisible(ts[0]);
    if |ts| > 1 {
      RenderEnds(ts[1..]);
    }
  }

  /** Trimming the builder removes exactly the one trailing space. */
  lemma TrimSpaced(ts: seq<Token>)
    requires ts != [] && forall t :: t in ts ==> WellFormed(t)
    ensures Trim(Spaced(ts)) == Render(ts)
  {
    SpacedRender(ts);
    RenderEnds(ts);
    var s := Render(ts);
    assert (s + " ")[..|s|] == s;
    assert TrimEnd(s + " ") == TrimEnd(s);
    TrimmedKeepsVisibleEnds(s);
  }

  lemma TrimmedKeepsVisibleEnds(s: string)
    requires s != [] && s[0] > ' ' && s[|s| - 1] > ' '
    ensures TrimEnd(s) == s && TrimStart(s) == s
  {
  }

  /** Rendering one-character tokens: each token's character at an even
      position, a space at each odd one. */
  lemma {:induction false} RenderShape(ts: seq<Token>)
    requires ts != [] && forall i :: 0 <= i < |ts| ==> |TokenText(ts[i])| == 1
    ensures |Render(ts)| == 2 * |ts| - 1
    ensures forall j :: 0 <= j < |Render(ts)| ==>
      Render(ts)[j] == if j % 2 == 1 then ' ' else TokenText(ts[j / 2])[0]
  {
    if |ts| > 1 {
      var rest := ts[1..];
      RenderShape(rest);
      var r := Render(ts);
      assert r == TokenText(ts[0]) + " " + Render(rest);
      forall j | 0 <= j < |r|
        ensures r[j] == if j % 2 == 1 then ' ' else TokenText(ts[j / 2])[0]
      {
        if j >= 2 {
          assert r[j] == Render(rest)[j - 2];
          assert rest[(j - 2) / 2] == ts[j / 2];
        }
      }
    }
  }

  /** The generated text for length n at least 1: 2n - 1 characters; item k
      sits at position 2k with a space after it; items at even k are the
      digits 1 to 9, items at odd k the four operators. */
  lemma GeneratedShape(n: nat, draws: seq<nat>)
    requires n >= 1 && ValidDraws(n, draws)
    ensures var e := Render(Items(n, draws));
      && |e| == 2 * n - 1
      && (forall j :: 0 <= j < |e| && j % 2 == 1 ==> e[j] == ' ')
      && (forall k :: 0 <= k < n && k % 2 == 0 ==> '1' <= e[2 * k] <= '9')
      && (forall k :: 0 <= k < n && k % 2 == 1 ==> e[2 * k] in Operators)
  {
    var ts := Items(n, draws);
    ItemTexts(n, draws);
    RenderShape(ts);
    var e := Render(ts);
    forall k | 0 <= k < n
      ensures e[2 * k] == TokenText(ts[k])[0]
    {
      assert (2 * k) / 2 == k && (2 * k) % 2 == 0;
    }
  }


  /** Every item's text is one character: a digit from 1 to 9 for a number,
      one of the four operators otherwise. */
  lemma ItemTexts(n: nat, draws: seq<nat>)
    requires ValidDraws(n, draws)
    ensures var ts := Items(n, draws);
      forall i :: 0 <= i < n ==>
        && |TokenText(ts[i])| == 1
        && (i % 2 == 0 ==> '1' <= TokenText(ts[i])[0] <= '9')
        && (i % 2 == 1 ==> TokenText(ts[i])[0] in Operators)
  {
    var ts := Items(n, draws);
    forall i | 0 <= i < n
      ensures |TokenText(ts[i])| == 1
      ensures i % 2 == 0 ==> '1' <= TokenText(ts[i])[0] <= '9'
      ensures i % 2 == 1 ==> TokenText(ts[i])[0] in Operators
    {
      assert ts[i] == Item(i, draws[i]);
    }
  }


  /** Scanning the generated text gives back exactly the drawn items. */
  lemma LexGenerated(n: nat, draws: seq<nat>)
    requires ValidDraws(n, draws)
    ensures Lex(Render(Items(n, draws))) == Items(n, draws)
  {
    var ts := Items(n, draws);
    forall t | t in ts ensures WellFormed(t) {
    }
    LexRender(ts);
  }

  /** An odd length gives a bracket-free expression that starts and ends
      with a number; an even length ends with an operator. */
  lemma GeneratedForm(n: nat, draws: seq<nat>)
    requires n >= 1 && ValidDraws(n, draws)
    ensures n % 2 == 1 ==> Alternating(Items(n, draws))
    ensures n % 2 == 0 ==> Items(n, draws)[n - 1].Operator?
  {
  }
}
