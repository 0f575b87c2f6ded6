/**
 * What the sweep of noalloc.c's scanner produces: it fails exactly when the text holds an
 * unknown character, ignores everything from the first one on, and reads back what a printer
 * writes, whatever whitespace separates the tokens, none included except between two numbers.
 */
module NoAllocLexCorrectness {
  import opened Lexical
  import opened NoAllocSpec

  /** A sweep fails exactly when the text holds a character the scanner does not know. */
  lemma {:induction false} LexFailsIffUnknown(s: string)
    ensures Lex(s).failed <==> exists i :: 0 <= i < |s| && !Known(s[i])
    decreases |s|
  {
    if s != [] && Known(s[0]) {
      var step := LexStep(s);
      var tail := s[step.width..];
      LexFailsIffUnknown(tail);
      if exists i :: 0 <= i < |tail| && !Known(tail[i]) {
        var i :| 0 <= i < |tail| && !Known(tail[i]);
        assert s[step.width + i] == tail[i];
      }
      if exists i :: 0 <= i < |s| && !Known(s[i]) {
        var i :| 0 <= i < |s| && !Known(s[i]);
        if i >= step.width {
          assert tail[i - step.width] == s[i];
        } else {
          // Only a number is wider than one character, and all its characters are digits.
          DigitRunDigits(s[1..]);
          assert s[1..][..step.width - 1][i - 1] == s[i];
        }
      }
    }
  }

  /** Text after a non-digit does not change how far a digit run reaches. */
  lemma {:induction false} DigitRunAppend(d: string, x: string)
    requires x == [] || !IsNumber(x[0])
    ensures DigitRun(d + x) == DigitRun(d)
    decreases |d|
  {
    if d != [] {
      assert (d + x)[1..] == d[1..] + x;
      DigitRunAppend(d[1..], x);
    } else {
      assert d + x == x;
    }
  }

  /** A lexeme of `p` is still the first lexeme when a non-digit, or nothing, follows `p`. */
  lemma LexStepExtends(p: string, x: string)
    requires p != [] && (x == [] || !IsNumber(x[0]))
    ensures LexStep(p + x) == LexStep(p)
  {
    assert (p + x)[1..] == p[1..] + x;
    if IsNumber(p[0]) && !IsPunctuator(p[0]) {
      DigitRunAppend(p[1..], x);
      var n := 1 + DigitRun(p[1..]);
      assert (p + x)[..n] == p[..n];
    }
  }

  /**
   * The sweep stops at the first unknown character: after a text of known characters, an
   * unknown one ends the sweep with the failure flag set, and nothing after it is read.
   */
  lemma {:induction false} LexStopsAtUnknown(p: string, c: char, q: string)
    requires forall i :: 0 <= i < |p| ==> Known(p[i])
    requires !Known(c)
    ensures Lex(p + [c] + q) == Sweep(Lex(p).tokens, true)
    decreases |p|
  {
    var s := p + [c] + q;
    if p == [] {
      assert s[0] == c;
    } else {
      assert s == p + ([c] + q);
      LexStepExtends(p, [c] + q);
      var w := LexStep(p).width;
      assert s[0] == p[0];
      assert s[w..] == p[w..] + [c] + q;
      LexStopsAtUnknown(p[w..], c, q);
    }
  }

  // ---------------------------------------------------------------- printing

  /** The tokens a sweep appends: punctuators of value 0, and numbers that are not negative. */
  predicate Produced(t: Token) {
    if t.kind == LitNumber then t.value >= 0
    else t.kind in {ParenL, ParenR, OpPlus, OpMinus, OpStar, OpSlash, OpPow} && t.value == 0
  }

  /** The characters of a token; only a number's start with a digit. */
  function Spell(t: Token): (s: string)
    requires Produced(t)
    ensures s != [] && !Lexical.IsWhitespace(s[0])
    ensures IsNumber(s[0]) <==> t.kind == LitNumber
  {
    match t.kind
    case ParenL => "("
    case ParenR => ")"
    case OpPlus => "+"
    case OpMinus => "-"
    case OpStar => "*"
    case OpSlash => "/"
    case OpPow => "^"
    case LitNumber => Decimal(t.value)
  }

  /** Two numbers in a row: their spellings would run together into one number. */
  predicate Glued(a: Token, b: Token) {
    a.kind == LitNumber && b.kind == LitNumber
  }

  /**
   * Valid separators, one after each token: runs of whitespace, possibly empty, except that a
   * number followed by a number needs at least one whitespace character after it.
   */
  predicate Gaps(toks: seq<Token>, gaps: seq<string>)
    requires |gaps| == |toks|
  {
    && (forall i :: 0 <= i < |gaps| ==> AllWhitespace(gaps[i]))
    && (forall i :: 0 < i < |toks| && Glued(toks[i - 1], toks[i]) ==> gaps[i - 1] != [])
  }

  /** The text of `toks`, each spelling followed by its gap. */
  function Render(toks: seq<Token>, gaps: seq<string>): string
    requires |gaps| == |toks| && forall t :: t in toks ==> Produced(t)
  {
    if toks == [] then "" else Spell(toks[0]) + gaps[0] + Render(toks[1..], gaps[1..])
  }

  /** Whitespace before a text changes nothing in its sweep. */
  lemma {:induction false} LexSkipsWhitespace(gap: string, s: string)
    requires AllWhitespace(gap)
    ensures Lex(gap + s) == Lex(s)
    decreases |gap|
  {
    if gap != [] {
      assert (gap + s)[0] == gap[0] && !IsPunctuator(gap[0]) && !IsNumber(gap[0]);
      assert LexStep(gap + s) == Lexeme([], 1, false);
      assert (gap + s)[1..] == gap[1..] + s;
      LexSkipsWhitespace(gap[1..], s);
      assert [] + Lex(s).tokens == Lex(s).tokens;
    } else {
      assert gap + s == s;
    }
  }

  /** A number's digits, followed by nothing or by a non-digit, are one lexeme: that number. */
  lemma LexNumberSpelling(t: Token, after: string)
    requires t.kind == LitNumber && t.value >= 0
    requires after == [] || !IsNumber(after[0])
    ensures LexStep(Decimal(t.value) + after) == Lexeme([t], |Decimal(t.value)|, false)
  {
    var d := Decimal(t.value);
    var s := d + after;
    DigitRunOfRunThenOther(d[1..], after);
    assert s[1..] == d[1..] + after;
    assert s[..|d|] == d;
    DecimalRoundTrip(t.value);
  }

  /**
   * A token's spelling followed by a gap sweeps to that one token, and the sweep goes on after
   * the gap; a number needs the text after it to start with something other than a digit.
   */
  lemma LexSpelling(t: Token, gap: string, rest: string)
    requires Produced(t) && AllWhitespace(gap)
    requires t.kind == LitNumber && gap == [] && rest != [] ==> !IsNumber(rest[0])
    ensures Lex(Spell(t) + gap + rest) == Sweep([t] + Lex(rest).tokens, Lex(rest).failed)
  {
    var s := Spell(t) + gap + rest;
    var w := |Spell(t)|;
    if t.kind == LitNumber {
      assert s == Spell(t) + (gap + rest);
      assert gap + rest == [] || !IsNumber((gap + rest)[0]) by {
        if gap != [] {
          assert (gap + rest)[0] == gap[0];
        } else {
          assert gap + rest == rest;
        }
      }
      LexNumberSpelling(t, gap + rest);
    } else {
      assert LexStep(s) == Lexeme([t], 1, false);
    }
    assert s[w..] == gap + rest;
    LexSkipsWhitespace(gap, rest);
  }

  /** A printed text starts with a digit exactly when its first token is a number. */
  lemma RenderStart(toks: seq<Token>, gaps: seq<string>)
    requires |gaps| == |toks| && forall t :: t in toks ==> Produced(t)
    ensures toks != [] ==> Render(toks, gaps) != [] && (IsNumber(Render(toks, gaps)[0]) <==> toks[0].kind == LitNumber)
  {
    if toks != [] {
      assert Render(toks, gaps)[0] == Spell(toks[0])[0];
    }
  }

  /** Printing then sweeping gives back the tokens, with no failure, whatever the valid gaps. */
  lemma {:induction false} LexRender(toks: seq<Token>, gaps: seq<string>)
    requires |gaps| == |toks| && Gaps(toks, gaps) && forall t :: t in toks ==> Produced(t)
    ensures Lex(Render(toks, gaps)) == Sweep(toks, false)
    decreases |toks|
  {
    if toks != [] {
      var tl, gl := toks[1..], gaps[1..];
      assert Gaps(tl, gl) by {
        forall i | 0 < i < |tl| && Glued(tl[i - 1], tl[i])
          ensures gl[i - 1] != []
        {
          assert tl[i - 1] == toks[i] && tl[i] == toks[i + 1];
        }
      }
      LexRender(tl, gl);
      var rest := Render(tl, gl);
      RenderStart(tl, gl);
      if tl != [] {
        assert toks[1] == tl[0];
      }
      LexSpelling(toks[0], gaps[0], rest);
      assert [toks[0]] + tl == toks;
    }
  }

  /** A text the sweep takes without failure has no NUL, so `strlen` counts all of it. */
  lemma CleanStrLen(s: string)
    requires !Lex(s).failed
    ensures StrLen(s) == |s|
  {
    LexFailsIffUnknown(s);
  }

  /** A printed text has no NUL, so `strlen` counts all of it. */
  lemma RenderStrLen(toks: seq<Token>, gaps: seq<string>)
    requires |gaps| == |toks| && Gaps(toks, gaps) && forall t :: t in toks ==> Produced(t)
    ensures var text := Render(toks, gaps); StrLen(text) == |text|
  {
    var text := Render(toks, gaps);
    LexRender(toks, gaps);
    CleanStrLen(text);
  }
}
