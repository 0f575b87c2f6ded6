/**
 * The scanner of scanner.h reads back what a printer writes: spelling each token and separating
 * the spellings by any whitespace, or by none except between two numbers, scans to exactly
 * those tokens, without failure.
 */
module ScannerCorrectness {
  import opened Tokens
  import opened Lexical
  import opened Scanning

  /** The characters of a token the scanner can produce; only a number's start with a digit. */
  function Spell(t: Token): (s: string)
    requires Produced(t)
    ensures s != [] && !Lexical.IsWhitespace(s[0])
    ensures IsNumber(s[0]) <==> t.kind == LiteralNumber
  {
    match t.kind
    case ParenL => "("
    case ParenR => ")"
    case OpPlus => "+"
    case OpMinus => "-"
    case OpStar => "*"
    case OpSlash => "/"
    case LiteralNumber => Decimal(t.value)
  }

  /** Two numbers in a row: their spellings would run together into one number. */
  predicate Glued(a: Token, b: Token) {
    a.kind == LiteralNumber && b.kind == LiteralNumber
  }

  /**
   * Valid separators, one after each token: runs of whitespace, possibly empty, except that a
   * number followed by a number needs at least one whitespace character after it.
   */
  predicate Gaps(toks: seq<Token>, gaps: seq<string>)
    requires |gaps| == |toks|
  {
    && (forall i :: 0 <= i < |gaps| ==> AllWhitespace(gaps[i]))
    && (forall i :: 0 < i < |toks| && Glued(toks[i - 1], toks[i]) ==> gaps[i - 1] != [])
  }

  /** The text of `toks`, each spelling followed by its gap. */
  function Render(toks: seq<Token>, gaps: seq<string>): string
    requires |gaps| == |toks| && forall t :: t in toks ==> Produced(t)
  {
    if toks == [] then "" else Spell(toks[0]) + gaps[0] + Render(toks[1..], gaps[1..])
  }

  /** Whitespace before a text changes nothing in its scan. */
  lemma {:induction false} LexSkipsWhitespace(gap: string, s: string)
    requires AllWhitespace(gap)
    ensures Lex(gap + s) == Lex(s)
    decreases |gap|
  {
    if gap != [] {
      assert (gap + s)[0] == gap[0] && !IsPunctuator(gap[0]);
      assert LexStep(gap + s) == Lexeme([], 1, false);
      assert (gap + s)[1..] == gap[1..] + s;
      LexSkipsWhitespace(gap[1..], s);
      assert [] + Lex(s).tokens == Lex(s).tokens;
    } else {
      assert gap + s == s;
    }
  }

  /** A number's digits, followed by nothing or by a non-digit, are one lexeme: that number. */
  lemma LexNumberSpelling(t: Token, after: string)
    requires t.kind == LiteralNumber && t.value >= 0
    requires after == [] || !IsNumber(after[0])
    ensures LexStep(Decimal(t.value) + after) == Lexeme([t], |Decimal(t.value)|, false)
  {
    var d := Decimal(t.value);
    var s := d + after;
    DigitRunOfRunThenOther(d[1..], after);
    assert s[1..] == d[1..] + after;
    assert s[..|d|] == d;
    DecimalRoundTrip(t.value);
  }

  /**
   * A token's spelling followed by a gap scans to that one token, and the scan goes on after the
   * gap; a number needs the text after it to start with something other than a digit.
   */
  lemma LexSpelling(t: Token, gap: string, rest: string)
    requires Produced(t) && AllWhitespace(gap)
    requires t.kind == LiteralNumber && gap == [] && rest != [] ==> !IsNumber(rest[0])
    ensures Lex(Spell(t) + gap + rest) == Scan([t] + Lex(rest).tokens, Lex(rest).failed)
  {
    var s := Spell(t) + gap + rest;
    var w := |Spell(t)|;
    if t.kind == LiteralNumber {
      assert s == Spell(t) + (gap + rest);
      assert gap + rest == [] || !IsNumber((gap + rest)[0]) by {
        if gap != [] {
          assert (gap + rest)[0] == gap[0];
        } else {
          assert gap + rest == rest;
        }
      }
      LexNumberSpelling(t, gap + rest);
    } else {
      assert LexStep(s) == Lexeme([t], 1, false);
    }
    assert s[w..] == gap + rest;
    LexSkipsWhitespace(gap, rest);
  }

  /** A rendered text starts with a digit exactly when its first token is a number. */
  lemma RenderStart(toks: seq<Token>, gaps: seq<string>)
    requires |gaps| == |toks| && forall t :: t in toks ==> Produced(t)
    ensures toks != [] ==> Render(toks, gaps) != [] && (IsNumber(Render(toks, gaps)[0]) <==> toks[0].kind == LiteralNumber)
  {
    if toks != [] {
      assert Render(toks, gaps)[0] == Spell(toks[0])[0];
    }
  }

  /** Rendering then scanning gives back the tokens, with no failure, whatever the valid gaps. */
  lemma {:induction false} LexRender(toks: seq<Token>, gaps: seq<string>)
    requires |gaps| == |toks| && Gaps(toks, gaps) && forall t :: t in toks ==> Produced(t)
    ensures Lex(Render(toks, gaps)) == Scan(toks, false)
    decreases |toks|
  {
    if toks != [] {
      var tl, gl := toks[1..], gaps[1..];
      assert Gaps(tl, gl) by {
        forall i | 0 < i < |tl| && Glued(tl[i - 1], tl[i])
          ensures gl[i - 1] != []
        {
          assert tl[i - 1] == toks[i] && tl[i] == toks[i + 1];
        }
      }
      LexRender(tl, gl);
      var rest := Render(tl, gl);
      RenderStart(tl, gl);
      if tl != [] {
        assert toks[1] == tl[0];
      }
      LexSpelling(toks[0], gaps[0], rest);
      assert [toks[0]] + tl == toks;
    }
  }
}
