/**
 * noalloc.c: the same evaluator with no heap. Its file-scope globals are the fields of one
 * object; the scanner appends into a fixed array of 1024 token slots and the parser reads them
 * back. Each method is proved to do what the reference model of NoAllocSpec says.
 */
module NoAlloc {
  import opened Lexical
  import opened Arith
  import opened NoAllocSpec

  /** The number of slots of `parser_tokens`. */
  const TOKEN_SLOTS: nat := 1024

  /** `powi`: multiply 1 by `a`, `b` times. */
  method Powi(a: int, b: int) returns (ans: int)
    ensures ans == Pow(a, b)
  {
    ans := 1;
    var i := 0;
    while i < b
      invariant b <= 0 ==> i == 0
      invariant b > 0 ==> 0 <= i <= b
      invariant ans == Pow(a, i)
    {
      PowStep(a, i);
      ans := ans * a;
      i := i + 1;
    }
  }

  /** One more factor: a^(i+1) == a^i * a. */
  lemma PowStep(a: int, i: nat)
    ensures Pow(a, i + 1) == Pow(a, i) * a
  {
    PowAdd(a, i, 1);
  }

  /** The file-scope state of noalloc.c. */
  class Globals {
    var hasFailed: bool
    var scannerSource: string
    var scannerSourceLength: int
    var scannerCurrent: int
    var scannerStart: int
    var parserTokens: array<Token>
    var parserTokensLength: int
    var parserCurrent: nat

    /** The fixed token array and its fill count. */
    ghost predicate ParserValid()
      reads this`parserTokens, this`parserTokensLength
    {
      parserTokens.Length == TOKEN_SLOTS && 0 <= parserTokensLength <= TOKEN_SLOTS
    }

    /** The scanner cursors lie within the text. */
    ghost predicate ScannerValid()
      reads this`scannerSource, this`scannerSourceLength, this`scannerCurrent, this`scannerStart
    {
      0 <= scannerStart <= scannerCurrent <= scannerSourceLength <= |scannerSource|
    }

    /** The tokens appended so far. */
    ghost function Toks(): seq<Token>
      reads this`parserTokens, this`parserTokensLength, parserTokens
      requires ParserValid()
    {
      parserTokens[..parserTokensLength]
    }

    /** The text being scanned. */
    ghost function Text(): string
      reads this`scannerSource, this`scannerSourceLength
      requires 0 <= scannerSourceLength <= |scannerSource|
    {
      scannerSource[..scannerSourceLength]
    }

    /** The parser's state, as the reference model sees it. */
    ghost function Cursor(): State
      reads this`parserCurrent, this`hasFailed
    {
      State(parserCurrent, hasFailed, false)
    }

    /** The static initialisers: an empty source, zeroed cursors, and every slot zero, that is `TOKEN_NONE`. */
    constructor ()
      ensures ParserValid() && ScannerValid()
      ensures !hasFailed && scannerSource == "" && scannerSourceLength == 0
      ensures scannerCurrent == 0 && scannerStart == 0
      ensures parserTokensLength == 0 && parserCurrent == 0
      ensures parserTokens[..] == seq(TOKEN_SLOTS, _ => Token(None, 0))
    {
      hasFailed := false;
      scannerSource := "";
      scannerSourceLength := 0;
      scannerCurrent := 0;
      scannerStart := 0;
      parserTokens := new Token[TOKEN_SLOTS](_ => Token(None, 0));
      parserTokensLength := 0;
      parserCurrent := 0;
    }

    // ------------------------------------------------------------ scanner

    /** `scanner_is_at_end`: past the text, or failed. */
    predicate ScannerIsAtEnd()
      reads this`scannerCurrent, this`scannerSourceLength, this`hasFailed
    {
      scannerCurrent >= scannerSourceLength || hasFailed
    }

    /** `scanner_peek_at`. */
    function ScannerPeekAt(offset: int): char
      reads this`scannerSource, this`scannerCurrent
      requires 0 <= scannerCurrent + offset < |scannerSource|
    {
      scannerSource[scannerCurrent + offset]
    }

    /** `scanner_peek`. */
    function ScannerPeek(): char
      reads this`scannerSource, this`scannerCurrent
      requires 0 <= scannerCurrent < |scannerSource|
    {
      ScannerPeekAt(0)
    }

    /** `scanner_peek_previous`. */
    function ScannerPeekPrevious(): char
      reads this`scannerSource, this`scannerCurrent
      requires 0 < scannerCurrent <= |scannerSource|
    {
      ScannerPeekAt(-1)
    }

    /** `scanner_advance`: only ever called before the end of the text. */
    method ScannerAdvance() returns (c: char)
      requires ScannerValid() && scannerCurrent < scannerSourceLength
      modifies this`scannerCurrent
      ensures ScannerValid()
      ensures c == Text()[old(scannerCurrent)] && scannerCurrent == old(scannerCurrent) + 1
    {
      c := ScannerPeek();
      scannerCurrent := scannerCurrent + 1;
    }

    /**
     * `scanner_match`: consume one character exactly when it is `c`. At the end of the text the
     * character read is the terminating NUL, and matching it moves the cursor past the text.
     */
    method ScannerMatch(c: char) returns (b: bool)
      requires ScannerValid()
      modifies this`scannerCurrent
      ensures c != '\0' ==> ScannerValid()
      ensures var at := old(scannerCurrent);
        b == ((if at < scannerSourceLength then Text()[at] else '\0') == c)
      ensures scannerCurrent == if b then old(scannerCurrent) + 1 else old(scannerCurrent)
    {
      var d := if scannerCurrent < scannerSourceLength then ScannerPeek() else '\0';
      if d == c {
        scannerCurrent := scannerCurrent + 1;
        return true;
      }
      return false;
    }

    /** `scanner_add_token_with_value`: fill the next slot; no other slot changes. */
    method AddTokenWithValue(kind: Kind, value: int)
      requires ParserValid() && parserTokensLength < TOKEN_SLOTS
      modifies parserTokens, this`parserTokensLength
      ensures ParserValid()
      ensures Toks() == old(Toks()) + [Token(kind, value)]
      ensures forall i :: parserTokensLength <= i < TOKEN_SLOTS ==> parserTokens[i] == old(parserTokens[i])
    {
      parserTokens[parserTokensLength] := Token(kind, value);
      parserTokensLength := parserTokensLength + 1;
    }

    /** `scanner_add_token`: a token of value 0. */
    method AddToken(kind: Kind)
      requires ParserValid() && parserTokensLength < TOKEN_SLOTS
      modifies parserTokens, this`parserTokensLength
      ensures ParserValid()
      ensures Toks() == old(Toks()) + [Token(kind, 0)]
      ensures forall i :: parserTokensLength <= i < TOKEN_SLOTS ==> parserTokens[i] == old(parserTokens[i])
    {
      AddTokenWithValue(kind, 0);
    }

    /**
     * `scanner_scan_number`, called just after a digit was consumed: take the rest of the digit
     * run, unless the failure flag ends the loop at once, and yield the value of all the digits
     * taken, the first one included.
     */
    method ScanNumber() returns (ans: int)
      requires ScannerValid() && 0 < scannerCurrent
      modifies this`scannerCurrent
      ensures ScannerValid()
      ensures scannerCurrent == old(scannerCurrent) + if hasFailed then 0 else DigitRun(Text()[old(scannerCurrent)..])
      ensures ans == DecimalValue(Text()[old(scannerCurrent) - 1..scannerCurrent])
    {
      ghost var text, start, first := Text(), scannerCurrent, scannerCurrent - 1;
      ans := DigitValue(ScannerPeekPrevious());
      assert text[first..scannerCurrent] == [text[first]];
      while !ScannerIsAtEnd() && IsNumber(ScannerPeek())
        invariant ScannerValid() && Text() == text && start <= scannerCurrent
        invariant ans == DecimalValue(text[first..scannerCurrent])
        invariant hasFailed ==> scannerCurrent == start
        invariant forall m :: start <= m < scannerCurrent ==> IsNumber(text[m])
        decreases scannerSourceLength - scannerCurrent
      {
        ghost var k := scannerCurrent;
        ans := ans * 10;
        var c := ScannerAdvance();
        ans := ans + DigitValue(c);
        DecimalValueExtend(text, first, k + 1);
      }
      if !hasFailed {
        DigitRunSpan(text, start, scannerCurrent);
      }
    }

    /** `scanner_scan_token`: handle the lexeme at `scannerCurrent`, which is not at the end. */
    method ScanToken()
      requires ScannerValid() && ParserValid() && !ScannerIsAtEnd() && parserTokensLength < TOKEN_SLOTS
      modifies this`scannerCurrent, this`hasFailed, parserTokens, this`parserTokensLength
      ensures ScannerValid() && ParserValid()
      ensures var step := LexStep(Text()[old(scannerCurrent)..]);
        && scannerCurrent == old(scannerCurrent) + step.width
        && Toks() == old(Toks()) + step.emitted
        && hasFailed == step.failed
      ensures forall i :: parserTokensLength <= i < TOKEN_SLOTS ==> parserTokens[i] == old(parserTokens[i])
    {
      ghost var rest := Text()[scannerCurrent..];
      var c := ScannerAdvance();
      assert c == rest[0];
      if IsPunctuator(c) {
        AddToken(PunctuatorKind(c));
      } else if IsNumber(c) {
        assert rest[1..] == Text()[scannerCurrent..];
        var x := ScanNumber();
        assert Text()[old(scannerCurrent)..scannerCurrent] == rest[..scannerCurrent - old(scannerCurrent)];
        AddTokenWithValue(LitNumber, x);
      } else if Lexical.IsWhitespace(c) {
      } else {
        hasFailed := true;
      }
    }

    /**
     * `scanner_scan`: sweep the rest of the text unless the failure flag is already set, then
     * append one `EOF`. Room is needed for every token of the sweep and the `EOF`.
     */
    method Scan()
      requires ScannerValid() && ParserValid()
      requires parserTokensLength + |Pending(Text()[scannerCurrent..], hasFailed).tokens| < TOKEN_SLOTS
      modifies this`scannerCurrent, this`scannerStart, this`hasFailed, parserTokens, this`parserTokensLength
      ensures ScannerValid() && ParserValid()
      ensures var sweep := Pending(old(Text()[scannerCurrent..]), old(hasFailed));
        && Toks() == old(Toks()) + sweep.tokens + [Token(Eof, 0)]
        && hasFailed == sweep.failed
      ensures !hasFailed ==> scannerCurrent == scannerSourceLength
      ensures forall i :: parserTokensLength <= i < TOKEN_SLOTS ==> parserTokens[i] == old(parserTokens[i])
    {
      ghost var text := Text();
      ghost var base := Toks();
      ghost var whole := Pending(text[scannerCurrent..], hasFailed);
      while !ScannerIsAtEnd()
        invariant ScannerValid() && ParserValid() && Text() == text
        invariant base + whole.tokens == Toks() + Pending(text[scannerCurrent..], hasFailed).tokens
        invariant whole.failed == Pending(text[scannerCurrent..], hasFailed).failed
        invariant forall i :: parserTokensLength <= i < TOKEN_SLOTS ==> parserTokens[i] == old(parserTokens[i])
        decreases scannerSourceLength - scannerCurrent
      {
        scannerStart := scannerCurrent;
        ghost var rest := text[scannerCurrent..];
        ghost var step := LexStep(rest);
        ghost var before, c0 := Toks(), scannerCurrent;
        ScanToken();
        assert scannerCurrent == c0 + step.width && Toks() == before + step.emitted;
        assert hasFailed == step.failed;
        assert text[scannerCurrent..] == rest[step.width..];
        ScanAdvances(rest, text[scannerCurrent..], before, Toks(), hasFailed);
      }
      assert !hasFailed ==> text[scannerCurrent..] == [];
      AddToken(Eof);
    }

    // ------------------------------------------------------------ parser

    /** `parser_peek_at`: no bounds check in the source; here the slot must hold an appended token. */
    method PeekAt(offset: int) returns (t: Token)
      requires ParserValid() && 0 <= parserCurrent + offset < parserTokensLength
      ensures t == Toks()[parserCurrent + offset]
    {
      t := parserTokens[parserCurrent + offset];
    }

    /** `parser_peek`. */
    method Peek() returns (t: Token)
      requires ParserValid() && parserCurrent < parserTokensLength
      ensures t == Look(Toks(), Cursor())
    {
      t := PeekAt(0);
    }

    /** `parser_peek_previous`: the token just consumed. */
    method PeekPrevious(ghost toks: seq<Token>) returns (t: Token)
      requires ParserValid() && toks == Toks() && 0 < parserCurrent <= parserTokensLength
      ensures t == toks[parserCurrent - 1]
    {
      t := PeekAt(-1);
    }

    /** `parser_advance`. */
    method Advance(ghost toks: seq<Token>) returns (t: Token)
      requires ParserValid() && toks == Toks() && parserCurrent < parserTokensLength
      modifies this`parserCurrent
      ensures t == Look(toks, old(Cursor())) && parserCurrent == old(parserCurrent) + 1
    {
      t := Peek();
      parserCurrent := parserCurrent + 1;
    }

    /** `parser_match`: consume one token exactly when its kind is `kind`. */
    method Match(ghost toks: seq<Token>, kind: Kind) returns (b: bool)
      requires ParserValid() && toks == Toks() && parserCurrent < parserTokensLength
      modifies this`parserCurrent
      ensures b == (Look(toks, old(Cursor())).kind == kind)
      ensures parserCurrent == if b then old(parserCurrent) + 1 else old(parserCurrent)
    {
      var token := Peek();
      if token.kind == kind {
        var _ := Advance(toks);
        return true;
      }
      return false;
    }

    /** The loop condition `parser_match(a) || parser_match(b)`. */
    method MatchEither(ghost toks: seq<Token>, a: Kind, b: Kind) returns (matched: bool)
      requires ParserValid() && toks == Toks() && parserCurrent < parserTokensLength
      modifies this`parserCurrent
      ensures matched == (Look(toks, old(Cursor())).kind in {a, b})
      ensures parserCurrent == if matched then old(parserCurrent) + 1 else old(parserCurrent)
    {
      matched := Match(toks, a);
      if !matched {
        matched := Match(toks, b);
      }
    }

    /** `parser_parse`, which is `parser_parse_expr`. */
    method Parse() returns (v: int)
      requires ParserValid() && !Expr(Toks(), Cursor()).state.stale
      modifies this`parserCurrent, this`hasFailed
      ensures Step(v, Cursor()) == Expr(Toks(), old(Cursor()))
    {
      v := ParseExpr(Toks());
    }

    /** `parser_parse_expr`. */
    method ParseExpr(ghost toks: seq<Token>) returns (v: int)
      requires ParserValid() && toks == Toks() && !Expr(toks, Cursor()).state.stale
      modifies this`parserCurrent, this`hasFailed
      decreases Remaining(toks, Cursor()), 7
      ensures Step(v, Cursor()) == Expr(toks, old(Cursor()))
    {
      v := ParseAddSub(toks);
    }

    /** `parser_parse_expr_addsub`. */
    method ParseAddSub(ghost toks: seq<Token>) returns (v: int)
      requires ParserValid() && toks == Toks() && !AddSub(toks, Cursor()).state.stale
      modifies this`parserCurrent, this`hasFailed
      decreases Remaining(toks, Cursor()), 6
      ensures Step(v, Cursor()) == AddSub(toks, old(Cursor()))
    {
      var l := ParseMulDiv(toks);
      var r := 0;
      ghost var target := AddSubRest(toks, l, Cursor());
      while true
        invariant parserCurrent >= old(parserCurrent)
        invariant toks == Toks()
        invariant AddSubRest(toks, l, Cursor()) == target && !target.state.stale
        decreases Remaining(toks, Cursor())
      {
        ghost var before := Cursor();
        assert !Past(toks, before);
        var matched := MatchEither(toks, OpPlus, OpMinus);
        if !matched {
          assert Cursor() == before && Look(toks, before).kind !in {OpPlus, OpMinus};
          break;
        }
        var tok := PeekPrevious(toks);
        assert tok.kind in {OpPlus, OpMinus} && tok.kind == Look(toks, before).kind;
        assert Cursor() == Next(before);
        AddSubRestStep(toks, l, before);
        r := ParseMulDiv(toks);
        ghost var l0, after := l, Cursor();
        match tok.kind {
          case OpPlus =>
            l := l + r;
            assert Step(l, after) == ApplyAddSub(l0, tok.kind, Step(r, after));
          case OpMinus =>
            l := l - r;
            assert Step(l, after) == ApplyAddSub(l0, tok.kind, Step(r, after));
          case _ =>
            // The loop condition only lets an operator of this level through, so the
            // source's failing default branch is unreachable.
            assert false;
        }
      }
      v := l;
    }

    /** `parser_parse_expr_muldiv`; a zero divisor fails the parse instead of trapping. */
    method ParseMulDiv(ghost toks: seq<Token>) returns (v: int)
      requires ParserValid() && toks == Toks() && !MulDiv(toks, Cursor()).state.stale
      modifies this`parserCurrent, this`hasFailed
      decreases Remaining(toks, Cursor()), 5
      ensures Step(v, Cursor()) == MulDiv(toks, old(Cursor()))
    {
      var l := ParsePow(toks);
      var r := 0;
      ghost var target := MulDivRest(toks, l, Cursor());
      while true
        invariant parserCurrent >= old(parserCurrent)
        invariant toks == Toks()
        invariant MulDivRest(toks, l, Cursor()) == target && !target.state.stale
        decreases Remaining(toks, Cursor())
      {
        ghost var before := Cursor();
        assert !Past(toks, before);
        var matched := MatchEither(toks, OpStar, OpSlash);
        if !matched {
          assert Cursor() == before && Look(toks, before).kind !in {OpStar, OpSlash};
          break;
        }
        var tok := PeekPrevious(toks);
        assert tok.kind in {OpStar, OpSlash} && tok.kind == Look(toks, before).kind;
        assert Cursor() == Next(before);
        MulDivRestStep(toks, l, before);
        r := ParsePow(toks);
        ghost var l0, after := l, Cursor();
        match tok.kind {
          case OpStar => l := l * r;
          case OpSlash =>
            if r == 0 {
              hasFailed := true;
              l := 0;
            } else {
              l := TruncDiv(l, r);
            }
          case _ =>
            // The loop condition only lets an operator of this level through, so the
            // source's failing default branch is unreachable.
            assert false;
        }
        assert Step(l, Cursor()) == ApplyMulDiv(l0, tok.kind, Step(r, after));
      }
      v := l;
    }

    /** `parser_parse_expr_pow`. */
    method ParsePow(ghost toks: seq<Token>) returns (v: int)
      requires ParserValid() && toks == Toks() && !PowExpr(toks, Cursor()).state.stale
      modifies this`parserCurrent, this`hasFailed
      decreases Remaining(toks, Cursor()), 3
      ensures Step(v, Cursor()) == PowExpr(toks, old(Cursor()))
    {
      var l := ParseUnary(toks);
      var r := 0;
      ghost var target := PowRest(toks, l, Cursor());
      while true
        invariant parserCurrent >= old(parserCurrent)
        invariant toks == Toks()
        invariant PowRest(toks, l, Cursor()) == target && !target.state.stale
        decreases Remaining(toks, Cursor())
      {
        ghost var before := Cursor();
        assert !Past(toks, before);
        var matched := Match(toks, OpPow);
        if !matched {
          break;
        }
        var op := PeekPrevious(toks);
        assert op.kind == OpPow && Cursor() == Next(before);
        PowRestStep(toks, l, before);
        r := ParseUnary(toks);
        if op.kind == OpPow {
          l := Powi(l, r);
        } else {
          // Only `^` gets past the loop condition, so the source's failing branch is unreachable.
          assert false;
        }
      }
      v := l;
    }

    /** `parser_parse_expr_unary`: at most one sign, applied to a primary. */
    method ParseUnary(ghost toks: seq<Token>) returns (v: int)
      requires ParserValid() && toks == Toks() && !Unary(toks, Cursor()).state.stale
      modifies this`parserCurrent, this`hasFailed
      decreases Remaining(toks, Cursor()), 1
      ensures Step(v, Cursor()) == Unary(toks, old(Cursor()))
    {
      var matched := Match(toks, OpPlus);
      if matched {
        v := ParsePrimary(toks);
        return;
      }
      matched := Match(toks, OpMinus);
      if matched {
        v := ParsePrimary(toks);
        return -v;
      }
      v := ParsePrimary(toks);
    }

    /** `parser_parse_expr_primary`. */
    method ParsePrimary(ghost toks: seq<Token>) returns (v: int)
      requires ParserValid() && toks == Toks() && !Primary(toks, Cursor()).state.stale
      modifies this`parserCurrent, this`hasFailed
      decreases Remaining(toks, Cursor()), 0
      ensures Step(v, Cursor()) == Primary(toks, old(Cursor()))
    {
      var token := Advance(toks);
      var ans := 0;
      match token.kind {
        case None =>
        case Eof =>
        case LitNumber => ans := token.value;
        case ParenL =>
          var value := ParseExpr(toks);
          var closed := Match(toks, ParenR);
          if closed {
            ans := value;
          } else {
            hasFailed := true;
          }
        case _ => hasFailed := true;
      }
      v := ans;
    }

    // ------------------------------------------------------------ eval

    /**
     * `eval`: reset the failure flag and the cursors, scan `str` into the front of the token
     * array, then parse. The sweep and its `EOF` must fit in the array, and the parse must not
     * read past that `EOF` into slots left over from earlier calls.
     */
    method Eval(str: string) returns (ans: int)
      requires ParserValid()
      requires |Lex(str[..StrLen(str)]).tokens| < TOKEN_SLOTS
      requires !Expr(Lex(str[..StrLen(str)]).tokens + [Token(Eof, 0)], State(0, false, false)).state.stale
      modifies this, parserTokens
      ensures ParserValid() && ScannerValid()
      ensures var sweep := Lex(str[..StrLen(str)]);
        var result := Expr(sweep.tokens + [Token(Eof, 0)], State(0, sweep.failed, false));
        && Toks() == sweep.tokens + [Token(Eof, 0)]
        && ans == result.value && hasFailed == result.state.failed
        && parserCurrent == result.state.current
      ensures scannerSource == str && scannerSourceLength == StrLen(str)
      ensures !hasFailed ==> scannerCurrent == scannerSourceLength
      ensures parserTokens == old(parserTokens)
    {
      hasFailed := false;
      scannerSource := "";
      scannerSourceLength := 0;
      scannerCurrent := 0;
      scannerStart := 0;
      parserTokensLength := 0;
      parserCurrent := 0;
      scannerSource := str;
      scannerSourceLength := StrLen(str);
      assert Text() == str[..StrLen(str)] && Text()[0..] == Text();
      Scan();
      ghost var sweep := Lex(str[..StrLen(str)]);
      assert Toks() == sweep.tokens + [Token(Eof, 0)] && hasFailed == sweep.failed;
      FailureFlagIsInert(Toks(), sweep.failed);
      ans := Parse();
    }
  }

  /** The parser never reads the failure flag: a parse from a failed start differs only in that flag. */
  lemma FailureFlagIsInert(toks: seq<Token>, failed: bool)
    ensures var clean := Expr(toks, State(0, false, false));
      var r := Expr(toks, State(0, failed, false));
      r.value == clean.value && r.state.current == clean.state.current && r.state.stale == clean.state.stale
      && r.state.failed == (failed || clean.state.failed)
  {
    if failed {
      ExprIgnoresFlag(toks, State(0, false, false));
    }
  }
}
