/**
 * The instance scanner of scanner.h: it turns the characters before the first NUL into tokens
 * appended to a TokenList. An unknown character sets `hasFailed` and scanning goes on; no
 * end-of-input token is appended.
 */
module Scanning {
  import opened Tokens
  import opened TokenBuffer
  import opened Lexical

  /** The six characters that are a token on their own. */
  predicate IsPunctuator(c: char) {
    c == '(' || c == ')' || c == '+' || c == '-' || c == '*' || c == '/'
  }

  function PunctuatorKind(c: char): TokenType
    requires IsPunctuator(c)
  {
    match c
    case '(' => ParenL
    case ')' => ParenR
    case '+' => OpPlus
    case '-' => OpMinus
    case '*' => OpStar
    case '/' => OpSlash
  }

  /** What one call of `scanner_scan_token` does: the tokens it appends, the characters it consumes, whether it fails. */
  datatype Lexeme = Lexeme(emitted: seq<Token>, width: nat, failed: bool)

  function LexStep(s: string): (r: Lexeme)
    requires s != []
    ensures 1 <= r.width <= |s|
  {
    var c := s[0];
    if IsPunctuator(c) then Lexeme([Token(PunctuatorKind(c), 0)], 1, false)
    else if Lexical.IsWhitespace(c) then Lexeme([], 1, false)
    else if IsNumber(c) then
      var n := 1 + DigitRun(s[1..]);
      Lexeme([Token(LiteralNumber, DecimalValue(s[..n]))], n, false)
    else Lexeme([], 1, true)
  }

  /** The result of a whole scan: every token appended, and whether any character was unknown. */
  datatype Scan = Scan(tokens: seq<Token>, failed: bool)

  /** The reference scanner: `scanner_scan` over the text `s`, as a function. */
  function Lex(s: string): Scan
    decreases |s|
  {
    if s == [] then Scan([], false)
    else
      var step := LexStep(s);
      var rest := Lex(s[step.width..]);
      Scan(step.emitted + rest.tokens, step.failed || rest.failed)
  }

  /** One step of the reference scanner: what the first lexeme emits, then the scan of what follows it. */
  lemma LexUnfold(s: string, tail: string)
    requires s != [] && tail == s[LexStep(s).width..]
    ensures Lex(s).tokens == LexStep(s).emitted + Lex(tail).tokens
    ensures Lex(s).failed == (LexStep(s).failed || Lex(tail).failed)
  {
  }

  /** The scan of `rest` is the first lexeme of `rest` and then the scan of `tail`. */
  lemma ScanAdvances(rest: string, tail: string, before: seq<Token>, after: seq<Token>, failedBefore: bool, failedAfter: bool)
    requires rest != [] && tail == rest[LexStep(rest).width..]
    requires after == before + LexStep(rest).emitted
    requires failedAfter == (failedBefore || LexStep(rest).failed)
    ensures before + Lex(rest).tokens == after + Lex(tail).tokens
    ensures (failedBefore || Lex(rest).failed) == (failedAfter || Lex(tail).failed)
  {
    LexUnfold(rest, tail);
  }

  /** A character the scanner knows: punctuator, whitespace or digit. */
  predicate Known(c: char) {
    IsPunctuator(c) || Lexical.IsWhitespace(c) || IsNumber(c)
  }

  /** The tokens a scan can produce: never NONE, EOF or COUNT; a number's value is its digits' value. */
  predicate Produced(t: Token) {
    if t.kind == LiteralNumber then t.value >= 0
    else t.kind in {ParenL, ParenR, OpPlus, OpMinus, OpStar, OpSlash} && t.value == 0
  }

  /** Every token a scan appends is a punctuator or a non-negative number; in particular no EOF. */
  lemma {:induction false} LexProducesOnlyLexemes(s: string)
    ensures forall t :: t in Lex(s).tokens ==> Produced(t) && t.kind != Eof
    decreases |s|
  {
    if s != [] {
      var step := LexStep(s);
      if IsNumber(s[0]) && !IsPunctuator(s[0]) && !Lexical.IsWhitespace(s[0]) {
        var n := 1 + DigitRun(s[1..]);
        DigitRunDigits(s[1..]);
        assert s[..n] == [s[0]] + s[1..][..n - 1];
        DecimalValueNonNegative(s[..n]);
      }
      LexProducesOnlyLexemes(s[step.width..]);
    }
  }

  /** A scan fails exactly when the text holds a character the scanner does not know. */
  lemma {:induction false} LexFailsIffUnknown(s: string)
    ensures Lex(s).failed <==> exists i :: 0 <= i < |s| && !Known(s[i])
    decreases |s|
  {
    if s != [] {
      var step := LexStep(s);
      var tail := s[step.width..];
      LexFailsIffUnknown(tail);
      if exists i :: 0 <= i < |tail| && !Known(tail[i]) {
        var i :| 0 <= i < |tail| && !Known(tail[i]);
        assert s[step.width + i] == tail[i];
      }
      if exists i :: 0 <= i < |s| && !Known(s[i]) {
        var i :| 0 <= i < |s| && !Known(s[i]);
        if i >= step.width {
          assert tail[i - step.width] == s[i];
        } else if i > 0 {
          DigitRunDigits(s[1..]);
          assert s[1..][..step.width - 1][i - 1] == s[i];
        }
      }
    }
  }

  class Scanner {
    var source: string
    var sourceLength: int
    var current: int
    var start: int
    var tokens: TokenList?
    var hasFailed: bool

    /** A scanner ready to scan: it has a usable list and its cursors lie within the text. */
    ghost predicate Valid()
      reads this, tokens
    {
      && tokens != null && tokens.Valid() && tokens.cap > 0
      && 0 <= sourceLength <= |source|
      && 0 <= start <= current <= sourceLength
    }

    /** The text being scanned: what `strlen` counts. */
    ghost function Text(): string
      reads this
      requires 0 <= sourceLength <= |source|
    {
      source[..sourceLength]
    }

    /** `Scanner_Init`. */
    constructor Init(list: TokenList, src: string)
      ensures source == src && sourceLength == StrLen(src)
      ensures current == 0 && start == 0
      ensures tokens == list && !hasFailed
      ensures list.Valid() && list.cap > 0 ==> Valid()
    {
      source := src;
      sourceLength := StrLen(src);
      current := 0;
      start := 0;
      tokens := list;
      hasFailed := false;
    }

    /** `Scanner_Free`. */
    method Free()
      modifies this
      ensures source == [] && sourceLength == 0
      ensures current == 0 && start == 0
      ensures tokens == null && !hasFailed
    {
      source := [];
      sourceLength := 0;
      current := 0;
      start := 0;
      tokens := null;
      hasFailed := false;
    }

    /** `scanner_add_token`. */
    method AddToken(kind: TokenType, value: int)
      requires Valid()
      modifies tokens, tokens.data
      ensures Valid()
      ensures tokens.Contents() == old(tokens.Contents()) + [Token(kind, value)]
      ensures tokens.data == old(tokens.data) || fresh(tokens.data)
    {
      tokens.Add(Token(kind, value));
    }

    /** `scanner_is_at_end`: the failure flag plays no part. */
    predicate IsAtEnd()
      reads this
    {
      current >= sourceLength
    }

    /** `scanner_peek_at`. */
    function PeekAt(offset: int): char
      reads this
      requires 0 <= current + offset < |source|
    {
      source[current + offset]
    }

    /** `scanner_peek`. */
    function Peek(): char
      reads this
      requires 0 <= current < |source|
    {
      PeekAt(0)
    }

    /** `scanner_advance`: at the end it yields NUL and stays put. */
    method Advance() returns (c: char)
      requires 0 <= current && sourceLength <= |source|
      modifies this`current
      ensures old(current) >= sourceLength ==> c == '\0' && current == old(current)
      ensures old(current) < sourceLength ==> c == source[old(current)] && current == old(current) + 1
    {
      if IsAtEnd() {
        return '\0';
      }
      c := Peek();
      current := current + 1;
    }

    /** `scanner_is_whitespace`: a search of the whitespace string " \t\r\n\v". */
    static method IsWhitespace(c: char) returns (b: bool)
      ensures b == Lexical.IsWhitespace(c)
    {
      var buf := " \t\r\n\U{000B}";
      for i := 0 to |buf|
        invariant forall j :: 0 <= j < i ==> buf[j] != c
      {
        if buf[i] == c {
          return true;
        }
      }
      assert buf[0] == ' ' && buf[1] == '\t' && buf[2] == '\r' && buf[3] == '\n' && buf[4] == '\U{000B}';
      return false;
    }

    /** `scanner_get_number_from_source`: the accumulated value of `source[idxStart..idxEnd]`, both ends included. */
    static method GetNumberFromSource(source: string, idxStart: int, idxEnd: int) returns (ans: int)
      requires 0 <= idxStart <= idxEnd + 1 <= |source|
      ensures ans == DecimalValue(source[idxStart..idxEnd + 1])
    {
      ans := 0;
      var i := idxStart;
      while i <= idxEnd
        invariant idxStart <= i <= idxEnd + 1
        invariant ans == DecimalValue(source[idxStart..i])
      {
        assert source[idxStart..i + 1][..i - idxStart] == source[idxStart..i];
        ans := ans * 10;
        ans := ans + DigitValue(source[i]);
        i := i + 1;
      }
    }

    /**
     * `scanner_scan_number`: consume the rest of a maximal digit run and append one number
     * token whose value is that of the whole run, from `start`.
     */
    method ScanNumber()
      requires Valid() && start < current
      modifies this`current, tokens, tokens.data
      ensures Valid()
      ensures current == old(current) + DigitRun(Text()[old(current)..])
      ensures tokens.Contents() == old(tokens.Contents()) + [Token(LiteralNumber, DecimalValue(source[start..current]))]
      ensures tokens.data == old(tokens.data) || fresh(tokens.data)
    {
      ghost var text := Text();
      while !IsAtEnd() && IsNumber(Peek())
        modifies this`current
        invariant old(current) <= current <= sourceLength && Text() == text
        invariant forall m :: old(current) <= m < current ==> IsNumber(text[m])
        decreases sourceLength - current
      {
        var _ := Advance();
      }
      DigitRunSpan(text, old(current), current);
      var value := GetNumberFromSource(source, start, current - 1);
      AddToken(LiteralNumber, value);
    }

    /** `scanner_scan_token`: recognise one lexeme starting at `start == current`. */
    method ScanToken()
      requires Valid() && start == current && current < sourceLength
      modifies this`current, this`hasFailed, tokens, tokens.data
      ensures Valid()
      ensures var step := LexStep(Text()[old(current)..]);
        && current == old(current) + step.width
        && tokens.Contents() == old(tokens.Contents()) + step.emitted
        && hasFailed == (old(hasFailed) || step.failed)
      ensures tokens.data == old(tokens.data) || fresh(tokens.data)
    {
      ghost var text := Text();
      ghost var rest := text[current..];
      var c := Advance();
      assert c == rest[0];
      if IsPunctuator(c) {
        AddToken(PunctuatorKind(c), 0);
      } else {
        var blank := IsWhitespace(c);
        if blank {
        } else if IsNumber(c) {
          assert rest[1..] == Text()[current..];
          ScanNumber();
          assert Text() == text && current <= sourceLength;
          assert rest[..current - start] == text[start..current] == source[start..current];
        } else {
          hasFailed := true;
        }
      }
    }

    /** `scanner_scan`: scan to the end of the text, whatever fails on the way. */
    method Scan()
      requires Valid()
      modifies this`current, this`start, this`hasFailed, tokens, tokens.data
      ensures Valid() && current == sourceLength
      ensures tokens.Contents() == old(tokens.Contents()) + Lex(Text()[old(current)..]).tokens
      ensures hasFailed == (old(hasFailed) || Lex(Text()[old(current)..]).failed)
      ensures tokens.data == old(tokens.data) || fresh(tokens.data)
    {
      ghost var text := Text();
      ghost var base := tokens.Contents();
      ghost var whole := Lex(text[current..]);
      while !IsAtEnd()
        invariant Valid() && Text() == text
        invariant old(current) <= current
        invariant tokens.data == old(tokens.data) || fresh(tokens.data)
        invariant base + whole.tokens == tokens.Contents() + Lex(text[current..]).tokens
        invariant (old(hasFailed) || whole.failed) == (hasFailed || Lex(text[current..]).failed)
        decreases sourceLength - current
      {
        start := current;
        ghost var rest := text[current..];
        ghost var contents := tokens.Contents();
        ghost var failed := hasFailed;
        ScanToken();
        assert rest[LexStep(rest).width..] == text[current..];
        ScanAdvances(rest, text[current..], contents, tokens.Contents(), failed, hasFailed);
      }
      assert Text()[current..] == [];
    }
  }
}
