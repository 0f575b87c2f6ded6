/**
 * The reference model of noalloc.c, the allocation-free variant: its token kinds (with `^`),
 * its scanner, which stops at the first unknown character, and its parser, which never looks
 * at the failure flag and never checks for the end of the tokens.
 *
 * The parser functions run over the tokens appended by the last scan. A look at a slot at or
 * past their end is a read of a stale slot of the fixed array; the functions record it in the
 * `stale` flag of the state, and the imperative parser requires that it never happens.
 */
module NoAllocSpec {
  import opened Lexical
  import opened Arith

  /** The enumerators of noalloc.c's `enum TokenType`, in declaration order. */
  datatype Kind =
    | None
    | ParenL | ParenR
    | OpPlus | OpMinus | OpStar | OpSlash | OpPow
    | LitNumber
    | Eof
    | Count

  /** The integer C gives each enumerator: consecutive from `TOKEN_NONE = 0` to `TOKEN_COUNT = 10`. */
  function Ordinal(k: Kind): (n: nat)
    ensures n <= 10
    ensures n == 0 <==> k == None
    ensures n == 10 <==> k == Count
  {
    match k
    case None => 0
    case ParenL => 1
    case ParenR => 2
    case OpPlus => 3
    case OpMinus => 4
    case OpStar => 5
    case OpSlash => 6
    case OpPow => 7
    case LitNumber => 8
    case Eof => 9
    case Count => 10
  }

  /** Distinct enumerators have distinct values. */
  lemma OrdinalInjective(a: Kind, b: Kind)
    requires Ordinal(a) == Ordinal(b)
    ensures a == b
  {
  }

  /** The name table, as the source spells it; it is read only by a diagnostic. */
  const TokenTypeName: seq<string> := [
    "TOKEN_NONE",
    "TOKEN_PAREN_L", "TOKEN_PAREN_R",
    "TOKEN_OP_PLUS", "TOKEN_OP_MINUS", "TOKEN_OP_STAR", "TOKEN_OP_SLASH", "TOKE_OP_POW",
    "TOKEN_LIT_NUMBER",
    "TOKEN_EOF",
    "TOKEN_COUNT"
  ]

  /** The name printed for a kind: the table has one entry per enumerator, `TOKEN_COUNT` included. */
  function Name(k: Kind): (s: string)
    ensures Ordinal(k) < |TokenTypeName| && s == TokenTypeName[Ordinal(k)]
    ensures |s| > 4 && s[..4] == "TOKE"
  {
    TokenTypeName[Ordinal(k)]
  }

  datatype Token = Token(kind: Kind, value: int)

  // ---------------------------------------------------------------- scanner

  /** The seven characters that are a token on their own. */
  predicate IsPunctuator(c: char) {
    c == '+' || c == '-' || c == '*' || c == '/' || c == '(' || c == ')' || c == '^'
  }

  function PunctuatorKind(c: char): Kind
    requires IsPunctuator(c)
  {
    match c
    case '+' => OpPlus
    case '-' => OpMinus
    case '*' => OpStar
    case '/' => OpSlash
    case '(' => ParenL
    case ')' => ParenR
    case '^' => OpPow
  }

  /** A character the scanner knows: punctuator, digit or whitespace. */
  predicate Known(c: char) {
    IsPunctuator(c) || IsNumber(c) || Lexical.IsWhitespace(c)
  }

  /** What one call of `scanner_scan_token` does: the token it appends, if any, the characters it consumes, whether it fails. */
  datatype Lexeme = Lexeme(emitted: seq<Token>, width: nat, failed: bool)

  function LexStep(s: string): (r: Lexeme)
    requires s != []
    ensures 1 <= r.width <= |s|
    ensures r.failed <==> !Known(s[0])
  {
    var c := s[0];
    if IsPunctuator(c) then Lexeme([Token(PunctuatorKind(c), 0)], 1, false)
    else if IsNumber(c) then
      var n := 1 + DigitRun(s[1..]);
      Lexeme([Token(LitNumber, DecimalValue(s[..n]))], n, false)
    else if Lexical.IsWhitespace(c) then Lexeme([], 1, false)
    else Lexeme([], 1, true)
  }

  /** The result of the sweep: the tokens appended before the `EOF`, and whether it stopped on an unknown character. */
  datatype Sweep = Sweep(tokens: seq<Token>, failed: bool)

  /** The sweep of `scanner_scan` over the text `s`: the first unknown character ends it. */
  function Lex(s: string): Sweep
    decreases |s|
  {
    if s == [] then Sweep([], false)
    else
      var step := LexStep(s);
      if step.failed then Sweep([], true)
      else
        var rest := Lex(s[step.width..]);
        Sweep(step.emitted + rest.tokens, rest.failed)
  }

  /** What is left of a sweep: nothing more once the failure flag is set, else the sweep of the rest of the text. */
  function Pending(rest: string, failed: bool): Sweep {
    if failed then Sweep([], true) else Lex(rest)
  }

  /** The sweep of `rest` is its first lexeme and then what is left after it. */
  lemma ScanAdvances(rest: string, tail: string, before: seq<Token>, after: seq<Token>, failed: bool)
    requires rest != [] && tail == rest[LexStep(rest).width..]
    requires after == before + LexStep(rest).emitted && failed == LexStep(rest).failed
    ensures before + Lex(rest).tokens == after + Pending(tail, failed).tokens
    ensures Lex(rest).failed == Pending(tail, failed).failed
  {
  }

  // ---------------------------------------------------------------- parser

  /** The parser cursor, the failure flag, and whether a stale slot has been looked at. */
  datatype State = State(current: nat, failed: bool, stale: bool)

  /** What a grammar rule yields: its value and the state after it. */
  datatype Step = Step(value: int, state: State)

  /** The token `parser_peek` reads; a stale slot is modelled as `TOKEN_NONE`. */
  function Look(toks: seq<Token>, s: State): Token {
    if s.current < |toks| then toks[s.current] else Token(None, 0)
  }

  /** The state after a look at the current slot. */
  function Touch(toks: seq<Token>, s: State): State {
    if s.current < |toks| then s else s.(stale := true)
  }

  /** A state from which the next look reads a stale slot, or already has. */
  predicate Past(toks: seq<Token>, s: State) {
    s.stale || s.current >= |toks|
  }

  function Next(s: State): State {
    s.(current := s.current + 1)
  }

  function Fail(s: State): State {
    s.(failed := true)
  }

  function Remaining(toks: seq<Token>, s: State): nat {
    if s.current <= |toks| then |toks| - s.current else 0
  }

  /** primary := NUMBER | '(' expr ')'; `TOKEN_NONE` and `TOKEN_EOF` yield 0 without failing. */
  function Primary(toks: seq<Token>, s: State): (r: Step)
    decreases Remaining(toks, s), 0
    ensures r.state.current > s.current
    ensures s.failed ==> r.state.failed
    ensures Past(toks, s) ==> r.state.stale
  {
    var token := Look(toks, s);
    var s1 := Next(Touch(toks, s));
    match token.kind
    case None => Step(0, s1)
    case Eof => Step(0, s1)
    case LitNumber => Step(token.value, s1)
    case ParenL =>
      var inner := Expr(toks, s1);
      var m := Touch(toks, inner.state);
      if Look(toks, inner.state).kind == ParenR then Step(inner.value, Next(m))
      else Step(0, Fail(m))
    case _ => Step(0, Fail(s1))
  }

  /** unary := ('+' | '-')? primary */
  function Unary(toks: seq<Token>, s: State): (r: Step)
    decreases Remaining(toks, s), 1
    ensures r.state.current > s.current
    ensures s.failed ==> r.state.failed
    ensures Past(toks, s) ==> r.state.stale
  {
    var s0 := Touch(toks, s);
    var kind := Look(toks, s).kind;
    if kind == OpPlus then Primary(toks, Next(s0))
    else if kind == OpMinus then
      var v := Primary(toks, Next(s0));
      Step(-v.value, v.state)
    else Primary(toks, s0)
  }

  /** The `while` loop of pow: fold `^` operands into `l`, left to right, with `powi`. */
  function PowRest(toks: seq<Token>, l: int, s: State): (r: Step)
    decreases Remaining(toks, s), 2
    ensures r.state.current >= s.current
    ensures s.failed ==> r.state.failed
    ensures Past(toks, s) ==> r.state.stale
  {
    if Look(toks, s).kind == OpPow then
      var rhs := Unary(toks, Next(Touch(toks, s)));
      PowRest(toks, Pow(l, rhs.value), rhs.state)
    else Step(l, Touch(toks, s))
  }

  /** pow := unary ('^' unary)* */
  function PowExpr(toks: seq<Token>, s: State): (r: Step)
    decreases Remaining(toks, s), 3
    ensures r.state.current > s.current
    ensures s.failed ==> r.state.failed
    ensures Past(toks, s) ==> r.state.stale
  {
    var l := Unary(toks, s);
    PowRest(toks, l.value, l.state)
  }

  /** One `switch` of the muldiv loop; a zero divisor fails the parse and yields 0. */
  function ApplyMulDiv(l: int, op: Kind, rhs: Step): Step
    requires op in {OpStar, OpSlash}
  {
    if op == OpStar then Step(l * rhs.value, rhs.state)
    else if rhs.value == 0 then Step(0, Fail(rhs.state))
    else Step(TruncDiv(l, rhs.value), rhs.state)
  }

  /** The `while` loop of muldiv: fold `*` and `/` operands into `l`, left to right. */
  function MulDivRest(toks: seq<Token>, l: int, s: State): (r: Step)
    decreases Remaining(toks, s), 4
    ensures r.state.current >= s.current
    ensures s.failed ==> r.state.failed
    ensures Past(toks, s) ==> r.state.stale
  {
    var op := Look(toks, s).kind;
    if op in {OpStar, OpSlash} then
      var acc := ApplyMulDiv(l, op, PowExpr(toks, Next(Touch(toks, s))));
      MulDivRest(toks, acc.value, acc.state)
    else Step(l, Touch(toks, s))
  }

  /** muldiv := pow (('*' | '/') pow)* */
  function MulDiv(toks: seq<Token>, s: State): (r: Step)
    decreases Remaining(toks, s), 5
    ensures r.state.current > s.current
    ensures s.failed ==> r.state.failed
    ensures Past(toks, s) ==> r.state.stale
  {
    var l := PowExpr(toks, s);
    MulDivRest(toks, l.value, l.state)
  }

  /** One `switch` of the addsub loop. */
  function ApplyAddSub(l: int, op: Kind, rhs: Step): Step
    requires op in {OpPlus, OpMinus}
  {
    if op == OpPlus then Step(l + rhs.value, rhs.state) else Step(l - rhs.value, rhs.state)
  }

  /** The `while` loop of addsub: fold `+` and `-` operands into `l`, left to right. */
  function AddSubRest(toks: seq<Token>, l: int, s: State): (r: Step)
    decreases Remaining(toks, s), 5
    ensures r.state.current >= s.current
    ensures s.failed ==> r.state.failed
    ensures Past(toks, s) ==> r.state.stale
  {
    var op := Look(toks, s).kind;
    if op in {OpPlus, OpMinus} then
      var acc := ApplyAddSub(l, op, MulDiv(toks, Next(Touch(toks, s))));
      AddSubRest(toks, acc.value, acc.state)
    else Step(l, Touch(toks, s))
  }

  /** addsub := muldiv (('+' | '-') muldiv)* */
  function AddSub(toks: seq<Token>, s: State): (r: Step)
    decreases Remaining(toks, s), 6
    ensures r.state.current > s.current
    ensures s.failed ==> r.state.failed
    ensures Past(toks, s) ==> r.state.stale
  {
    var l := MulDiv(toks, s);
    AddSubRest(toks, l.value, l.state)
  }

  /** expr := addsub */
  function Expr(toks: seq<Token>, s: State): (r: Step)
    decreases Remaining(toks, s), 7
    ensures r.state.current > s.current
    ensures s.failed ==> r.state.failed
    ensures Past(toks, s) ==> r.state.stale
  {
    AddSub(toks, s)
  }

  /** One turn of the pow loop: `^`, then a unary operand raised onto `l`. */
  lemma PowRestStep(toks: seq<Token>, l: int, s: State)
    requires !Past(toks, s) && Look(toks, s).kind == OpPow
    ensures var rhs := Unary(toks, Next(s));
      PowRest(toks, l, s) == PowRest(toks, Pow(l, rhs.value), rhs.state)
    ensures !PowRest(toks, l, s).state.stale ==> !Unary(toks, Next(s)).state.stale
  {
  }

  /** One turn of the muldiv loop: an operator, then a pow operand folded into `l`. */
  lemma MulDivRestStep(toks: seq<Token>, l: int, s: State)
    requires !Past(toks, s) && Look(toks, s).kind in {OpStar, OpSlash}
    ensures var acc := ApplyMulDiv(l, Look(toks, s).kind, PowExpr(toks, Next(s)));
      MulDivRest(toks, l, s) == MulDivRest(toks, acc.value, acc.state)
    ensures !MulDivRest(toks, l, s).state.stale ==> !PowExpr(toks, Next(s)).state.stale
  {
  }

  /** One turn of the addsub loop: an operator, then a muldiv operand folded into `l`. */
  lemma AddSubRestStep(toks: seq<Token>, l: int, s: State)
    requires !Past(toks, s) && Look(toks, s).kind in {OpPlus, OpMinus}
    ensures var acc := ApplyAddSub(l, Look(toks, s).kind, MulDiv(toks, Next(s)));
      AddSubRest(toks, l, s) == AddSubRest(toks, acc.value, acc.state)
    ensures !AddSubRest(toks, l, s).state.stale ==> !MulDiv(toks, Next(s)).state.stale
  {
  }

  /** A rule's result with the failure flag set. */
  function Flagged(r: Step): Step {
    Step(r.value, Fail(r.state))
  }

  /*
   * The parser never reads the failure flag: started with the flag set, every rule yields the
   * same value at the same cursor, with the flag set. (So a scan failure does not stop the parse.)
   */

  lemma {:induction false} PrimaryIgnoresFlag(toks: seq<Token>, s: State)
    decreases Remaining(toks, s), 0
    ensures Primary(toks, Fail(s)) == Flagged(Primary(toks, s))
  {
    if Look(toks, s).kind == ParenL {
      ExprIgnoresFlag(toks, Next(Touch(toks, s)));
    }
  }

  lemma {:induction false} UnaryIgnoresFlag(toks: seq<Token>, s: State)
    decreases Remaining(toks, s), 1
    ensures Unary(toks, Fail(s)) == Flagged(Unary(toks, s))
  {
    var kind := Look(toks, s).kind;
    if kind == OpPlus || kind == OpMinus {
      PrimaryIgnoresFlag(toks, Next(Touch(toks, s)));
    } else {
      PrimaryIgnoresFlag(toks, Touch(toks, s));
    }
  }

  lemma {:induction false} PowRestIgnoresFlag(toks: seq<Token>, l: int, s: State)
    decreases Remaining(toks, s), 2
    ensures PowRest(toks, l, Fail(s)) == Flagged(PowRest(toks, l, s))
  {
    if Look(toks, s).kind == OpPow {
      var rhs := Unary(toks, Next(Touch(toks, s)));
      UnaryIgnoresFlag(toks, Next(Touch(toks, s)));
      PowRestIgnoresFlag(toks, Pow(l, rhs.value), rhs.state);
    }
  }

  lemma {:induction false} PowExprIgnoresFlag(toks: seq<Token>, s: State)
    decreases Remaining(toks, s), 3
    ensures PowExpr(toks, Fail(s)) == Flagged(PowExpr(toks, s))
  {
    var l := Unary(toks, s);
    UnaryIgnoresFlag(toks, s);
    PowRestIgnoresFlag(toks, l.value, l.state);
  }

  lemma {:induction false} MulDivRestIgnoresFlag(toks: seq<Token>, l: int, s: State)
    decreases Remaining(toks, s), 4
    ensures MulDivRest(toks, l, Fail(s)) == Flagged(MulDivRest(toks, l, s))
  {
    var op := Look(toks, s).kind;
    if op in {OpStar, OpSlash} {
      var rhs := PowExpr(toks, Next(Touch(toks, s)));
      PowExprIgnoresFlag(toks, Next(Touch(toks, s)));
      var acc := ApplyMulDiv(l, op, rhs);
      assert ApplyMulDiv(l, op, Flagged(rhs)) == Flagged(acc);
      MulDivRestIgnoresFlag(toks, acc.value, acc.state);
    }
  }

  lemma {:induction false} MulDivIgnoresFlag(toks: seq<Token>, s: State)
    decreases Remaining(toks, s), 5
    ensures MulDiv(toks, Fail(s)) == Flagged(MulDiv(toks, s))
  {
    var l := PowExpr(toks, s);
    PowExprIgnoresFlag(toks, s);
    MulDivRestIgnoresFlag(toks, l.value, l.state);
  }

  lemma {:induction false} AddSubRestIgnoresFlag(toks: seq<Token>, l: int, s: State)
    decreases Remaining(toks, s), 5
    ensures AddSubRest(toks, l, Fail(s)) == Flagged(AddSubRest(toks, l, s))
  {
    var op := Look(toks, s).kind;
    if op in {OpPlus, OpMinus} {
      var rhs := MulDiv(toks, Next(Touch(toks, s)));
      MulDivIgnoresFlag(toks, Next(Touch(toks, s)));
      var acc := ApplyAddSub(l, op, rhs);
      assert ApplyAddSub(l, op, Flagged(rhs)) == Flagged(acc);
      AddSubRestIgnoresFlag(toks, acc.value, acc.state);
    }
  }

  lemma {:induction false} ExprIgnoresFlag(toks: seq<Token>, s: State)
    decreases Remaining(toks, s), 7
    ensures Expr(toks, Fail(s)) == Flagged(Expr(toks, s))
  {
    var l := MulDiv(toks, s);
    MulDivIgnoresFlag(toks, s);
    AddSubRestIgnoresFlag(toks, l.value, l.state);
  }
}
