/**
 * The instance parser/evaluator of parser.h: recursive descent over a TokenList that evaluates
 * as it parses. Past the last token, or once `hasFailed` is set, every look-ahead sees an
 * end-of-input token, so a failure unwinds the whole parse.
 *
 * The functions below are the reference evaluator: the same grammar, over a token sequence and
 * a cursor state. The methods of class Parser are proved to compute exactly what they compute.
 */
module Parsing {
  import opened Tokens
  import opened TokenBuffer
  import opened Arith

  /** The parser's cursor and its sticky failure flag. */
  datatype State = State(current: nat, failed: bool)

  /** What a grammar rule yields: its value and the state after it. */
  datatype Step = Step(value: int, state: State)

  /** `parser_is_at_end`: past the tokens, or failed. */
  predicate AtEnd(toks: seq<Token>, s: State) {
    s.current >= |toks| || s.failed
  }

  /** `parser_peek`: the current token, or a synthesised end-of-input token at the end. */
  function Lookahead(toks: seq<Token>, s: State): Token {
    if AtEnd(toks, s) then Token(Eof, 0) else toks[s.current]
  }

  /** The cursor move of `parser_advance`, which happens even at the end. */
  function Next(s: State): State {
    State(s.current + 1, s.failed)
  }

  function Fail(s: State): State {
    State(s.current, true)
  }

  /** Tokens not yet consumed; it only shrinks as the cursor moves on. */
  function Remaining(toks: seq<Token>, s: State): nat {
    if s.current <= |toks| then |toks| - s.current else 0
  }

  /** primary := NUMBER | '(' expr ')'; end of input yields 0 without failing. */
  function Primary(toks: seq<Token>, s: State): (r: Step)
    decreases Remaining(toks, s), 0
    ensures r.state.current > s.current
    ensures s.failed ==> r.state.failed
  {
    var token := Lookahead(toks, s);
    match token.kind
    case Eof => Step(0, Next(s))
    case LiteralNumber => Step(token.value, Next(s))
    case ParenL =>
      var inner := Expr(toks, Next(s));
      if Lookahead(toks, inner.state).kind == ParenR then Step(inner.value, Next(inner.state))
      else Step(0, Fail(inner.state))
    case _ => Step(0, Fail(Next(s)))
  }

  /** unary := ('+' | '-')? primary; the sign applies to a primary, never to another unary. */
  function Unary(toks: seq<Token>, s: State): (r: Step)
    decreases Remaining(toks, s), 1
    ensures r.state.current > s.current
    ensures s.failed ==> r.state.failed
  {
    if Lookahead(toks, s).kind == OpPlus then Primary(toks, Next(s))
    else if Lookahead(toks, s).kind == OpMinus then
      var v := Primary(toks, Next(s));
      Step(-v.value, v.state)
    else Primary(toks, s)
  }

  /**
   * One `switch` of the muldiv loop: combine `l` with the operand `rhs` under `op`. A zero
   * divisor fails the parse and yields 0.
   */
  function ApplyMulDiv(l: int, op: TokenType, rhs: Step): Step
    requires op in {OpStar, OpSlash}
  {
    if op == OpStar then Step(l * rhs.value, rhs.state)
    else if rhs.value == 0 then Step(0, Fail(rhs.state))
    else Step(TruncDiv(l, rhs.value), rhs.state)
  }

  /** The `while` loop of muldiv: fold `*` and `/` operands into `l`, left to right. */
  function MulDivRest(toks: seq<Token>, l: int, s: State): (r: Step)
    decreases Remaining(toks, s), 2
    ensures r.state.current >= s.current
    ensures s.failed ==> r.state.failed
  {
    var op := Lookahead(toks, s).kind;
    if !AtEnd(toks, s) && op in {OpStar, OpSlash} then
      var acc := ApplyMulDiv(l, op, Unary(toks, Next(s)));
      MulDivRest(toks, acc.value, acc.state)
    else Step(l, s)
  }

  /** muldiv := unary (('*' | '/') unary)* */
  function MulDiv(toks: seq<Token>, s: State): (r: Step)
    decreases Remaining(toks, s), 3
    ensures r.state.current > s.current
    ensures s.failed ==> r.state.failed
  {
    var l := Unary(toks, s);
    MulDivRest(toks, l.value, l.state)
  }

  /** One `switch` of the addsub loop: combine `l` with the operand `rhs` under `op`. */
  function ApplyAddSub(l: int, op: TokenType, rhs: Step): Step
    requires op in {OpPlus, OpMinus}
  {
    if op == OpPlus then Step(l + rhs.value, rhs.state) else Step(l - rhs.value, rhs.state)
  }

  /** The `while` loop of addsub: fold `+` and `-` operands into `l`, left to right. */
  function AddSubRest(toks: seq<Token>, l: int, s: State): (r: Step)
    decreases Remaining(toks, s), 3
    ensures r.state.current >= s.current
    ensures s.failed ==> r.state.failed
  {
    var op := Lookahead(toks, s).kind;
    if !AtEnd(toks, s) && op in {OpPlus, OpMinus} then
      var acc := ApplyAddSub(l, op, MulDiv(toks, Next(s)));
      AddSubRest(toks, acc.value, acc.state)
    else Step(l, s)
  }

  /** addsub := muldiv (('+' | '-') muldiv)* */
  function AddSub(toks: seq<Token>, s: State): (r: Step)
    decreases Remaining(toks, s), 4
    ensures r.state.current > s.current
    ensures s.failed ==> r.state.failed
  {
    var l := MulDiv(toks, s);
    AddSubRest(toks, l.value, l.state)
  }

  /** expr := addsub */
  function Expr(toks: seq<Token>, s: State): (r: Step)
    decreases Remaining(toks, s), 5
    ensures r.state.current > s.current
    ensures s.failed ==> r.state.failed
  {
    AddSub(toks, s)
  }

  /** The whole parse: `parser_parse_expr` on a freshly initialised parser. */
  function Parse(toks: seq<Token>): Step {
    Expr(toks, State(0, false))
  }

  /** One turn of the addsub loop: an operator, then a muldiv operand folded into `l`. */
  lemma AddSubRestStep(toks: seq<Token>, l: int, s: State, acc: Step)
    requires !AtEnd(toks, s) && Lookahead(toks, s).kind in {OpPlus, OpMinus}
    requires acc == ApplyAddSub(l, Lookahead(toks, s).kind, MulDiv(toks, Next(s)))
    ensures AddSubRest(toks, l, s) == AddSubRest(toks, acc.value, acc.state)
  {
  }

  /** One turn of the muldiv loop: an operator, then a unary operand folded into `l`. */
  lemma MulDivRestStep(toks: seq<Token>, l: int, s: State, acc: Step)
    requires !AtEnd(toks, s) && Lookahead(toks, s).kind in {OpStar, OpSlash}
    requires acc == ApplyMulDiv(l, Lookahead(toks, s).kind, Unary(toks, Next(s)))
    ensures MulDivRest(toks, l, s) == MulDivRest(toks, acc.value, acc.state)
  {
  }

  class Parser {
    var tokens: TokenList?
    var current: nat
    var hasFailed: bool
    /** The contents of `tokens`, which the parser never changes. */
    ghost var input: seq<Token>

    ghost predicate Valid()
      reads this`tokens, this`input, tokens, if tokens != null then {tokens.data} else {}
    {
      tokens != null && tokens.Valid() && input == tokens.Contents()
    }

    /** The parser's state, as the reference evaluator sees it. */
    ghost function Cursor(): State
      reads this
    {
      State(current, hasFailed)
    }

    /** `Parser_Init`. */
    constructor Init(list: TokenList)
      requires list.Valid()
      ensures Valid() && input == list.Contents()
      ensures tokens == list && current == 0 && !hasFailed
    {
      tokens := list;
      input := list.Contents();
      current := 0;
      hasFailed := false;
    }

    /** `Parser_Free`: the only way, besides Init, to clear the failure flag. */
    method Free()
      modifies this
      ensures tokens == null && current == 0 && !hasFailed
    {
      tokens := null;
      current := 0;
      hasFailed := false;
    }

    /** `parser_peek_at`. */
    method PeekAt(offset: int) returns (t: Token)
      requires Valid() && 0 <= current + offset < tokens.len
      ensures t == input[current + offset]
    {
      t := tokens.Get(current + offset);
    }

    /** `parser_peek_previous`: the token just consumed. */
    method PeekPrevious() returns (t: Token)
      requires Valid() && 0 < current <= tokens.len
      ensures t == input[current - 1]
    {
      t := PeekAt(-1);
    }

    /** `parser_is_at_end`. */
    method IsAtEnd() returns (b: bool)
      requires Valid()
      ensures b == AtEnd(input, Cursor())
    {
      var n := tokens.Length();
      b := current >= n || hasFailed;
    }

    /** `parser_peek`. */
    method Peek() returns (t: Token)
      requires Valid()
      ensures t == Lookahead(input, Cursor())
    {
      var atEnd := IsAtEnd();
      if atEnd {
        return Token(Eof, 0);
      }
      t := PeekAt(0);
    }

    /** `parser_advance`: yields the peeked token and always moves the cursor by one. */
    method Advance() returns (t: Token)
      requires Valid()
      modifies this`current
      ensures Valid()
      ensures t == Lookahead(input, old(Cursor()))
      ensures current == old(current) + 1
    {
      t := Peek();
      current := current + 1;
    }

    /** `parser_match`: consume one token exactly when the peeked kind is `kind`. */
    method Match(kind: TokenType) returns (b: bool)
      requires Valid()
      modifies this`current
      ensures Valid()
      ensures b == (Lookahead(input, old(Cursor())).kind == kind)
      ensures current == if b then old(current) + 1 else old(current)
    {
      var token := Peek();
      if token.kind == kind {
        var _ := Advance();
        return true;
      }
      return false;
    }

    /**
     * The loop condition's `parser_match(self, a) || parser_match(self, b)`: consume one token
     * exactly when the peeked kind is `a` or `b`.
     */
    method MatchEither(a: TokenType, b: TokenType) returns (matched: bool)
      requires Valid()
      modifies this`current
      ensures Valid()
      ensures matched == (Lookahead(input, old(Cursor())).kind in {a, b})
      ensures current == if matched then old(current) + 1 else old(current)
    {
      matched := Match(a);
      if !matched {
        matched := Match(b);
      }
    }

    /** `parser_parse_expr`. */
    method ParseExpr() returns (v: int)
      requires Valid()
      modifies this`current, this`hasFailed
      decreases Remaining(input, Cursor()), 5
      ensures Valid()
      ensures Step(v, Cursor()) == Expr(input, old(Cursor()))
    {
      v := ParseAddSub();
    }

    /** `parser_parse_expr_addsub`. */
    method ParseAddSub() returns (v: int)
      requires Valid()
      modifies this`current, this`hasFailed
      decreases Remaining(input, Cursor()), 4
      ensures Valid()
      ensures Step(v, Cursor()) == AddSub(input, old(Cursor()))
    {
      ghost var toks := input;
      var l := ParseMulDiv();
      var r := 0;
      ghost var target := AddSubRest(toks, l, Cursor());
      while true
        invariant Valid() && input == toks && current >= old(current)
        invariant AddSubRest(toks, l, Cursor()) == target
        decreases Remaining(toks, Cursor())
      {
        ghost var before := Cursor();
        var atEnd := IsAtEnd();
        if atEnd {
          break;
        }
        var matched := MatchEither(OpPlus, OpMinus);
        if !matched {
          assert Cursor() == before && Lookahead(toks, before).kind !in {OpPlus, OpMinus};
          break;
        }
        var tok := PeekPrevious();
        assert tok.kind in {OpPlus, OpMinus} && tok.kind == Lookahead(toks, before).kind;
        assert Cursor() == Next(before);
        r := ParseMulDiv();
        ghost var l0, after := l, Cursor();
        match tok.kind {
          case OpPlus => l := l + r;
          case OpMinus => l := l - r;
          case _ =>
            // The loop condition only lets an operator of this level through, so the
            // source's failing default branch is unreachable.
            assert false;
        }
        assert Step(l, Cursor()) == ApplyAddSub(l0, tok.kind, Step(r, after));
        AddSubRestStep(toks, l0, before, Step(l, Cursor()));
      }
      v := l;
    }

    /** `parser_parse_expr_muldiv`; a zero divisor fails the parse instead of trapping. */
    method ParseMulDiv() returns (v: int)
      requires Valid()
      modifies this`current, this`hasFailed
      decreases Remaining(input, Cursor()), 3
      ensures Valid()
      ensures Step(v, Cursor()) == MulDiv(input, old(Cursor()))
    {
      ghost var toks := input;
      var l := ParseUnary();
      var r := 0;
      ghost var target := MulDivRest(toks, l, Cursor());
      while true
        invariant Valid() && input == toks && current >= old(current)
        invariant MulDivRest(toks, l, Cursor()) == target
        decreases Remaining(toks, Cursor())
      {
        ghost var before := Cursor();
        var atEnd := IsAtEnd();
        if atEnd {
          break;
        }
        var matched := MatchEither(OpStar, OpSlash);
        if !matched {
          assert Cursor() == before && Lookahead(toks, before).kind !in {OpStar, OpSlash};
          break;
        }
        var tok := PeekPrevious();
        assert tok.kind in {OpStar, OpSlash} && tok.kind == Lookahead(toks, before).kind;
        assert Cursor() == Next(before);
        r := ParseUnary();
        ghost var l0, after := l, Cursor();
        match tok.kind {
          case OpStar => l := l * r;
          case OpSlash =>
            if r == 0 {
              hasFailed := true;
              l := 0;
            } else {
              l := TruncDiv(l, r);
            }
          case _ =>
            // The loop condition only lets an operator of this level through, so the
            // source's failing default branch is unreachable.
            assert false;
        }
        assert Step(l, Cursor()) == ApplyMulDiv(l0, tok.kind, Step(r, after));
        MulDivRestStep(toks, l0, before, Step(l, Cursor()));
      }
      v := l;
    }

    /** `parser_parse_expr_unary`. */
    method ParseUnary() returns (v: int)
      requires Valid()
      modifies this`current, this`hasFailed
      decreases Remaining(input, Cursor()), 1
      ensures Valid()
      ensures Step(v, Cursor()) == Unary(input, old(Cursor()))
    {
      var matched := Match(OpPlus);
      if matched {
        v := ParsePrimary();
        return;
      }
      matched := Match(OpMinus);
      if matched {
        v := ParsePrimary();
        return -v;
      }
      v := ParsePrimary();
    }

    /** `parser_parse_expr_primary`. */
    method ParsePrimary() returns (v: int)
      requires Valid()
      modifies this`current, this`hasFailed
      decreases Remaining(input, Cursor()), 0
      ensures Valid()
      ensures Step(v, Cursor()) == Primary(input, old(Cursor()))
    {
      var token := Advance();
      var ans := 0;
      match token.kind {
        case Eof =>
        case LiteralNumber => ans := token.value;
        case ParenL =>
          var inner := ParseExpr();
          var closed := Match(ParenR);
          if closed {
            return inner;
          }
          hasFailed := true;
        case _ => hasFailed := true;
      }
      v := ans;
    }
  }
}
