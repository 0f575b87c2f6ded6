/**
 * What the parser of parser.h computes, stated against the grammar's reference evaluator: the
 * tokens of any expression without `^`, followed by anything that cannot continue it, parse
 * to the expression's value without failing, or fail exactly when the expression divides by 0.
 */
module ParserCorrectness {
  import opened Tokens
  import opened Grammar
  import opened Spans
  import P = Parsing

  function Punct(kind: TokenType): Token {
    Token(kind, 0)
  }

  /** The tokens the scanner produces for an expression. */
  function PrimaryTokens(p: Primary): seq<Token>
    requires PowFreePrimary(p)
    decreases p
  {
    match p
    case Number(n) => [Token(LiteralNumber, n)]
    case Group(e) => [Punct(ParenL)] + ExprTokens(e) + [Punct(ParenR)]
  }

  function UnaryTokens(u: Unary): seq<Token>
    requires PowFreePrimary(u.p)
    decreases u
  {
    match u
    case Bare(p) => PrimaryTokens(p)
    case Plus(p) => [Punct(OpPlus)] + PrimaryTokens(p)
    case Minus(p) => [Punct(OpMinus)] + PrimaryTokens(p)
  }

  function MulToken(op: MulOp): Token {
    if op == Mul then Punct(OpStar) else Punct(OpSlash)
  }

  function AddToken(op: AddOp): Token {
    if op == Add then Punct(OpPlus) else Punct(OpMinus)
  }

  function TermTokens(t: Term): seq<Token>
    requires PowFreeTerm(t)
    decreases t
  {
    match t
    case Single(f) => UnaryTokens(f.u)
    case Scale(l, op, r) => TermTokens(l) + [MulToken(op)] + UnaryTokens(r.u)
  }

  function ExprTokens(e: Expr): seq<Token>
    requires PowFreeExpr(e)
    decreases e
  {
    match e
    case Leaf(t) => TermTokens(t)
    case Combine(l, op, r) => ExprTokens(l) + [AddToken(op)] + TermTokens(r)
  }

  /** The state at position `k` with no failure. */
  function Clean(k: nat): P.State {
    P.State(k, false)
  }

  lemma {:induction false} PrimaryParses(p: Primary, toks: seq<Token>, k: nat)
    requires PowFreePrimary(p) && At(toks, k, PrimaryTokens(p))
    ensures var o, r := EvalPrimary(p), P.Primary(toks, Clean(k));
      (o.ok ==> r == P.Step(o.value, Clean(k + |PrimaryTokens(p)|))) && (!o.ok ==> r.state.failed)
    decreases p, 0
  {
    match p
    case Number(n) =>
      AtSingle(toks, k, Token(LiteralNumber, n));
    case Group(e) =>
      var inner := ExprTokens(e);
      AtConcat(toks, k, [Punct(ParenL)] + inner, [Punct(ParenR)]);
      AtConcat(toks, k, [Punct(ParenL)], inner);
      AtSingle(toks, k, Punct(ParenL));
      var j := k + 1 + |inner|;
      AtSingle(toks, j, Punct(ParenR));
      ExprParses(e, toks, k + 1);
  }

  lemma {:induction false} UnaryParses(u: Unary, toks: seq<Token>, k: nat)
    requires PowFreePrimary(u.p) && At(toks, k, UnaryTokens(u))
    ensures var o, r := EvalUnary(u), P.Unary(toks, Clean(k));
      (o.ok ==> r == P.Step(o.value, Clean(k + |UnaryTokens(u)|))) && (!o.ok ==> r.state.failed)
    decreases u, 1
  {
    match u
    case Bare(p) =>
      PrimaryParses(p, toks, k);
      // A primary starts with a number or `(`, never with a sign.
      PrimaryStart(p, toks, k);
    case Plus(p) =>
      AtConcat(toks, k, [Punct(OpPlus)], PrimaryTokens(p));
      AtSingle(toks, k, Punct(OpPlus));
      PrimaryParses(p, toks, k + 1);
    case Minus(p) =>
      AtConcat(toks, k, [Punct(OpMinus)], PrimaryTokens(p));
      AtSingle(toks, k, Punct(OpMinus));
      PrimaryParses(p, toks, k + 1);
  }

  lemma PrimaryStart(p: Primary, toks: seq<Token>, k: nat)
    requires PowFreePrimary(p) && At(toks, k, PrimaryTokens(p))
    ensures k < |toks| && toks[k].kind in {LiteralNumber, ParenL}
  {
    var t := PrimaryTokens(p);
    assert toks[k] == t[0];
  }

  /**
   * A term's tokens leave the muldiv loop ready to fold whatever follows into the term's value.
   */
  lemma {:induction false} TermParses(t: Term, toks: seq<Token>, k: nat)
    requires PowFreeTerm(t) && At(toks, k, TermTokens(t))
    ensures var o, r := EvalTerm(t), P.MulDiv(toks, Clean(k));
      (o.ok ==> r == P.MulDivRest(toks, o.value, Clean(k + |TermTokens(t)|))) && (!o.ok ==> r.state.failed)
    decreases t, 2
  {
    match t
    case Single(f) =>
      UnaryParses(f.u, toks, k);
    case Scale(l, op, f) =>
      ScaleParses(l, op, f, toks, k);
  }

  lemma {:induction false} ScaleParses(l: Term, op: MulOp, f: Factor, toks: seq<Token>, k: nat)
    requires PowFreeTerm(Scale(l, op, f)) && At(toks, k, TermTokens(Scale(l, op, f)))
    ensures var o, r := EvalTerm(Scale(l, op, f)), P.MulDiv(toks, Clean(k));
      (o.ok ==> r == P.MulDivRest(toks, o.value, Clean(k + |TermTokens(Scale(l, op, f))|)))
      && (!o.ok ==> r.state.failed)
    decreases Scale(l, op, f), 1
  {
    ScaleLayout(toks, k, l, op, f);
    var j := k + |TermTokens(l)|;
    TermParses(l, toks, k);
    UnaryParses(f.u, toks, j + 1);
    FoldMulDiv(l, op, f, toks, k);
  }

  /** Where the parts of `l op f` sit. */
  lemma ScaleLayout(toks: seq<Token>, k: nat, l: Term, op: MulOp, f: Factor)
    requires PowFreeTerm(Scale(l, op, f)) && At(toks, k, TermTokens(Scale(l, op, f)))
    ensures PowFreeTerm(l) && At(toks, k, TermTokens(l))
    ensures var j := k + |TermTokens(l)|;
      j < |toks| && toks[j] == MulToken(op) && At(toks, j + 1, UnaryTokens(f.u))
      && |TermTokens(Scale(l, op, f))| == |TermTokens(l)| + 1 + |UnaryTokens(f.u)|
  {
    var lt := TermTokens(l);
    AtConcat(toks, k, lt + [MulToken(op)], UnaryTokens(f.u));
    AtConcat(toks, k, lt, [MulToken(op)]);
    AtSingle(toks, k + |lt|, MulToken(op));
  }

  /**
   * One `*` or `/` turn of the muldiv loop agrees with ApplyMul on outcomes: from how `l` and
   * the operand `f` parse, how `l op f` parses.
   */
  lemma FoldMulDiv(l: Term, op: MulOp, f: Factor, toks: seq<Token>, k: nat)
    requires PowFreeTerm(Scale(l, op, f))
    requires var j := k + |TermTokens(l)|;
      j < |toks| && toks[j] == MulToken(op)
      && |TermTokens(Scale(l, op, f))| == |TermTokens(l)| + 1 + |UnaryTokens(f.u)|
    requires var o, r := EvalTerm(l), P.MulDiv(toks, Clean(k));
      (o.ok ==> r == P.MulDivRest(toks, o.value, Clean(k + |TermTokens(l)|))) && (!o.ok ==> r.state.failed)
    requires var o, r := EvalUnary(f.u), P.Unary(toks, Clean(k + |TermTokens(l)| + 1));
      (o.ok ==> r == P.Step(o.value, Clean(k + |TermTokens(l)| + 1 + |UnaryTokens(f.u)|)))
      && (!o.ok ==> r.state.failed)
    ensures var o, r := EvalTerm(Scale(l, op, f)), P.MulDiv(toks, Clean(k));
      (o.ok ==> r == P.MulDivRest(toks, o.value, Clean(k + |TermTokens(Scale(l, op, f))|)))
      && (!o.ok ==> r.state.failed)
  {
    var lo, uo := EvalTerm(l), EvalUnary(f.u);
    var j := k + |TermTokens(l)|;
    assert EvalTerm(Scale(l, op, f)) == ApplyMul(lo, op, uo);
    if lo.ok {
      var acc := P.ApplyMulDiv(lo.value, MulToken(op).kind, P.Unary(toks, Clean(j + 1)));
      P.MulDivRestStep(toks, lo.value, Clean(j), acc);
    }
  }

  /**
   * An expression's tokens, when no `*` or `/` follows them, leave the addsub loop ready to fold
   * whatever follows into the expression's value.
   */
  lemma {:induction false} ExprParses(e: Expr, toks: seq<Token>, k: nat)
    requires PowFreeExpr(e) && At(toks, k, ExprTokens(e))
    requires var j := k + |ExprTokens(e)|; j == |toks| || toks[j].kind !in {OpStar, OpSlash}
    ensures var o, r := EvalExpr(e), P.Expr(toks, Clean(k));
      (o.ok ==> r == P.AddSubRest(toks, o.value, Clean(k + |ExprTokens(e)|))) && (!o.ok ==> r.state.failed)
    decreases e, 3
  {
    match e
    case Leaf(t) =>
      TermParses(t, toks, k);
    case Combine(l, op, t) =>
      CombineParses(l, op, t, toks, k);
  }

  lemma {:induction false} CombineParses(l: Expr, op: AddOp, t: Term, toks: seq<Token>, k: nat)
    requires PowFreeExpr(Combine(l, op, t)) && At(toks, k, ExprTokens(Combine(l, op, t)))
    requires var j := k + |ExprTokens(Combine(l, op, t))|; j == |toks| || toks[j].kind !in {OpStar, OpSlash}
    ensures var o, r := EvalExpr(Combine(l, op, t)), P.Expr(toks, Clean(k));
      (o.ok ==> r == P.AddSubRest(toks, o.value, Clean(k + |ExprTokens(Combine(l, op, t))|)))
      && (!o.ok ==> r.state.failed)
    decreases Combine(l, op, t), 2
  {
    CombineLayout(toks, k, l, op, t);
    var j := k + |ExprTokens(l)|;
    ExprParses(l, toks, k);
    TermParses(t, toks, j + 1);
    FoldAddSub(l, op, t, toks, k);
  }

  /** Where the parts of `l op t` sit. */
  lemma CombineLayout(toks: seq<Token>, k: nat, l: Expr, op: AddOp, t: Term)
    requires PowFreeExpr(Combine(l, op, t)) && At(toks, k, ExprTokens(Combine(l, op, t)))
    ensures PowFreeExpr(l) && At(toks, k, ExprTokens(l))
    ensures var j := k + |ExprTokens(l)|;
      j < |toks| && toks[j] == AddToken(op) && At(toks, j + 1, TermTokens(t))
      && |ExprTokens(Combine(l, op, t))| == |ExprTokens(l)| + 1 + |TermTokens(t)|
  {
    var lt := ExprTokens(l);
    AtConcat(toks, k, lt + [AddToken(op)], TermTokens(t));
    AtConcat(toks, k, lt, [AddToken(op)]);
    AtSingle(toks, k + |lt|, AddToken(op));
  }

  /**
   * One `+` or `-` turn of the addsub loop agrees with ApplyAdd on outcomes: from how `l` and
   * the operand `t` parse, how `l op t` parses when no `*` or `/` follows.
   */
  lemma FoldAddSub(l: Expr, op: AddOp, t: Term, toks: seq<Token>, k: nat)
    requires PowFreeExpr(Combine(l, op, t))
    requires var j := k + |ExprTokens(l)|;
      j < |toks| && toks[j] == AddToken(op)
      && |ExprTokens(Combine(l, op, t))| == |ExprTokens(l)| + 1 + |TermTokens(t)|
    requires var j := k + |ExprTokens(Combine(l, op, t))|;
      j <= |toks| && (j == |toks| || toks[j].kind !in {OpStar, OpSlash})
    requires var o, r := EvalExpr(l), P.Expr(toks, Clean(k));
      (o.ok ==> r == P.AddSubRest(toks, o.value, Clean(k + |ExprTokens(l)|))) && (!o.ok ==> r.state.failed)
    requires var o, r := EvalTerm(t), P.MulDiv(toks, Clean(k + |ExprTokens(l)| + 1));
      (o.ok ==> r == P.MulDivRest(toks, o.value, Clean(k + |ExprTokens(l)| + 1 + |TermTokens(t)|)))
      && (!o.ok ==> r.state.failed)
    ensures var o, r := EvalExpr(Combine(l, op, t)), P.Expr(toks, Clean(k));
      (o.ok ==> r == P.AddSubRest(toks, o.value, Clean(k + |ExprTokens(Combine(l, op, t))|)))
      && (!o.ok ==> r.state.failed)
  {
    var lo, to := EvalExpr(l), EvalTerm(t);
    var j := k + |ExprTokens(l)|;
    var end := j + 1 + |TermTokens(t)|;
    if to.ok {
      // What follows the term cannot continue it.
      assert P.MulDivRest(toks, to.value, Clean(end)) == P.Step(to.value, Clean(end));
    }
    assert EvalExpr(Combine(l, op, t)) == ApplyAdd(lo, op, to);
    if lo.ok {
      var acc := P.ApplyAddSub(lo.value, AddToken(op).kind, P.MulDiv(toks, Clean(j + 1)));
      P.AddSubRestStep(toks, lo.value, Clean(j), acc);
    }
  }

  /** Tokens that end an expression: nothing, or a token no operator loop accepts. */
  predicate Terminates(rest: seq<Token>) {
    rest == [] || rest[0].kind !in {OpPlus, OpMinus, OpStar, OpSlash}
  }

  /**
   * The parser evaluates: the tokens of an expression, followed by tokens that cannot continue
   * it, give the expression's value and leave the cursor just after it with no failure; they
   * fail exactly when the expression divides by zero. Whatever follows is not inspected.
   */
  lemma ParsePrinted(e: Expr, rest: seq<Token>)
    requires PowFreeExpr(e) && Terminates(rest)
    ensures var o, r := EvalExpr(e), P.Parse(ExprTokens(e) + rest);
      (o.ok ==> r == P.Step(o.value, Clean(|ExprTokens(e)|))) && (o.ok <==> !r.state.failed)
  {
    var toks := ExprTokens(e) + rest;
    assert toks[0..|ExprTokens(e)|] == ExprTokens(e);
    AtPrefix(toks, 0, ExprTokens(e));
    ExprParses(e, toks, 0);
  }

  /** Once failed, a parse consumes one token and yields 0: the failure unwinds everything. */
  lemma FailedParseIsInert(toks: seq<Token>, s: P.State)
    requires s.failed
    ensures P.Expr(toks, s) == P.Step(0, P.Next(s))
  {
    assert P.Unary(toks, s) == P.Primary(toks, s) == P.Step(0, P.Next(s));
    assert P.MulDivRest(toks, 0, P.Next(s)) == P.Step(0, P.Next(s));
    assert P.MulDiv(toks, s) == P.Step(0, P.Next(s));
    assert P.AddSubRest(toks, 0, P.Next(s)) == P.Step(0, P.Next(s));
    assert P.AddSub(toks, s) == P.Step(0, P.Next(s));
  }

  /** Empty input evaluates to 0 without failing: a primary at the end yields 0. */
  lemma EmptyInputIsZero()
    ensures P.Parse([]) == P.Step(0, Clean(1))
  {
  }

  /** `3+` evaluates to 3 without failing: the missing operand is an end-of-input primary. */
  lemma TrailingOperatorIsLenient()
    ensures P.Parse([Token(LiteralNumber, 3), Punct(OpPlus)]) == P.Step(3, Clean(3))
  {
  }

  /** `- - 5` fails: a sign applies to a primary, and a primary cannot start with a sign. */
  lemma DoubleNegationFails()
    ensures P.Parse([Punct(OpMinus), Punct(OpMinus), Token(LiteralNumber, 5)]).state.failed
  {
  }

  /** `(1` fails: the group's `)` is missing. */
  lemma UnclosedGroupFails()
    ensures P.Parse([Punct(ParenL), Token(LiteralNumber, 1)]).state.failed
  {
  }
}
