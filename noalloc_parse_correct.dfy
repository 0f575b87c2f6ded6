/**
 * What the parser of noalloc.c computes, stated against the grammar's reference evaluator. The
 * tokens of any expression, `^` included, followed by a token that cannot continue it, parse to
 * the expression's value; the failure flag ends up set exactly when the expression divides by
 * zero (or was set before), and the parse reads no slot past that following token.
 */
module NoAllocParseCorrectness {
  import opened Grammar
  import opened Spans
  import opened Lexical
  import N = NoAllocSpec
  import opened NoAllocLexCorrectness

  function Punct(kind: N.Kind): N.Token {
    N.Token(kind, 0)
  }

  /** The tokens the scanner produces for an expression. */
  function PrimaryTokens(p: Primary): seq<N.Token>
    decreases p
  {
    match p
    case Number(n) => [N.Token(N.LitNumber, n)]
    case Group(e) => [Punct(N.ParenL)] + ExprTokens(e) + [Punct(N.ParenR)]
  }

  function UnaryTokens(u: Unary): seq<N.Token>
    decreases u
  {
    match u
    case Bare(p) => PrimaryTokens(p)
    case Plus(p) => [Punct(N.OpPlus)] + PrimaryTokens(p)
    case Minus(p) => [Punct(N.OpMinus)] + PrimaryTokens(p)
  }

  function FactorTokens(f: Factor): seq<N.Token>
    decreases f
  {
    match f
    case Base(u) => UnaryTokens(u)
    case Raise(b, x) => FactorTokens(b) + [Punct(N.OpPow)] + UnaryTokens(x)
  }

  function MulToken(op: MulOp): N.Token {
    if op == Mul then Punct(N.OpStar) else Punct(N.OpSlash)
  }

  function AddToken(op: AddOp): N.Token {
    if op == Add then Punct(N.OpPlus) else Punct(N.OpMinus)
  }

  function TermTokens(t: Term): seq<N.Token>
    decreases t
  {
    match t
    case Single(f) => FactorTokens(f)
    case Scale(l, op, r) => TermTokens(l) + [MulToken(op)] + FactorTokens(r)
  }

  function ExprTokens(e: Expr): seq<N.Token>
    decreases e
  {
    match e
    case Leaf(t) => TermTokens(t)
    case Combine(l, op, r) => ExprTokens(l) + [AddToken(op)] + TermTokens(r)
  }

  /** A state at `k` with failure flag `f` that has read no stale slot. */
  function At0(k: nat, f: bool): N.State {
    N.State(k, f, false)
  }

  /** Position `j` holds a token, and not one of the operators `stop`. */
  predicate Follows(toks: seq<N.Token>, j: nat, stop: set<N.Kind>) {
    j < |toks| && toks[j].kind !in stop
  }

  lemma {:induction false} PrimaryParses(p: Primary, toks: seq<N.Token>, k: nat, f: bool)
    requires At(toks, k, PrimaryTokens(p))
    ensures var o := EvalPrimary(p);
      N.Primary(toks, At0(k, f)) == N.Step(o.value, At0(k + |PrimaryTokens(p)|, f || !o.ok))
    decreases p, 0
  {
    match p
    case Number(n) =>
      AtSingle(toks, k, N.Token(N.LitNumber, n));
    case Group(e) =>
      var inner := ExprTokens(e);
      AtConcat(toks, k, [Punct(N.ParenL)] + inner, [Punct(N.ParenR)]);
      AtConcat(toks, k, [Punct(N.ParenL)], inner);
      AtSingle(toks, k, Punct(N.ParenL));
      var j := k + 1 + |inner|;
      AtSingle(toks, j, Punct(N.ParenR));
      ExprParses(e, toks, k + 1, f);
      var o := EvalExpr(e);
      // The `)` cannot continue the inner expression.
      assert N.AddSubRest(toks, o.value, At0(j, f || !o.ok)) == N.Step(o.value, At0(j, f || !o.ok));
  }

  lemma PrimaryStart(p: Primary, toks: seq<N.Token>, k: nat)
    requires At(toks, k, PrimaryTokens(p))
    ensures k < |toks| && toks[k].kind in {N.LitNumber, N.ParenL}
  {
    var t := PrimaryTokens(p);
    assert toks[k] == t[0];
  }

  lemma {:induction false} UnaryParses(u: Unary, toks: seq<N.Token>, k: nat, f: bool)
    requires At(toks, k, UnaryTokens(u))
    ensures var o := EvalUnary(u);
      N.Unary(toks, At0(k, f)) == N.Step(o.value, At0(k + |UnaryTokens(u)|, f || !o.ok))
    decreases u, 1
  {
    match u
    case Bare(p) =>
      PrimaryParses(p, toks, k, f);
      // A primary starts with a number or `(`, never with a sign.
      PrimaryStart(p, toks, k);
    case Plus(p) =>
      AtConcat(toks, k, [Punct(N.OpPlus)], PrimaryTokens(p));
      AtSingle(toks, k, Punct(N.OpPlus));
      PrimaryParses(p, toks, k + 1, f);
    case Minus(p) =>
      AtConcat(toks, k, [Punct(N.OpMinus)], PrimaryTokens(p));
      AtSingle(toks, k, Punct(N.OpMinus));
      PrimaryParses(p, toks, k + 1, f);
  }

  /** A factor's tokens leave the pow loop ready to raise its value by whatever follows. */
  lemma {:induction false} FactorParses(x: Factor, toks: seq<N.Token>, k: nat, f: bool)
    requires At(toks, k, FactorTokens(x))
    ensures var o := EvalFactor(x);
      N.PowExpr(toks, At0(k, f)) == N.PowRest(toks, o.value, At0(k + |FactorTokens(x)|, f || !o.ok))
    decreases x, 2
  {
    match x
    case Base(u) =>
      UnaryParses(u, toks, k, f);
    case Raise(b, e) =>
      RaiseParses(b, e, toks, k, f);
  }

  lemma {:induction false} RaiseParses(b: Factor, e: Unary, toks: seq<N.Token>, k: nat, f: bool)
    requires At(toks, k, FactorTokens(Raise(b, e)))
    ensures var o := EvalFactor(Raise(b, e));
      N.PowExpr(toks, At0(k, f)) == N.PowRest(toks, o.value, At0(k + |FactorTokens(Raise(b, e))|, f || !o.ok))
    decreases Raise(b, e), 1
  {
    RaiseLayout(toks, k, b, e);
    var j := k + |FactorTokens(b)|;
    var ob, oe := EvalFactor(b), EvalUnary(e);
    var end := j + 1 + |UnaryTokens(e)|;
    FactorParses(b, toks, k, f);
    assert N.PowExpr(toks, At0(k, f)) == N.PowRest(toks, ob.value, At0(j, f || !ob.ok));
    UnaryParses(e, toks, j + 1, f || !ob.ok);
    FoldPow(toks, j, f, end, ob, oe);
    assert EvalFactor(Raise(b, e)) == Outcome(Arith.Pow(ob.value, oe.value), ob.ok && oe.ok);
    assert end == k + |FactorTokens(Raise(b, e))|;
  }

  /** Where the parts of `b ^ e` sit. */
  lemma RaiseLayout(toks: seq<N.Token>, k: nat, b: Factor, e: Unary)
    requires At(toks, k, FactorTokens(Raise(b, e)))
    ensures At(toks, k, FactorTokens(b))
    ensures var j := k + |FactorTokens(b)|;
      j < |toks| && toks[j] == Punct(N.OpPow) && At(toks, j + 1, UnaryTokens(e))
      && |FactorTokens(Raise(b, e))| == |FactorTokens(b)| + 1 + |UnaryTokens(e)|
  {
    var bt := FactorTokens(b);
    AtConcat(toks, k, bt + [Punct(N.OpPow)], UnaryTokens(e));
    AtConcat(toks, k, bt, [Punct(N.OpPow)]);
    AtSingle(toks, k + |bt|, Punct(N.OpPow));
  }

  /** One `^` turn of the pow loop agrees with the evaluator's `Raise`. */
  lemma FoldPow(toks: seq<N.Token>, j: nat, f: bool, end: nat, ob: Outcome, oe: Outcome)
    requires j < |toks| && toks[j] == Punct(N.OpPow)
    requires N.Unary(toks, At0(j + 1, f || !ob.ok)) == N.Step(oe.value, At0(end, f || !ob.ok || !oe.ok))
    ensures N.PowRest(toks, ob.value, At0(j, f || !ob.ok))
      == N.PowRest(toks, Arith.Pow(ob.value, oe.value), At0(end, f || !(ob.ok && oe.ok)))
  {
    N.PowRestStep(toks, ob.value, At0(j, f || !ob.ok));
  }

  /** A term's tokens, when no `^` follows, leave the muldiv loop ready to fold whatever follows. */
  lemma {:induction false} TermParses(t: Term, toks: seq<N.Token>, k: nat, f: bool)
    requires At(toks, k, TermTokens(t)) && Follows(toks, k + |TermTokens(t)|, {N.OpPow})
    ensures var o := EvalTerm(t);
      N.MulDiv(toks, At0(k, f)) == N.MulDivRest(toks, o.value, At0(k + |TermTokens(t)|, f || !o.ok))
    decreases t, 3
  {
    match t
    case Single(x) =>
      FactorParses(x, toks, k, f);
    case Scale(l, op, r) =>
      ScaleParses(l, op, r, toks, k, f);
  }

  lemma {:induction false} ScaleParses(l: Term, op: MulOp, r: Factor, toks: seq<N.Token>, k: nat, f: bool)
    requires At(toks, k, TermTokens(Scale(l, op, r)))
    requires Follows(toks, k + |TermTokens(Scale(l, op, r))|, {N.OpPow})
    ensures var o := EvalTerm(Scale(l, op, r));
      N.MulDiv(toks, At0(k, f)) == N.MulDivRest(toks, o.value, At0(k + |TermTokens(Scale(l, op, r))|, f || !o.ok))
    decreases Scale(l, op, r), 2
  {
    ScaleLayout(toks, k, l, op, r);
    var j := k + |TermTokens(l)|;
    var ol := EvalTerm(l);
    TermParses(l, toks, k, f);
    FactorParses(r, toks, j + 1, f || !ol.ok);
    FoldMulDiv(toks, j, f, j + 1 + |FactorTokens(r)|, ol, op, EvalFactor(r));
    assert EvalTerm(Scale(l, op, r)) == ApplyMul(ol, op, EvalFactor(r));
  }

  /** Where the parts of `l op r` sit. */
  lemma ScaleLayout(toks: seq<N.Token>, k: nat, l: Term, op: MulOp, r: Factor)
    requires At(toks, k, TermTokens(Scale(l, op, r)))
    ensures At(toks, k, TermTokens(l))
    ensures var j := k + |TermTokens(l)|;
      j < |toks| && toks[j] == MulToken(op) && At(toks, j + 1, FactorTokens(r))
      && |TermTokens(Scale(l, op, r))| == |TermTokens(l)| + 1 + |FactorTokens(r)|
  {
    var lt := TermTokens(l);
    AtConcat(toks, k, lt + [MulToken(op)], FactorTokens(r));
    AtConcat(toks, k, lt, [MulToken(op)]);
    AtSingle(toks, k + |lt|, MulToken(op));
  }

  /** One `*` or `/` turn of the muldiv loop, on an operand no `^` follows, agrees with ApplyMul. */
  lemma FoldMulDiv(toks: seq<N.Token>, j: nat, f: bool, end: nat, ol: Outcome, op: MulOp, or: Outcome)
    requires j < |toks| && toks[j] == MulToken(op) && Follows(toks, end, {N.OpPow})
    requires N.PowExpr(toks, At0(j + 1, f || !ol.ok)) == N.PowRest(toks, or.value, At0(end, f || !ol.ok || !or.ok))
    ensures var o := ApplyMul(ol, op, or);
      N.MulDivRest(toks, ol.value, At0(j, f || !ol.ok)) == N.MulDivRest(toks, o.value, At0(end, f || !o.ok))
  {
    var fr := f || !ol.ok || !or.ok;
    assert N.PowRest(toks, or.value, At0(end, fr)) == N.Step(or.value, At0(end, fr));
    N.MulDivRestStep(toks, ol.value, At0(j, f || !ol.ok));
  }

  /**
   * An expression's tokens, when no `*`, `/` or `^` follows, leave the addsub loop ready to fold
   * whatever follows into the expression's value.
   */
  lemma {:induction false} ExprParses(e: Expr, toks: seq<N.Token>, k: nat, f: bool)
    requires At(toks, k, ExprTokens(e)) && Follows(toks, k + |ExprTokens(e)|, {N.OpPow, N.OpStar, N.OpSlash})
    ensures var o := EvalExpr(e);
      N.Expr(toks, At0(k, f)) == N.AddSubRest(toks, o.value, At0(k + |ExprTokens(e)|, f || !o.ok))
    decreases e, 4
  {
    match e
    case Leaf(t) =>
      TermParses(t, toks, k, f);
      var o := EvalTerm(t);
      var end := k + |TermTokens(t)|;
      // No `*` or `/` follows the term.
      assert N.MulDivRest(toks, o.value, At0(end, f || !o.ok)) == N.Step(o.value, At0(end, f || !o.ok));
    case Combine(l, op, t) =>
      CombineParses(l, op, t, toks, k, f);
  }

  lemma {:induction false} CombineParses(l: Expr, op: AddOp, t: Term, toks: seq<N.Token>, k: nat, f: bool)
    requires At(toks, k, ExprTokens(Combine(l, op, t)))
    requires Follows(toks, k + |ExprTokens(Combine(l, op, t))|, {N.OpPow, N.OpStar, N.OpSlash})
    ensures var o := EvalExpr(Combine(l, op, t));
      N.Expr(toks, At0(k, f)) == N.AddSubRest(toks, o.value, At0(k + |ExprTokens(Combine(l, op, t))|, f || !o.ok))
    decreases Combine(l, op, t), 3
  {
    CombineLayout(toks, k, l, op, t);
    var ol, ot := EvalExpr(l), EvalTerm(t);
    var j, end := k + |ExprTokens(l)|, k + |ExprTokens(Combine(l, op, t))|;
    ExprParses(l, toks, k, f);
    TermParses(t, toks, j + 1, f || !ol.ok);
    assert EvalExpr(Combine(l, op, t)) == ApplyAdd(ol, op, ot);
    FoldAddSub(toks, j, end, f || !ol.ok, ol.value, op, ot, EvalExpr(Combine(l, op, t)), f);
  }

  /** Where the parts of `l op t` sit. */
  lemma CombineLayout(toks: seq<N.Token>, k: nat, l: Expr, op: AddOp, t: Term)
    requires At(toks, k, ExprTokens(Combine(l, op, t)))
    ensures At(toks, k, ExprTokens(l))
    ensures var j := k + |ExprTokens(l)|;
      j < |toks| && toks[j] == AddToken(op) && At(toks, j + 1, TermTokens(t))
      && |ExprTokens(Combine(l, op, t))| == |ExprTokens(l)| + 1 + |TermTokens(t)|
  {
    var lt := ExprTokens(l);
    AtConcat(toks, k, lt + [AddToken(op)], TermTokens(t));
    AtConcat(toks, k, lt, [AddToken(op)]);
    AtSingle(toks, k + |lt|, AddToken(op));
  }

  /**
   * The `+` or `-` turn of the addsub loop at `j`, on the left value `lv` and the failure flag
   * `g`: when the muldiv operand after the operator has outcome `ot` and no `*` or `/` follows
   * it, the loop goes on with the sum or difference `o`, failed when `g` was set or `ot` failed.
   */
  lemma FoldAddSub(toks: seq<N.Token>, j: nat, end: nat, g: bool, lv: int, op: AddOp, ot: Outcome, o: Outcome, f: bool)
    requires j < |toks| && toks[j] == AddToken(op)
    requires Follows(toks, end, {N.OpStar, N.OpSlash})
    requires N.MulDiv(toks, At0(j + 1, g)) == N.MulDivRest(toks, ot.value, At0(end, g || !ot.ok))
    requires o.value == (if op == Add then lv + ot.value else lv - ot.value) && (f || !o.ok) == (g || !ot.ok)
    ensures N.AddSubRest(toks, lv, At0(j, g)) == N.AddSubRest(toks, o.value, At0(end, f || !o.ok))
  {
    assert N.MulDivRest(toks, ot.value, At0(end, g || !ot.ok)) == N.Step(ot.value, At0(end, g || !ot.ok));
    N.AddSubRestStep(toks, lv, At0(j, g));
  }

  /** Tokens that end an expression: a token no operator loop accepts. */
  predicate Terminates(rest: seq<N.Token>) {
    rest != [] && rest[0].kind !in {N.OpPlus, N.OpMinus, N.OpStar, N.OpSlash, N.OpPow}
  }

  /**
   * The parser evaluates: the tokens of an expression, followed by a token that cannot continue
   * it, give the expression's value, leave the cursor on that token, set the failure flag
   * exactly when the expression divides by zero, and read no stale slot.
   */
  lemma ParsePrinted(e: Expr, rest: seq<N.Token>)
    requires Terminates(rest)
    ensures var o := EvalExpr(e);
      N.Expr(ExprTokens(e) + rest, At0(0, false)) == N.Step(o.value, At0(|ExprTokens(e)|, !o.ok))
  {
    var toks := ExprTokens(e) + rest;
    assert toks[0..|ExprTokens(e)|] == ExprTokens(e);
    AtPrefix(toks, 0, ExprTokens(e));
    ExprParses(e, toks, 0, false);
  }

  /** Every token of a printed expression is one the scanner can produce. */
  lemma {:induction false} ExprTokensProduced(e: Expr)
    ensures forall t :: t in ExprTokens(e) ==> Produced(t)
    decreases e, 4
  {
    match e
    case Leaf(t) => TermTokensProduced(t);
    case Combine(l, _, r) => ExprTokensProduced(l); TermTokensProduced(r);
  }

  lemma {:induction false} TermTokensProduced(t: Term)
    ensures forall x :: x in TermTokens(t) ==> Produced(x)
    decreases t, 3
  {
    match t
    case Single(f) => FactorTokensProduced(f);
    case Scale(l, _, r) => TermTokensProduced(l); FactorTokensProduced(r);
  }

  lemma {:induction false} FactorTokensProduced(f: Factor)
    ensures forall x :: x in FactorTokens(f) ==> Produced(x)
    decreases f, 2
  {
    match f
    case Base(u) => UnaryTokensProduced(u);
    case Raise(b, x) => FactorTokensProduced(b); UnaryTokensProduced(x);
  }

  lemma {:induction false} UnaryTokensProduced(u: Unary)
    ensures forall x :: x in UnaryTokens(u) ==> Produced(x)
    decreases u, 1
  {
    PrimaryTokensProduced(u.p);
  }

  lemma {:induction false} PrimaryTokensProduced(p: Primary)
    ensures forall x :: x in PrimaryTokens(p) ==> Produced(x)
    decreases p, 0
  {
    match p
    case Number(_) =>
    case Group(e) => ExprTokensProduced(e);
  }

  /** No two numbers in a row, so a printer may write the tokens with no gap between them. */
  predicate Unglued(toks: seq<N.Token>) {
    forall i :: 0 < i < |toks| ==> !Glued(toks[i - 1], toks[i])
  }

  /** Joining two such sequences by a token that is not a number keeps numbers apart. */
  lemma UngluedJoin(a: seq<N.Token>, x: N.Token, b: seq<N.Token>)
    requires Unglued(a) && Unglued(b) && x.kind != N.LitNumber
    ensures Unglued(a + [x] + b)
  {
    var s := a + [x] + b;
    forall i | 0 < i < |s|
      ensures !Glued(s[i - 1], s[i])
    {
      if i < |a| {
        assert s[i - 1] == a[i - 1] && s[i] == a[i];
      } else if i == |a| {
        assert s[i] == x;
      } else if i == |a| + 1 {
        assert s[i - 1] == x;
      } else {
        assert s[i - 1] == b[i - |a| - 2] && s[i] == b[i - |a| - 1];
      }
    }
  }

  /** A printed expression never has two numbers in a row. */
  lemma {:induction false} ExprUnglued(e: Expr)
    ensures Unglued(ExprTokens(e))
    decreases e, 4
  {
    match e
    case Leaf(t) => TermUnglued(t);
    case Combine(l, op, r) => ExprUnglued(l); TermUnglued(r); UngluedJoin(ExprTokens(l), AddToken(op), TermTokens(r));
  }

  lemma {:induction false} TermUnglued(t: Term)
    ensures Unglued(TermTokens(t))
    decreases t, 3
  {
    match t
    case Single(f) => FactorUnglued(f);
    case Scale(l, op, r) => TermUnglued(l); FactorUnglued(r); UngluedJoin(TermTokens(l), MulToken(op), FactorTokens(r));
  }

  lemma {:induction false} FactorUnglued(f: Factor)
    ensures Unglued(FactorTokens(f))
    decreases f, 2
  {
    match f
    case Base(u) => UnaryUnglued(u);
    case Raise(b, x) => FactorUnglued(b); UnaryUnglued(x); UngluedJoin(FactorTokens(b), Punct(N.OpPow), UnaryTokens(x));
  }

  lemma {:induction false} UnaryUnglued(u: Unary)
    ensures Unglued(UnaryTokens(u))
    decreases u, 1
  {
    PrimaryUnglued(u.p);
    match u
    case Bare(_) =>
    case Plus(p) =>
      UngluedJoin([], Punct(N.OpPlus), PrimaryTokens(p));
      assert [] + [Punct(N.OpPlus)] + PrimaryTokens(p) == UnaryTokens(u);
    case Minus(p) =>
      UngluedJoin([], Punct(N.OpMinus), PrimaryTokens(p));
      assert [] + [Punct(N.OpMinus)] + PrimaryTokens(p) == UnaryTokens(u);
  }

  lemma {:induction false} PrimaryUnglued(p: Primary)
    ensures Unglued(PrimaryTokens(p))
    decreases p, 0
  {
    match p
    case Number(_) =>
    case Group(e) =>
      var inner := ExprTokens(e);
      ExprUnglued(e);
      UngluedJoin([], Punct(N.ParenL), inner);
      assert [] + [Punct(N.ParenL)] + inner == [Punct(N.ParenL)] + inner;
      UngluedJoin([Punct(N.ParenL)] + inner, Punct(N.ParenR), []);
      assert [Punct(N.ParenL)] + inner + [Punct(N.ParenR)] + [] == PrimaryTokens(p);
  }

  /**
   * `eval` on a printed expression, written with any whitespace, none included, after each
   * token: the text scans to the expression's tokens without failure, `strlen` counts all of it,
   * and the parse of those tokens and the `EOF` yields the expression's value, fails exactly
   * when it divides by zero, and reads no stale slot, so NoAlloc.Globals.Eval applies whenever
   * the tokens fit the array.
   */
  lemma EvalPrinted(e: Expr, gaps: seq<string>)
    requires |gaps| == |ExprTokens(e)| && forall i :: 0 <= i < |gaps| ==> AllWhitespace(gaps[i])
    ensures forall t :: t in ExprTokens(e) ==> Produced(t)
    ensures var text := Render(ExprTokens(e), gaps);
      var o := EvalExpr(e);
      && StrLen(text) == |text|
      && N.Lex(text) == N.Sweep(ExprTokens(e), false)
      && N.Expr(ExprTokens(e) + [N.Token(N.Eof, 0)], At0(0, false)) == N.Step(o.value, At0(|ExprTokens(e)|, !o.ok))
  {
    ExprTokensProduced(e);
    ExprUnglued(e);
    assert Gaps(ExprTokens(e), gaps);
    LexRender(ExprTokens(e), gaps);
    RenderStrLen(ExprTokens(e), gaps);
    ParsePrinted(e, [N.Token(N.Eof, 0)]);
  }

  /** The tokens of `2+3*4`, printed with no gaps, spell exactly that text. */
  lemma RenderUnspaced(toks: seq<N.Token>, gaps: seq<string>)
    requires toks == [Num(2), Punct(N.OpPlus), Num(3), Punct(N.OpStar), Num(4)]
    requires gaps == ["", "", "", "", ""]
    ensures Render(toks, gaps) == "2+3*4"
  {
    assert Decimal(2) == "2" && Decimal(3) == "3" && Decimal(4) == "4";
    assert Render(toks[4..], gaps[4..]) == "4";
    assert Render(toks[3..], gaps[3..]) == "*4";
    assert Render(toks[2..], gaps[2..]) == "3*4";
    assert Render(toks[1..], gaps[1..]) == "+3*4";
  }

  /** The tree of `2+3*4`: its tokens, and its value 14 with no failure. */
  lemma UnspacedTree() returns (e: Expr)
    ensures ExprTokens(e) == [Num(2), Punct(N.OpPlus), Num(3), Punct(N.OpStar), Num(4)]
    ensures EvalExpr(e) == Outcome(14, true)
  {
    e := Combine(Leaf(Single(Base(Bare(Number(2))))), Add,
      Scale(Single(Base(Bare(Number(3)))), Mul, Base(Bare(Number(4)))));
  }

  /** A printed tree of value 14 whose five tokens spell `2+3*4` makes that text evaluate to 14. */
  lemma UnspacedParts(e: Expr, gaps: seq<string>, text: string)
    requires |gaps| == |ExprTokens(e)| == 5 && forall i :: 0 <= i < |gaps| ==> AllWhitespace(gaps[i])
    requires forall t :: t in ExprTokens(e) ==> Produced(t)
    requires EvalExpr(e) == Outcome(14, true) && text == Render(ExprTokens(e), gaps)
    ensures var toks := N.Lex(text).tokens + [N.Token(N.Eof, 0)];
      && !N.Lex(text).failed && StrLen(text) == |text|
      && N.Expr(toks, At0(0, false)) == N.Step(14, At0(5, false))
  {
    EvalPrinted(e, gaps);
  }

  /** `2+3*4`, written without a single blank, scans cleanly and evaluates to 14. */
  lemma UnspacedText(text: string)
    requires text == "2+3*4"
    ensures var toks := N.Lex(text).tokens + [N.Token(N.Eof, 0)];
      && !N.Lex(text).failed && StrLen(text) == |text|
      && N.Expr(toks, At0(0, false)) == N.Step(14, At0(5, false))
  {
    var e := UnspacedTree();
    var gaps := ["", "", "", "", ""];
    ExprTokensProduced(e);
    RenderUnspaced(ExprTokens(e), gaps);
    UnspacedParts(e, gaps, text);
  }

  // ---------------------------------------------------------------- examples

  function Num(n: nat): N.Token {
    N.Token(N.LitNumber, n)
  }

  /** `2^3^2` is 64: `^` groups to the left, so this is (2^3)^2 and not 2^9. */
  lemma PowGroupsLeft(toks: seq<N.Token>)
    requires toks == [Num(2), Punct(N.OpPow), Num(3), Punct(N.OpPow), Num(2), Punct(N.Eof)]
    ensures N.Expr(toks, At0(0, false)) == N.Step(64, At0(5, false))
  {
    var e := Leaf(Single(Raise(Raise(Base(Bare(Number(2))), Bare(Number(3))), Bare(Number(2)))));
    assert ExprTokens(e) + [Punct(N.Eof)] == toks;
    assert Arith.Pow(2, 3) == 8 && Arith.Pow(8, 2) == 64;
    assert EvalExpr(e) == Outcome(64, true);
    ParsePrinted(e, [Punct(N.Eof)]);
  }

  /** `-2^2` is 4: the sign belongs to the primary, before `^` applies. */
  lemma SignBindsTighterThanPow(toks: seq<N.Token>)
    requires toks == [Punct(N.OpMinus), Num(2), Punct(N.OpPow), Num(2), Punct(N.Eof)]
    ensures N.Expr(toks, At0(0, false)) == N.Step(4, At0(4, false))
  {
    var e := Leaf(Single(Raise(Base(Minus(Number(2))), Bare(Number(2)))));
    assert ExprTokens(e) + [Punct(N.Eof)] == toks;
    assert Arith.Pow(-2, 2) == 4;
    assert EvalExpr(e) == Outcome(4, true);
    ParsePrinted(e, [Punct(N.Eof)]);
  }

  /** `8/0` sets the failure flag and yields 0. */
  lemma DivisionByZeroFails(toks: seq<N.Token>)
    requires toks == [Num(8), Punct(N.OpSlash), Num(0), Punct(N.Eof)]
    ensures N.Expr(toks, At0(0, false)) == N.Step(0, At0(3, true))
  {
    var e := Leaf(Scale(Single(Base(Bare(Number(8)))), Div, Base(Bare(Number(0)))));
    assert ExprTokens(e) + [Punct(N.Eof)] == toks;
    assert EvalExpr(e) == Outcome(0, false);
    ParsePrinted(e, [Punct(N.Eof)]);
  }

  /**
   * `3+` reads past the `EOF`: the missing operand consumes the `EOF` as a primary, and the
   * pow loop then looks at the slot after it.
   */
  lemma TrailingOperatorReadsStale()
    ensures N.Expr([Num(3), Punct(N.OpPlus), Punct(N.Eof)], At0(0, false)).state.stale
  {
  }

  /** The empty text reads past the `EOF` too: its lone `EOF` is consumed as a primary. */
  lemma EmptyInputReadsStale()
    ensures N.Expr([Punct(N.Eof)], At0(0, false)).state.stale
  {
  }
}
