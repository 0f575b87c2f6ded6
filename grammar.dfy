/**
 * The expression grammar both parsers implement, as a syntax tree, with the value an expression
 * denotes. Each level is left-nested, so the tree shape fixes precedence and left associativity:
 *
 *   expr    := addsub
 *   addsub  := muldiv (('+' | '-') muldiv)*
 *   muldiv  := pow (('*' | '/') pow)*
 *   pow     := unary ('^' unary)*          (noalloc.c only; parser.h has unary here)
 *   unary   := ('+' | '-')? primary
 *   primary := NUMBER | '(' expr ')'
 */
module Grammar {
  import opened Arith

  datatype AddOp = Add | Sub
  datatype MulOp = Mul | Div

  datatype Primary = Number(n: nat) | Group(inner: Expr)
  datatype Unary = Bare(p: Primary) | Plus(p: Primary) | Minus(p: Primary)
  datatype Factor = Base(u: Unary) | Raise(base: Factor, exponent: Unary)
  datatype Term = Single(f: Factor) | Scale(left: Term, mulOp: MulOp, right: Factor)
  datatype Expr = Leaf(t: Term) | Combine(left: Expr, addOp: AddOp, right: Term)

  /**
   * A value and whether it is defined. Division by zero is undefined: it yields 0 and
   * makes every enclosing outcome undefined.
   */
  datatype Outcome = Outcome(value: int, ok: bool)

  function ApplyAdd(l: Outcome, op: AddOp, r: Outcome): Outcome {
    Outcome(if op == Add then l.value + r.value else l.value - r.value, l.ok && r.ok)
  }

  function ApplyMul(l: Outcome, op: MulOp, r: Outcome): Outcome {
    if op == Mul then Outcome(l.value * r.value, l.ok && r.ok)
    else if r.value == 0 then Outcome(0, false)
    else Outcome(TruncDiv(l.value, r.value), l.ok && r.ok)
  }

  function EvalPrimary(p: Primary): Outcome
    decreases p
  {
    match p
    case Number(n) => Outcome(n, true)
    case Group(e) => EvalExpr(e)
  }

  function EvalUnary(u: Unary): Outcome
    decreases u
  {
    match u
    case Bare(p) => EvalPrimary(p)
    case Plus(p) => EvalPrimary(p)
    case Minus(p) => var o := EvalPrimary(p); Outcome(-o.value, o.ok)
  }

  function EvalFactor(f: Factor): Outcome
    decreases f
  {
    match f
    case Base(u) => EvalUnary(u)
    case Raise(b, x) =>
      var l, r := EvalFactor(b), EvalUnary(x);
      Outcome(Pow(l.value, r.value), l.ok && r.ok)
  }

  function EvalTerm(t: Term): Outcome
    decreases t
  {
    match t
    case Single(f) => EvalFactor(f)
    case Scale(l, op, r) => ApplyMul(EvalTerm(l), op, EvalFactor(r))
  }

  function EvalExpr(e: Expr): Outcome
    decreases e
  {
    match e
    case Leaf(t) => EvalTerm(t)
    case Combine(l, op, r) => ApplyAdd(EvalExpr(l), op, EvalTerm(r))
  }

  /** The expressions parser.h can read: no `^` anywhere. */
  predicate PowFreePrimary(p: Primary)
    decreases p
  {
    match p
    case Number(_) => true
    case Group(e) => PowFreeExpr(e)
  }

  predicate PowFreeTerm(t: Term)
    decreases t
  {
    match t
    case Single(f) => f.Base? && PowFreePrimary(f.u.p)
    case Scale(l, _, r) => PowFreeTerm(l) && r.Base? && PowFreePrimary(r.u.p)
  }

  predicate PowFreeExpr(e: Expr)
    decreases e
  {
    match e
    case Leaf(t) => PowFreeTerm(t)
    case Combine(l, _, r) => PowFreeExpr(l) && PowFreeTerm(r)
  }
}
