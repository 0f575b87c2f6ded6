/** Where a sequence sits inside a longer one: the layout facts both parser proofs use. */
module Spans {
  /**
   * `part` sits in `whole` at position `k`, stated element by element so that the solver
   * unfolds it only as far as a proof asks.
   */
  predicate At<T(==)>(whole: seq<T>, k: nat, part: seq<T>): (b: bool)
    ensures b ==> k + |part| <= |whole|
    decreases |part|
  {
    if part == [] then k <= |whole| else k < |whole| && whole[k] == part[0] && At(whole, k + 1, part[1..])
  }

  /** The two halves of a concatenation sit one after the other. */
  lemma {:induction false} AtConcat<T>(whole: seq<T>, k: nat, a: seq<T>, b: seq<T>)
    requires At(whole, k, a + b)
    ensures At(whole, k, a) && At(whole, k + |a|, b)
    decreases |a|
  {
    if a == [] {
      assert a + b == b;
    } else {
      assert (a + b)[0] == a[0] && (a + b)[1..] == a[1..] + b;
      AtConcat(whole, k + 1, a[1..], b);
    }
  }

  lemma AtSingle<T>(whole: seq<T>, k: nat, x: T)
    requires At(whole, k, [x])
    ensures k < |whole| && whole[k] == x
  {
  }

  /** A sequence sits at the start of any slice it equals. */
  lemma {:induction false} AtPrefix<T>(whole: seq<T>, k: nat, part: seq<T>)
    requires k + |part| <= |whole| && whole[k..k + |part|] == part
    ensures At(whole, k, part)
    decreases |part|
  {
    if part != [] {
      assert whole[k] == part[0];
      assert whole[k + 1..k + |part|] == part[1..];
      AtPrefix(whole, k + 1, part[1..]);
    }
  }
}
