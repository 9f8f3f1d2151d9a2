/** Left folds over sequences, the shape of every loop in the route that
    walks a list of records or blocks and updates an accumulator. */
module Folds {

  /** Folds the elements of `s` into `init`, first to last. */
  function FoldLeft<A, B>(f: (A, B) -> A, init: A, s: seq<B>): A
  {
    if s == [] then init else f(FoldLeft(f, init, s[..|s| - 1]), s[|s| - 1])
  }

  /** One more element is one more application of the step. */
  lemma FoldLeftAppend<A, B>(f: (A, B) -> A, init: A, s: seq<B>, x: B)
    ensures FoldLeft(f, init, s + [x]) == f(FoldLeft(f, init, s), x)
  {
    assert (s + [x])[..|s|] == s;
  }

  /** Folding a concatenation folds the second part into the result of the first. */
  lemma {:induction false} FoldLeftConcat<A, B>(f: (A, B) -> A, init: A, s: seq<B>, t: seq<B>)
    ensures FoldLeft(f, init, s + t) == FoldLeft(f, FoldLeft(f, init, s), t)
    decreases |t|
  {
    if t == [] {
      assert s + t == s;
    } else {
      var u := t[..|t| - 1];
      var x := t[|t| - 1];
      assert t == u + [x];
      assert s + t == (s + u) + [x];
      FoldLeftConcat(f, init, s, u);
      FoldLeftAppend(f, init, s + u, x);
      FoldLeftAppend(f, FoldLeft(f, init, s), u, x);
    }
  }

  /** Folding a sequence that starts with `x` starts by applying the step to `x`. */
  lemma FoldLeftCons<A, B>(f: (A, B) -> A, init: A, x: B, t: seq<B>)
    ensures FoldLeft(f, init, [x] + t) == FoldLeft(f, f(init, x), t)
  {
    FoldLeftConcat(f, init, [x], t);
    FoldLeftAppend(f, init, [], x);
    assert [] + [x] == [x];
  }

  /** A loop that has folded the first `k` elements and applies the step to
      the next one has folded the first `k + 1`. */
  lemma FoldLeftPrefix<A, B>(f: (A, B) -> A, init: A, s: seq<B>, k: nat, acc: A)
    requires k < |s| && acc == FoldLeft(f, init, s[..k])
    ensures f(acc, s[k]) == FoldLeft(f, init, s[..k + 1])
  {
    assert s[..k + 1] == s[..k] + [s[k]];
    FoldLeftAppend(f, init, s[..k], s[k]);
  }
}
