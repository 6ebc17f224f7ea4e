/** Folds over a sequence, and what an operation on their states carries over. */
module Folds {

  function Fold<S, B>(f: (S, B) -> S, x: seq<B>, v: S): S
    decreases |x|
  {
    if x == [] then v else Fold(f, x[1..], f(v, x[0]))
  }

  lemma {:induction false} FoldConcat<S, B>(f: (S, B) -> S, x: seq<B>, y: seq<B>, v: S)
    ensures Fold(f, x + y, v) == Fold(f, y, Fold(f, x, v))
    decreases |x|
  {
    if x == [] {
      assert x + y == y;
    } else {
      assert (x + y)[1..] == x[1..] + y;
      FoldConcat(f, x[1..], y, f(v, x[0]));
    }
  }

  ghost predicate Linear<S(!new), B(!new)>(f: (S, B) -> S, op: (S, S) -> S, diff: (B, B) -> B) {
    forall v, w, a, b :: op(f(v, a), f(w, b)) == f(op(v, w), diff(a, b))
  }

  function Zip<B>(diff: (B, B) -> B, x: seq<B>, y: seq<B>): (z: seq<B>)
    requires |x| == |y|
    ensures |z| == |x| && forall i | 0 <= i < |x| :: z[i] == diff(x[i], y[i])
  {
    seq(|x|, i requires 0 <= i < |x| => diff(x[i], y[i]))
  }

  lemma {:induction false} FoldLinear<S(!new), B(!new)>(f: (S, B) -> S, op: (S, S) -> S, diff: (B, B) -> B, x: seq<B>, y: seq<B>, v: S, w: S)
    requires |x| == |y| && Linear(f, op, diff)
    ensures op(Fold(f, x, v), Fold(f, y, w)) == Fold(f, Zip(diff, x, y), op(v, w))
    decreases |x|
  {
    if x != [] {
      FoldLinear(f, op, diff, x[1..], y[1..], f(v, x[0]), f(w, y[0]));
      assert Zip(diff, x, y)[1..] == Zip(diff, x[1..], y[1..]);
    }
  }

  function Repeat<B>(b: B, n: nat): (x: seq<B>)
    ensures |x| == n && forall i | 0 <= i < n :: x[i] == b
  {
    seq(n, _ => b)
  }

  /** What n times the same input does. */
  function Iterate<S, B>(f: (S, B) -> S, b: B, v: S, n: nat): S {
    Fold(f, Repeat(b, n), v)
  }

  lemma IterateStep<S, B>(f: (S, B) -> S, b: B, v: S, n: nat)
    requires n > 0
    ensures Iterate(f, b, v, n) == Iterate(f, b, f(v, b), n - 1)
  {
    assert Repeat(b, n)[1..] == Repeat(b, n - 1);
  }

  lemma IterateLast<S, B>(f: (S, B) -> S, b: B, v: S, n: nat)
    ensures Iterate(f, b, v, n + 1) == f(Iterate(f, b, v, n), b)
  {
    assert Repeat(b, n + 1) == Repeat(b, n) + [b];
    FoldConcat(f, Repeat(b, n), [b], v);
    assert [b][1..] == [];
  }

  /** The same inputs into two states: only the states' difference moves on. */
  lemma SameInputs<S(!new), B(!new)>(f: (S, B) -> S, op: (S, S) -> S, diff: (B, B) -> B, none: B, x: seq<B>, v: S, w: S)
    requires Linear(f, op, diff) && forall b :: diff(b, b) == none
    ensures op(Fold(f, x, v), Fold(f, x, w)) == Iterate(f, none, op(v, w), |x|)
  {
    FoldLinear(f, op, diff, x, x, v, w);
    assert Zip(diff, x, x) == Repeat(none, |x|);
  }

  /** If the inputs bring w to zero, they act on v as nothing acts on the difference of v and w. */
  lemma Absorb<S(!new), B(!new)>(f: (S, B) -> S, op: (S, S) -> S, diff: (B, B) -> B, none: B, zero: S, x: seq<B>, v: S, w: S)
    requires Linear(f, op, diff) && (forall b :: diff(b, b) == none) && forall a :: op(a, zero) == a
    requires Fold(f, x, w) == zero
    ensures Fold(f, x, v) == Iterate(f, none, op(v, w), |x|)
  {
    SameInputs(f, op, diff, none, x, v, w);
  }

  ghost predicate Injective<S(!new), B(!new)>(f: (S, B) -> S) {
    forall v, w, b | f(v, b) == f(w, b) :: v == w
  }

  lemma {:induction false} FoldInjective<S(!new), B(!new)>(f: (S, B) -> S, x: seq<B>, v: S, w: S)
    requires Injective(f) && Fold(f, x, v) == Fold(f, x, w)
    ensures v == w
    decreases |x|
  {
    if x != [] {
      FoldInjective(f, x[1..], f(v, x[0]), f(w, x[0]));
    }
  }
}
