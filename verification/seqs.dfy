/** Sequence facts shared by the model: duplicates, prefixes, Python slices and
    first positions. */
module Seqs {

  /** No element occurs twice in `xs`. */
  predicate NoDup<T(==)>(xs: seq<T>)
  {
    forall i, j :: 0 <= i < j < |xs| ==> xs[i] != xs[j]
  }

  /** At most the first `n` elements of `xs`, and none when `n <= 0`. */
  function Prefix<T>(xs: seq<T>, n: int): (r: seq<T>)
    ensures r <= xs
    ensures n <= 0 ==> r == []
    ensures 0 <= n <= |xs| ==> |r| == n
    ensures n >= |xs| ==> r == xs
  {
    if n <= 0 then [] else if n < |xs| then xs[..n] else xs
  }

  /** Python's `xs[:n]`, where a negative `n` counts from the end. */
  function SliceTo<T>(xs: seq<T>, n: int): (r: seq<T>)
    ensures r <= xs
    ensures n >= |xs| ==> r == xs
    ensures 0 <= n <= |xs| ==> |r| == n
    ensures n < 0 ==> |r| == if |xs| + n < 0 then 0 else |xs| + n
  {
    if n >= 0 then Prefix(xs, n) else if |xs| + n < 0 then [] else xs[..|xs| + n]
  }

  /** Cutting `b` to fit before cutting the whole is the same as cutting the whole. */
  lemma PrefixOfAppend<T>(a: seq<T>, b: seq<T>, c: seq<T>, n: int)
    requires |a| < n
    ensures Prefix(a + Prefix(b, n - |a|) + c, n) == Prefix(a + b + c, n)
  {
    if |b| >= n - |a| {
      assert (a + b + c)[..n] == a + b[..n - |a|];
    }
  }

  /** A sequence already cut to `n` and at least `n` long absorbs whatever
      follows it. */
  lemma PrefixFull<T>(a: seq<T>, b: seq<T>, n: int)
    requires Prefix(a, n) == a && |a| >= n
    ensures Prefix(a + b, n) == a
  {
    if n > 0 {
      assert (a + b)[..n] == a;
    }
  }

  /** A prefix of `b` that is `n` long is what cutting `b` to `n` gives. */
  lemma PrefixExact<T>(a: seq<T>, b: seq<T>, n: int)
    requires a <= b && |a| == n
    ensures Prefix(b, n) == a
  {
  }

  /** A non-empty sequence holds its first element. */
  lemma HeadIn<T>(xs: seq<T>)
    ensures xs != [] ==> xs[0] in xs
  {
  }

  /** Position of the first occurrence of `x` in `xs`. */
  function FirstIndex<T(==)>(xs: seq<T>, x: T): (i: nat)
    requires x in xs
    ensures i < |xs| && xs[i] == x
    ensures x !in xs[..i]
  {
    if xs[0] == x then 0 else 1 + FirstIndex(xs[1..], x)
  }

  /** Appending an element does not move the first occurrence of one already present. */
  lemma {:induction false} FirstIndexAppend<T>(xs: seq<T>, y: T, x: T)
    requires x in xs
    ensures FirstIndex(xs + [y], x) == FirstIndex(xs, x)
  {
    if xs[0] != x {
      assert (xs + [y])[1..] == xs[1..] + [y];
      FirstIndexAppend(xs[1..], y, x);
    }
  }
}
