/** Order-preserving de-duplication, as `bing_site_search` does it with a
    `seen` set (scraper.py:105-111). */
module Unique {
  import opened Seqs

  /** The first occurrence of each element, in the order of first occurrence:
      an element is appended when it has not been seen before. */
  function Dedup<T(==,!new)>(xs: seq<T>): (r: seq<T>)
    ensures NoDup(r)
    ensures forall x :: x in r <==> x in xs
    ensures |r| <= |xs|
  {
    if xs == [] then []
    else
      var seen := Dedup(xs[..|xs| - 1]);
      var x := xs[|xs| - 1];
      assert xs == xs[..|xs| - 1] + [x];
      if x in seen then seen else seen + [x]
  }

  /** `a` and `b` hold the same elements, perhaps with different repetitions. */
  ghost predicate SameElements<T(!new)>(a: seq<T>, b: seq<T>)
  {
    forall y :: y in a <==> y in b
  }

  /** `a` first occurs in `xs` before `b` does. */
  ghost predicate FirstsBefore<T(!new)>(xs: seq<T>, a: T, b: T)
  {
    a in xs && b in xs && FirstIndex(xs, a) < FirstIndex(xs, b)
  }

  /** The elements of `r` appear in the order of their first occurrence in `xs`. */
  ghost predicate FirstOrdered<T(!new)>(xs: seq<T>, r: seq<T>)
  {
    forall i, j :: 0 <= i < j < |r| ==> FirstsBefore(xs, r[i], r[j])
  }

  /** `Dedup` lists the distinct elements in the order they first occur. */
  lemma {:induction false} DedupFirstOrdered<T(!new)>(xs: seq<T>)
    ensures FirstOrdered(xs, Dedup(xs))
    decreases |xs|
  {
    if xs != [] {
      var init := xs[..|xs| - 1];
      var x := xs[|xs| - 1];
      assert xs == init + [x];
      DedupFirstOrdered(init);
      var d := Dedup(init);
      forall y | y in d ensures FirstIndex(xs, y) == FirstIndex(init, y) {
        FirstIndexAppend(init, x, y);
      }
      if x !in d {
        assert FirstIndex(xs, x) == |init|;
      }
    }
  }

  /** Dropping the last element of `xs` moves no first occurrence of the others. */
  lemma FirstOrderedInit<T(!new)>(xs: seq<T>, r: seq<T>)
    requires xs != []
    requires forall y :: y in r ==> y in xs[..|xs| - 1]
    requires FirstOrdered(xs, r)
    ensures FirstOrdered(xs[..|xs| - 1], r)
  {
    var init := xs[..|xs| - 1];
    assert xs == init + [xs[|xs| - 1]];
    forall i, j | 0 <= i < j < |r|
      ensures FirstsBefore(init, r[i], r[j])
    {
      assert r[i] in r && r[j] in r;
      assert FirstsBefore(xs, r[i], r[j]);
      FirstIndexAppend(init, xs[|xs| - 1], r[i]);
      FirstIndexAppend(init, xs[|xs| - 1], r[j]);
    }
  }

  /** A new last element of `xs` has the latest first occurrence, so in a
      first-ordered listing it comes last. */
  lemma NewcomerLast<T(!new)>(xs: seq<T>, r: seq<T>)
    requires xs != [] && xs[|xs| - 1] !in xs[..|xs| - 1]
    requires NoDup(r) && xs[|xs| - 1] in r
    requires forall y :: y in r ==> y in xs
    requires FirstOrdered(xs, r)
    ensures r[|r| - 1] == xs[|xs| - 1]
  {
    var x := xs[|xs| - 1];
    assert FirstIndex(xs, x) == |xs| - 1;
    var p :| 0 <= p < |r| && r[p] == x;
  }

  /** Without a newcomer at its end, a first-ordered listing of `xs` is a
      first-ordered listing of the rest of `xs`. */
  lemma DropNewcomer<T(!new)>(xs: seq<T>, r: seq<T>)
    requires xs != [] && xs[|xs| - 1] !in xs[..|xs| - 1]
    requires NoDup(r)
    requires SameElements(r, xs)
    requires FirstOrdered(xs, r)
    ensures r != [] && r[|r| - 1] == xs[|xs| - 1]
    ensures NoDup(r[..|r| - 1])
    ensures SameElements(r[..|r| - 1], xs[..|xs| - 1])
    ensures FirstOrdered(xs[..|xs| - 1], r[..|r| - 1])
  {
    var init := xs[..|xs| - 1];
    var x := xs[|xs| - 1];
    assert xs == init + [x];
    NewcomerLast(xs, r);
    var front := r[..|r| - 1];
    assert r == front + [x];
    assert NoDup(front) by {
      forall i, j | 0 <= i < j < |front| ensures front[i] != front[j] {
        assert front[i] == r[i] && front[j] == r[j];
      }
    }
    forall y ensures y in front <==> y in init {
      if y in front {
        var p :| 0 <= p < |front| && front[p] == y;
        assert r[p] == y;
      }
      if y in init {
        assert y in r && y != x;
        var p :| 0 <= p < |r| && r[p] == y;
        assert p < |r| - 1 && front[p] == y;
      }
    }
    assert FirstOrdered(xs, front) by {
      forall i, j | 0 <= i < j < |front| ensures FirstsBefore(xs, front[i], front[j]) {
        assert r[i] == front[i] && r[j] == front[j];
      }
    }
    FirstOrderedInit(xs, front);
  }

  /** Conversely, a duplicate-free listing of the same elements in order of
      first occurrence can only be `Dedup`'s result. */
  lemma {:induction false} DedupUnique<T(!new)>(xs: seq<T>, r: seq<T>)
    requires NoDup(r)
    requires SameElements(r, xs)
    requires FirstOrdered(xs, r)
    ensures r == Dedup(xs)
    decreases |xs|
  {
    if xs == [] {
      HeadIn(r);
    } else {
      var init := xs[..|xs| - 1];
      var x := xs[|xs| - 1];
      assert xs == init + [x];
      if x in init {
        assert SameElements(r, init);
        FirstOrderedInit(xs, r);
        DedupUnique(init, r);
        assert x in Dedup(init);
        assert Dedup(xs) == Dedup(init);
      } else {
        DropNewcomer(xs, r);
        DedupUnique(init, r[..|r| - 1]);
        assert x !in Dedup(init);
        assert Dedup(xs) == Dedup(init) + [x];
        assert r == r[..|r| - 1] + [x];
      }
    }
  }

  /** De-duplicating changes nothing exactly when there is nothing to remove. */
  lemma {:induction false} DedupIdentity<T(!new)>(xs: seq<T>)
    ensures Dedup(xs) == xs <==> NoDup(xs)
    decreases |xs|
  {
    if xs != [] && NoDup(xs) {
      var init := xs[..|xs| - 1];
      assert NoDup(init) by {
        forall i, j | 0 <= i < j < |init| ensures init[i] != init[j] {
          assert init[i] == xs[i] && init[j] == xs[j];
        }
      }
      DedupIdentity(init);
      assert xs[|xs| - 1] !in init;
      assert xs == init + [xs[|xs| - 1]];
    }
  }
}
