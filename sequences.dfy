/**
 * Order-preserving selections from a list: what a list comprehension with
 * a condition, or a chain of data-frame filters, yields.
 */
module Sequences {

  /** `a` is `b` with some elements left out, the rest kept in order. */
  predicate Subsequence<T(==)>(a: seq<T>, b: seq<T>)
    decreases |b|
  {
    if a == [] then true
    else if b == [] then false
    else if a[|a| - 1] == b[|b| - 1] then Subsequence(a[..|a| - 1], b[..|b| - 1])
    else Subsequence(a, b[..|b| - 1])
  }

  /** A longer list still has every subsequence it had. */
  lemma {:induction false} SubsequenceExtend<T>(a: seq<T>, b: seq<T>, x: T)
    requires Subsequence(a, b)
    ensures Subsequence(a, b + [x])
    decreases |b|, 1
  {
    if a != [] {
      var b' := b + [x];
      assert b'[..|b'| - 1] == b;
      if a[|a| - 1] == x {
        SubsequenceDrop(a, b);
      }
    }
  }

  /** Leaving out the last element of a subsequence gives a subsequence. */
  lemma {:induction false} SubsequenceDrop<T>(a: seq<T>, b: seq<T>)
    requires a != [] && Subsequence(a, b)
    ensures Subsequence(a[..|a| - 1], b)
    decreases |b|, 0
  {
    assert b[..|b| - 1] + [b[|b| - 1]] == b;
    if a[|a| - 1] == b[|b| - 1] {
      SubsequenceExtend(a[..|a| - 1], b[..|b| - 1], b[|b| - 1]);
    } else {
      SubsequenceDrop(a, b[..|b| - 1]);
      SubsequenceExtend(a[..|a| - 1], b[..|b| - 1], b[|b| - 1]);
    }
  }

  /** `[x for x in xs if p(x)]` */
  function Where<T>(xs: seq<T>, p: T -> bool): seq<T> {
    if xs == [] then []
    else
      var init := Where(xs[..|xs| - 1], p);
      if p(xs[|xs| - 1]) then init + [xs[|xs| - 1]] else init
  }

  /** The selection keeps exactly the elements satisfying `p`, in their order. */
  lemma {:induction false} WhereSpec<T>(xs: seq<T>, p: T -> bool)
    ensures Subsequence(Where(xs, p), xs)
    ensures forall x :: x in Where(xs, p) <==> x in xs && p(x)
  {
    if xs != [] {
      var init := xs[..|xs| - 1];
      var last := xs[|xs| - 1];
      WhereSpec(init, p);
      assert xs == init + [last];
      var w := Where(init, p);
      if p(last) {
        assert (w + [last])[..|w + [last]| - 1] == w;
        assert Subsequence(w + [last], init + [last]);
      } else {
        SubsequenceExtend(w, init, last);
      }
    }
  }

  /** Two filters one after the other select what their conjunction `pq` selects. */
  lemma {:induction false} WhereWhere<T>(xs: seq<T>, p: T -> bool, q: T -> bool, pq: T -> bool)
    requires forall x :: pq(x) == (p(x) && q(x))
    ensures Where(Where(xs, p), q) == Where(xs, pq)
  {
    if xs != [] {
      var init := xs[..|xs| - 1];
      var last := xs[|xs| - 1];
      WhereWhere(init, p, q, pq);
      var w := Where(init, p);
      if p(last) {
        assert (w + [last])[..|w + [last]| - 1] == w;
      }
    }
  }

  /** A filter that holds everywhere keeps the list. */
  lemma {:induction false} WhereAll<T>(xs: seq<T>, p: T -> bool)
    requires forall k :: 0 <= k < |xs| ==> p(xs[k])
    ensures Where(xs, p) == xs
  {
    if xs != [] {
      WhereAll(xs[..|xs| - 1], p);
      assert xs[..|xs| - 1] + [xs[|xs| - 1]] == xs;
    }
  }

  /** Selections by conditions that agree on every element are equal. */
  lemma {:induction false} WhereSame<T>(xs: seq<T>, p: T -> bool, q: T -> bool)
    requires forall x :: p(x) == q(x)
    ensures Where(xs, p) == Where(xs, q)
  {
    if xs != [] {
      WhereSame(xs[..|xs| - 1], p, q);
    }
  }
}
