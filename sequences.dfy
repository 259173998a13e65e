/** `Array.prototype.filter` on sequences, with the facts the roster views
    rely on: it keeps exactly the elements that satisfy the predicate, in
    their original order, and a filter and its complement together form a
    permutation of the input. */
module Sequences {
  import opened Wrappers

  function Filter<T>(xs: seq<T>, p: T -> bool): (r: seq<T>)
    ensures |r| <= |xs|
  {
    if xs == [] then []
    else Filter(xs[..|xs| - 1], p) + (if p(xs[|xs| - 1]) then [xs[|xs| - 1]] else [])
  }

  /** Filtering a concatenation filters each part, in order. */
  lemma {:induction false} FilterAppend<T>(xs: seq<T>, ys: seq<T>, p: T -> bool)
    ensures Filter(xs + ys, p) == Filter(xs, p) + Filter(ys, p)
  {
    if ys != [] {
      var init := ys[..|ys| - 1];
      assert (xs + ys)[..|xs + ys| - 1] == xs + init;
      FilterAppend(xs, init, p);
    } else {
      assert xs + ys == xs;
    }
  }

  /** An element is kept exactly when it occurs in the input and satisfies `p`. */
  lemma {:induction false} FilterMembers<T>(xs: seq<T>, p: T -> bool, x: T)
    ensures x in Filter(xs, p) <==> x in xs && p(x)
  {
    if xs != [] {
      var init := xs[..|xs| - 1];
      FilterMembers(init, p, x);
      assert xs == init + [xs[|xs| - 1]];
    }
  }

  /** Everything `Filter` returns satisfies `p`. */
  lemma FilterAll<T>(xs: seq<T>, p: T -> bool)
    ensures forall i :: 0 <= i < |Filter(xs, p)| ==> p(Filter(xs, p)[i])
  {
    forall i | 0 <= i < |Filter(xs, p)|
      ensures p(Filter(xs, p)[i])
    {
      FilterMembers(xs, p, Filter(xs, p)[i]);
    }
  }

  /** Filtering with `p` and with its negation splits the input: the two
      results together are a permutation of it. */
  lemma {:induction false} FilterPartition<T>(xs: seq<T>, p: T -> bool, q: T -> bool)
    requires forall x :: q(x) == !p(x)
    ensures multiset(Filter(xs, p)) + multiset(Filter(xs, q)) == multiset(xs)
  {
    if xs != [] {
      var init := xs[..|xs| - 1];
      FilterPartition(init, p, q);
      assert xs == init + [xs[|xs| - 1]];
    }
  }

  /** Nothing is kept exactly when no element satisfies `p`. */
  lemma FilterEmpty<T>(xs: seq<T>, p: T -> bool)
    ensures Filter(xs, p) == [] <==> forall i :: 0 <= i < |xs| ==> !p(xs[i])
  {
    if Filter(xs, p) != [] {
      FilterMembers(xs, p, Filter(xs, p)[0]);
    }
    forall i | 0 <= i < |xs| && p(xs[i])
      ensures Filter(xs, p) != []
    {
      FilterMembers(xs, p, xs[i]);
    }
  }

  /** Everything is kept exactly when every element satisfies `p`. */
  lemma {:induction false} FilterKeepsAll<T>(xs: seq<T>, p: T -> bool)
    ensures Filter(xs, p) == xs <==> forall i :: 0 <= i < |xs| ==> p(xs[i])
  {
    if xs != [] {
      var init := xs[..|xs| - 1];
      FilterKeepsAll(init, p);
      assert xs == init + [xs[|xs| - 1]];
      if !p(xs[|xs| - 1]) {
        assert |Filter(xs, p)| < |xs|;
      } else if Filter(xs, p) == xs {
        assert Filter(init, p) == init;
      }
    }
  }

  // ---------------------------------------------------------------------
  // Keeping the values of an Option-valued classifier: `xs.map(f)` with
  // the failures dropped, the companion of `Filter(xs, x => f(x).None?)`.

  function Values<T, U>(xs: seq<T>, f: T -> Option<U>): (r: seq<U>)
    ensures |r| <= |xs|
  {
    if xs == [] then []
    else
      var last := f(xs[|xs| - 1]);
      Values(xs[..|xs| - 1], f) + (if last.Some? then [last.value] else [])
  }

  lemma {:induction false} ValuesAppend<T, U>(xs: seq<T>, ys: seq<T>, f: T -> Option<U>)
    ensures Values(xs + ys, f) == Values(xs, f) + Values(ys, f)
  {
    if ys == [] {
      assert xs + ys == xs;
    } else {
      var init := ys[..|ys| - 1];
      assert (xs + ys)[..|xs + ys| - 1] == xs + init;
      ValuesAppend(xs, init, f);
    }
  }

  /** A value is kept exactly when some element is classified as it. */
  lemma {:induction false} ValuesMembers<T, U>(xs: seq<T>, f: T -> Option<U>, v: U)
    ensures v in Values(xs, f) <==> exists k :: 0 <= k < |xs| && f(xs[k]) == Some(v)
  {
    if xs != [] {
      var init := xs[..|xs| - 1];
      ValuesMembers(init, f, v);
      if exists k :: 0 <= k < |xs| && f(xs[k]) == Some(v) {
        var k :| 0 <= k < |xs| && f(xs[k]) == Some(v);
        if k < |init| {
          assert init[k] == xs[k];
        }
      }
      if exists k :: 0 <= k < |init| && f(init[k]) == Some(v) {
        var k :| 0 <= k < |init| && f(init[k]) == Some(v);
        assert xs[k] == init[k];
      }
    }
  }

  /** The kept values and the rejected elements account for every element
      exactly once. */
  lemma {:induction false} ValuesCount<T, U>(xs: seq<T>, f: T -> Option<U>, rejected: T -> bool)
    requires forall x :: rejected(x) == f(x).None?
    ensures |Values(xs, f)| + |Filter(xs, rejected)| == |xs|
  {
    if xs != [] {
      ValuesCount(xs[..|xs| - 1], f, rejected);
    }
  }

  /** Nothing is kept exactly when every element is rejected. */
  lemma {:induction false} ValuesEmpty<T, U>(xs: seq<T>, f: T -> Option<U>)
    ensures Values(xs, f) == [] <==> forall k :: 0 <= k < |xs| ==> f(xs[k]).None?
  {
    if xs != [] {
      var init := xs[..|xs| - 1];
      ValuesEmpty(init, f);
      assert forall k :: 0 <= k < |init| ==> init[k] == xs[k];
    }
  }
}
