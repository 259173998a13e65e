/** The two ordered views of the roster: the passing list of
    `mostrarAprovados` and the ranking of `listarOrdenadoPorMedia`. */
module Ranker {
  import opened Wrappers
  import opened Sequences
  import opened Students
  import opened Aggregator

  const PASS_MARK: real := 7.0

  /** The filter of `mostrarAprovados`: a mean, and at least the pass mark. */
  predicate Passes(e: Entry) {
    e.mean.Some? && e.mean.value >= PASS_MARK
  }

  /** `mostrarAprovados`: the summaries that pass, in roster order; each
      has a mean of at least the pass mark. */
  function Passing(roster: seq<Student>): (r: seq<Entry>)
    ensures |r| <= |roster|
    ensures forall k :: 0 <= k < |r| ==> r[k].mean.Some? && r[k].mean.value >= PASS_MARK
  {
    var r := Filter(Summaries(roster), Passes);
    FilterAll(Summaries(roster), Passes);
    r
  }

  /** A student is listed as passing exactly when their grades have a mean
      of at least 7. */
  lemma PassingMembers(roster: seq<Student>, e: Entry)
    ensures e in Passing(roster) <==>
      exists i :: 0 <= i < |roster| && e == Summary(roster[i])
        && Mean(roster[i].grades).Some? && Mean(roster[i].grades).value >= 7.0
  {
    FilterMembers(Summaries(roster), Passes, e);
    if e in Summaries(roster) {
      var i :| 0 <= i < |Summaries(roster)| && Summaries(roster)[i] == e;
      assert e == Summary(roster[i]);
    }
    if exists i :: 0 <= i < |roster| && e == Summary(roster[i])
        && Mean(roster[i].grades).Some? && Mean(roster[i].grades).value >= 7.0 {
      var i :| 0 <= i < |roster| && e == Summary(roster[i])
        && Mean(roster[i].grades).Some? && Mean(roster[i].grades).value >= 7.0;
      assert Summaries(roster)[i] == e;
    }
  }

  /** The passing list keeps roster order: it is taken part by part. */
  lemma PassingAppend(xs: seq<Student>, ys: seq<Student>)
    ensures Passing(xs + ys) == Passing(xs) + Passing(ys)
  {
    SummariesAppend(xs, ys);
    FilterAppend(Summaries(xs), Summaries(ys), Passes);
  }

  /** The bound is inclusive: a mean of exactly 7 passes, 6.999 does not. */
  lemma PassingBoundary()
    ensures Passing([Student("A", [6.999]), Student("B", [7.0]), Student("C", [8.0])])
         == [Entry("B", Some(7.0)), Entry("C", Some(8.0))]
  {
    var a, b, c := Entry("A", Some(6.999)), Entry("B", Some(7.0)), Entry("C", Some(8.0));
    assert [6.999][..0] == [] && [7.0][..0] == [] && [8.0][..0] == [];
    var roster := [Student("A", [6.999]), Student("B", [7.0]), Student("C", [8.0])];
    assert Summaries(roster) == [a, b, c];
    assert [a, b, c][..2] == [a, b];
    assert [a, b][..1] == [a];
    assert [a][..0] == [];
    assert Filter([a], Passes) == [];
  }

  // ---------------------------------------------------------------------
  // Ranking by mean.

  /** Graded entries in non-increasing order of mean. */
  predicate Descending(xs: seq<Entry>) {
    && AllGraded(xs)
    && forall p, q :: 0 <= p < q < |xs| ==> xs[p].mean.value >= xs[q].mean.value
  }

  /** Exchanges the entries at `j - 1` and `j`. */
  method Swap(a: array<Entry>, j: nat)
    requires 0 < j < a.Length
    modifies a
    ensures a[..] == old(a[..])[j - 1 := old(a[j])][j := old(a[j - 1])]
    ensures multiset(a[..]) == old(multiset(a[..]))
  {
    a[j - 1], a[j] := a[j], a[j - 1];
  }

  /** `t` is `s` with the entry at `i` taken out and put back at `j`, the
      entries from `j` to `i - 1` shifted one place right. */
  ghost predicate Shifted(s: seq<Entry>, t: seq<Entry>, i: nat, j: nat) {
    && |t| == |s| && j <= i < |s|
    && t[j] == s[i]
    && (forall k :: 0 <= k < j ==> t[k] == s[k])
    && (forall k :: j < k <= i ==> t[k] == s[k - 1])
    && (forall k :: i < k < |t| ==> t[k] == s[k])
  }

  /** Swapping the moving entry with its left neighbour moves it one place
      further left. */
  lemma ShiftStep(s: seq<Entry>, t: seq<Entry>, i: nat, j: nat)
    requires Shifted(s, t, i, j) && 0 < j
    ensures Shifted(s, t[j - 1 := t[j]][j := t[j - 1]], i, j - 1)
  {
  }

  /** Moving one entry permutes the sequence. */
  lemma ShiftedPermutes(s: seq<Entry>, t: seq<Entry>, i: nat, j: nat)
    requires Shifted(s, t, i, j)
    ensures multiset(t) == multiset(s)
  {
    assert t == t[..j] + [t[j]] + t[j + 1..i + 1] + t[i + 1..];
    assert s == s[..j] + s[j..i] + [s[i]] + s[i + 1..];
    assert t[..j] == s[..j];
    assert t[j + 1..i + 1] == s[j..i];
    assert t[i + 1..] == s[i + 1..];
  }

  /** Placing `s[i]` at `j`, after every entry with a mean at least as
      large and before the shifted entries with smaller means, extends the
      non-increasing prefix `s[..i]` to `i + 1` entries. */
  lemma ShiftedOrder(s: seq<Entry>, t: seq<Entry>, i: nat, j: nat)
    requires Shifted(s, t, i, j) && AllGraded(s)
    requires forall p, q :: 0 <= p < q < i ==> s[p].mean.value >= s[q].mean.value
    requires forall k :: j <= k < i ==> s[k].mean.value < s[i].mean.value
    requires j > 0 ==> s[j - 1].mean.value >= s[i].mean.value
    ensures AllGraded(t)
    ensures forall p, q :: 0 <= p < q <= i ==> t[p].mean.value >= t[q].mean.value
  {
  }

  /** Moves the entry at `i` left past every strictly smaller mean, so that
      the first `i + 1` entries are in non-increasing order: it comes to
      rest at some `j`, the entries from `j` to `i - 1` (all with smaller
      means) shift one place right, and the rest stay put (`Shifted`). */
  method Insert(a: array<Entry>, i: nat)
    requires i < a.Length
    requires forall k :: 0 <= k < a.Length ==> a[k].mean.Some?
    requires forall p, q :: 0 <= p < q < i ==> a[p].mean.value >= a[q].mean.value
    modifies a
    ensures forall k :: 0 <= k < a.Length ==> a[k].mean.Some?
    ensures forall p, q :: 0 <= p < q <= i ==> a[p].mean.value >= a[q].mean.value
    ensures multiset(a[..]) == old(multiset(a[..]))
    ensures exists j: nat ::
      && Shifted(old(a[..]), a[..], i, j)
      && forall k :: j <= k < i ==> old(a[k]).mean.value < old(a[i]).mean.value
  {
    ghost var s := a[..];
    assert AllGraded(s);
    var j: nat := i;
    while j > 0 && a[j - 1].mean.value < a[j].mean.value
      invariant Shifted(s, a[..], i, j)
      invariant forall k :: j <= k < i ==> s[k].mean.value < s[i].mean.value
    {
      ghost var t := a[..];
      Swap(a, j);
      ShiftStep(s, t, i, j);
      j := j - 1;
    }
    ShiftedOrder(s, a[..], i, j);
    ShiftedPermutes(s, a[..], i, j);
  }

  /** Insertion sort of graded entries by descending mean, in place. Each
      `Insert` moves an entry left only past strictly smaller means; that
      equal means therefore keep their order overall is not stated as a
      contract here. */
  method SortByMean(a: array<Entry>)
    requires AllGraded(a[..])
    modifies a
    ensures Descending(a[..])
    ensures multiset(a[..]) == old(multiset(a[..]))
  {
    var i := 0;
    while i < a.Length
      invariant 0 <= i <= a.Length
      invariant forall k :: 0 <= k < a.Length ==> a[k].mean.Some?
      invariant forall p, q :: 0 <= p < q < i ==> a[p].mean.value >= a[q].mean.value
      invariant multiset(a[..]) == old(multiset(a[..]))
    {
      Insert(a, i);
      i := i + 1;
    }
  }

  /** What `listarOrdenadoPorMedia` lists: a permutation of the summaries
      of the roster in which every graded entry comes before every ungraded
      one, the graded ones are in non-increasing order of mean, and the
      ungraded ones keep roster order. */
  predicate IsRanking(roster: seq<Student>, ranked: seq<Entry>) {
    var ungraded := Filter(Summaries(roster), Ungraded);
    && |ranked| == |roster|
    && multiset(ranked) == multiset(Summaries(roster))
    && (forall p, q :: 0 <= p < q < |ranked| && ranked[q].mean.Some? ==> ranked[p].mean.Some?)
    && (forall p, q :: 0 <= p < q < |ranked| && ranked[p].mean.Some? && ranked[q].mean.Some? ==>
          ranked[p].mean.value >= ranked[q].mean.value)
    && |ungraded| <= |ranked|
    && ranked[|ranked| - |ungraded|..] == ungraded
  }

  /** The graded entries in non-increasing order of mean, followed by the
      ungraded entries in roster order, form a ranking. */
  lemma RankingOfParts(roster: seq<Student>, sorted: seq<Entry>)
    requires Descending(sorted)
    requires multiset(sorted) == multiset(Filter(Summaries(roster), Graded))
    ensures IsRanking(roster, sorted + Filter(Summaries(roster), Ungraded))
  {
    var entries := Summaries(roster);
    var ungraded := Filter(entries, Ungraded);
    var ranked := sorted + ungraded;
    FilterAll(entries, Ungraded);
    FilterPartition(entries, Graded, Ungraded);
    assert multiset(ranked) == multiset(entries);
    assert |ranked| == |multiset(ranked)| == |multiset(entries)| == |roster|;
    assert ranked[|ranked| - |ungraded|..] == ungraded;
    forall p, q | 0 <= p < q < |ranked| && ranked[q].mean.Some?
      ensures ranked[p].mean.Some?
    {
      assert q < |sorted|;
    }
  }

  /** `listarOrdenadoPorMedia`: the summaries of a copy of the roster, the
      graded ones sorted by descending mean, then the ungraded ones. The
      roster is a value, so the caller's roster cannot change. */
  method Rank(roster: seq<Student>) returns (ranked: seq<Entry>)
    ensures IsRanking(roster, ranked)
  {
    var entries := Summaries(roster);
    var graded := Filter(entries, Graded);
    FilterAll(entries, Graded);
    var a := new Entry[|graded|](k requires 0 <= k < |graded| => graded[k]);
    assert a[..] == graded;
    SortByMean(a);
    RankingOfParts(roster, a[..]);
    ranked := a[..] + Filter(entries, Ungraded);
  }

  /** The summaries of the example roster of `RankingExample`, and the
      ungraded ones among them. */
  lemma RankingExampleSummaries()
    ensures Summaries([Student("A", [5.0]), Student("B", []), Student("C", [9.0])])
         == [Entry("A", Some(5.0)), Entry("B", None), Entry("C", Some(9.0))]
    ensures Filter([Entry("A", Some(5.0)), Entry("B", None), Entry("C", Some(9.0))], Ungraded)
         == [Entry("B", None)]
  {
    var a, b, c := Entry("A", Some(5.0)), Entry("B", None), Entry("C", Some(9.0));
    assert [5.0][..0] == [] && [9.0][..0] == [];
    assert [a, b, c][..2] == [a, b];
    assert [a, b][..1] == [a];
    assert [a][..0] == [];
    assert Filter([a], Ungraded) == [];
    assert Filter([a, b], Ungraded) == [b];
  }

  /** A mean of 5, no grades and a mean of 9 rank as 9, 5, then the student
      without grades. */
  lemma RankingExample(roster: seq<Student>, ranked: seq<Entry>)
    requires roster == [Student("A", [5.0]), Student("B", []), Student("C", [9.0])]
    requires IsRanking(roster, ranked)
    ensures ranked == [Entry("C", Some(9.0)), Entry("A", Some(5.0)), Entry("B", None)]
  {
    var a, b, c := Entry("A", Some(5.0)), Entry("B", None), Entry("C", Some(9.0));
    RankingExampleSummaries();
    assert |ranked| == 3 && ranked[2..] == [b];
    var r0, r1 := ranked[0], ranked[1];
    assert ranked == [r0, r1, b];
    assert multiset{r0, r1} + multiset{b} == multiset{a, c} + multiset{b};
    assert multiset{r0, r1} == multiset{a, c};
    assert r0 == c by {
      assert r0 in multiset{a, c} && r1 in multiset{a, c};
    }
    assert r1 == a by {
      assert r1 in multiset{a, c} - multiset{r0};
    }
  }
}
