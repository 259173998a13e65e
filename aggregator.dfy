/** `calcularMedia` and the class statistics of `exibirEstatisticas`: the
    per-student mean, `null` when there are no grades, and the mean of the
    per-student means with the best and the worst student. */
module Aggregator {
  import opened Wrappers
  import opened Sequences
  import opened Students

  /** `notas.reduce((acc, nota) => acc + nota, 0)`, folding from the left. */
  function Sum(s: seq<real>): real {
    if s == [] then 0.0 else Sum(s[..|s| - 1]) + s[|s| - 1]
  }

  /** Folding from the left gives the same sum as folding from the right. */
  lemma {:induction false} SumFromFront(s: seq<real>)
    requires s != []
    ensures Sum(s) == s[0] + Sum(s[1..])
  {
    if |s| > 1 {
      var init := s[..|s| - 1];
      SumFromFront(init);
      assert init[1..] == s[1..][..|s| - 2];
    }
  }

  /** `calcularMedia`: `None` for no grades, otherwise sum over count. */
  function Mean(s: seq<real>): (r: Option<real>)
    ensures r.None? <==> s == []
  {
    if s == [] then None else Some(Sum(s) / |s| as real)
  }

  /** A sum of values within [lo, hi] lies within count times each bound. */
  lemma {:induction false} SumBounds(s: seq<real>, lo: real, hi: real)
    requires forall i :: 0 <= i < |s| ==> lo <= s[i] <= hi
    ensures lo * |s| as real <= Sum(s) <= hi * |s| as real
  {
    if s != [] {
      var init := s[..|s| - 1];
      SumBounds(init, lo, hi);
      assert lo * |s| as real == lo * |init| as real + lo;
      assert hi * |s| as real == hi * |init| as real + hi;
    }
  }

  /** A mean of values within [lo, hi] lies within [lo, hi]. */
  lemma MeanBounds(s: seq<real>, lo: real, hi: real)
    requires s != []
    requires forall i :: 0 <= i < |s| ==> lo <= s[i] <= hi
    ensures lo <= Mean(s).value <= hi
  {
    SumBounds(s, lo, hi);
    var n := |s| as real;
    assert Sum(s) / n * n == Sum(s);
  }

  /** The position of a smallest grade. */
  function MinIndex(s: seq<real>): (k: nat)
    requires s != []
    ensures k < |s| && forall i :: 0 <= i < |s| ==> s[k] <= s[i]
  {
    if |s| == 1 then 0
    else
      var k := MinIndex(s[1..]) + 1;
      if s[0] <= s[k] then 0 else k
  }

  /** The position of a largest grade. */
  function MaxIndex(s: seq<real>): (k: nat)
    requires s != []
    ensures k < |s| && forall i :: 0 <= i < |s| ==> s[i] <= s[k]
  {
    if |s| == 1 then 0
    else
      var k := MaxIndex(s[1..]) + 1;
      if s[0] >= s[k] then 0 else k
  }

  /** The mean lies between the smallest and the largest grade. */
  lemma MeanBetweenGrades(s: seq<real>)
    requires s != []
    ensures s[MinIndex(s)] <= Mean(s).value <= s[MaxIndex(s)]
  {
    MeanBounds(s, s[MinIndex(s)], s[MaxIndex(s)]);
  }

  /** Grades within [0, 10] give a mean within [0, 10]. */
  lemma MeanInRange(s: seq<real>)
    requires forall i :: 0 <= i < |s| ==> InRange(s[i])
    ensures Mean(s).Some? ==> InRange(Mean(s).value)
  {
    if s != [] {
      MeanBounds(s, 0.0, 10.0);
    }
  }

  lemma MeanExample()
    ensures Mean([6.0, 8.0, 10.0]) == Some(8.0)
  {
    assert [6.0, 8.0, 10.0][..2] == [6.0, 8.0];
    assert [6.0, 8.0][..1] == [6.0];
    assert [6.0][..0] == [];
  }

  // ---------------------------------------------------------------------
  // The `{nome, media}` view of the roster.

  datatype Entry = Entry(name: string, mean: Option<real>)

  function Summary(st: Student): Entry {
    Entry(st.name, Mean(st.grades))
  }

  /** `alunos.map(aluno => ({nome: aluno.nome, media: calcularMedia(aluno)}))`. */
  function Summaries(roster: seq<Student>): (r: seq<Entry>)
    ensures |r| == |roster|
    ensures forall i :: 0 <= i < |r| ==>
      r[i].name == roster[i].name && (r[i].mean.None? <==> roster[i].grades == [])
  {
    seq(|roster|, i requires 0 <= i < |roster| => Summary(roster[i]))
  }

  lemma SummariesAppend(xs: seq<Student>, ys: seq<Student>)
    ensures Summaries(xs + ys) == Summaries(xs) + Summaries(ys)
  {
  }

  predicate Graded(e: Entry) {
    e.mean.Some?
  }

  predicate Ungraded(e: Entry) {
    e.mean.None?
  }

  predicate AllGraded(xs: seq<Entry>) {
    forall i :: 0 <= i < |xs| ==> xs[i].mean.Some?
  }

  /** `alunosComNotas`: the entries with a mean, in roster order. */
  function GradedEntries(roster: seq<Student>): (r: seq<Entry>)
    ensures AllGraded(r)
  {
    FilterAll(Summaries(roster), Graded);
    Filter(Summaries(roster), Graded)
  }

  /** The graded entries are exactly the summaries of the students who have
      grades. */
  lemma GradedEntriesMembers(roster: seq<Student>, e: Entry)
    ensures e in GradedEntries(roster) <==>
      exists i :: 0 <= i < |roster| && roster[i].grades != [] && e == Summary(roster[i])
  {
    FilterMembers(Summaries(roster), Graded, e);
    if e in Summaries(roster) {
      var i :| 0 <= i < |Summaries(roster)| && Summaries(roster)[i] == e;
      assert e == Summary(roster[i]);
    }
    if exists i :: 0 <= i < |roster| && roster[i].grades != [] && e == Summary(roster[i]) {
      var i :| 0 <= i < |roster| && roster[i].grades != [] && e == Summary(roster[i]);
      assert Summaries(roster)[i] == e;
    }
  }

  /** No graded entry exactly when no student has grades. */
  lemma GradedEntriesEmpty(roster: seq<Student>)
    ensures GradedEntries(roster) == [] <==> forall i :: 0 <= i < |roster| ==> roster[i].grades == []
  {
    FilterEmpty(Summaries(roster), Graded);
    assert forall i :: 0 <= i < |roster| ==> Summaries(roster)[i] == Summary(roster[i]);
  }

  /** The means of graded entries, in order. */
  function Means(xs: seq<Entry>): (r: seq<real>)
    requires AllGraded(xs)
    ensures |r| == |xs| && forall i :: 0 <= i < |xs| ==> r[i] == xs[i].mean.value
  {
    seq(|xs|, i requires 0 <= i < |xs| => xs[i].mean.value)
  }

  // ---------------------------------------------------------------------
  // `reduce((maior, aluno) => aluno.media > maior.media ? aluno : maior)`
  // and its `<` twin, which start from the first entry and replace the
  // running choice only on a strictly better mean; they are followed here
  // by the position of the running choice.

  /** The reduce for the largest mean, from position `i` on, with `best`
      the choice so far. */
  function ReduceMax(xs: seq<Entry>, best: nat, i: nat): (r: nat)
    requires AllGraded(xs) && best < i <= |xs|
    requires forall j :: 0 <= j < i ==> xs[j].mean.value <= xs[best].mean.value
    requires forall j :: 0 <= j < best ==> xs[j].mean.value < xs[best].mean.value
    ensures r < |xs|
    ensures forall j :: 0 <= j < |xs| ==> xs[j].mean.value <= xs[r].mean.value
    ensures forall j :: 0 <= j < r ==> xs[j].mean.value < xs[r].mean.value
    decreases |xs| - i
  {
    if i == |xs| then best
    else ReduceMax(xs, if xs[i].mean.value > xs[best].mean.value then i else best, i + 1)
  }

  /** The reduce for the smallest mean, from position `i` on, with `worst`
      the choice so far. */
  function ReduceMin(xs: seq<Entry>, worst: nat, i: nat): (r: nat)
    requires AllGraded(xs) && worst < i <= |xs|
    requires forall j :: 0 <= j < i ==> xs[worst].mean.value <= xs[j].mean.value
    requires forall j :: 0 <= j < worst ==> xs[worst].mean.value < xs[j].mean.value
    ensures r < |xs|
    ensures forall j :: 0 <= j < |xs| ==> xs[r].mean.value <= xs[j].mean.value
    ensures forall j :: 0 <= j < r ==> xs[r].mean.value < xs[j].mean.value
    decreases |xs| - i
  {
    if i == |xs| then worst
    else ReduceMin(xs, if xs[i].mean.value < xs[worst].mean.value then i else worst, i + 1)
  }

  datatype Stats = Stats(overall: real, best: Entry, worst: Entry)

  /** `exibirEstatisticas`: `None` ("no data") when no student has grades;
      otherwise the mean of the per-student means, and the entries that the
      two reduces pick. */
  function ClassStats(roster: seq<Student>): (r: Option<Stats>)
    ensures r.None? <==> forall i :: 0 <= i < |roster| ==> roster[i].grades == []
  {
    GradedEntriesEmpty(roster);
    var graded := GradedEntries(roster);
    if graded == [] then None
    else
      Some(Stats(Mean(Means(graded)).value, graded[ReduceMax(graded, 0, 1)], graded[ReduceMin(graded, 0, 1)]))
  }

  /** The best entry has the largest mean and is the first such in roster
      order; the worst has the smallest mean and is the first such; and the
      overall mean lies between the two. */
  lemma ClassStatsSpec(roster: seq<Student>)
    requires ClassStats(roster).Some?
    ensures var s := ClassStats(roster).value;
      var graded := GradedEntries(roster);
      && (exists k :: 0 <= k < |graded| && graded[k] == s.best
            && (forall j :: 0 <= j < k ==> graded[j].mean.value < s.best.mean.value))
      && (forall j :: 0 <= j < |graded| ==> graded[j].mean.value <= s.best.mean.value)
      && (exists k :: 0 <= k < |graded| && graded[k] == s.worst
            && (forall j :: 0 <= j < k ==> s.worst.mean.value < graded[j].mean.value))
      && (forall j :: 0 <= j < |graded| ==> s.worst.mean.value <= graded[j].mean.value)
      && s.worst.mean.value <= s.overall <= s.best.mean.value
  {
    var s := ClassStats(roster).value;
    var graded := GradedEntries(roster);
    var b := ReduceMax(graded, 0, 1);
    var w := ReduceMin(graded, 0, 1);
    MeanBounds(Means(graded), graded[w].mean.value, graded[b].mean.value);
  }

  /** The graded entries of the example roster of `ClassStatsExample`. */
  lemma GradedEntriesExample()
    ensures GradedEntries([Student("A", [5.0]), Student("B", [9.0]), Student("C", [7.0])])
         == [Entry("A", Some(5.0)), Entry("B", Some(9.0)), Entry("C", Some(7.0))]
  {
    var roster := [Student("A", [5.0]), Student("B", [9.0]), Student("C", [7.0])];
    assert [5.0][..0] == [];
    var entries := Summaries(roster);
    assert entries == [Entry("A", Some(5.0)), Entry("B", Some(9.0)), Entry("C", Some(7.0))];
    FilterKeepsAll(entries, Graded);
  }

  lemma ClassStatsExample()
    ensures ClassStats([Student("A", [5.0]), Student("B", [9.0]), Student("C", [7.0])])
         == Some(Stats(7.0, Entry("B", Some(9.0)), Entry("A", Some(5.0))))
  {
    var a, b, c := Entry("A", Some(5.0)), Entry("B", Some(9.0)), Entry("C", Some(7.0));
    GradedEntriesExample();
    assert Means([a, b, c]) == [5.0, 9.0, 7.0];
    assert [5.0, 9.0, 7.0][..2] == [5.0, 9.0];
    assert [5.0, 9.0][..1] == [5.0];
    assert [5.0][..0] == [];
    assert ReduceMax([a, b, c], 0, 1) == 1;
    assert ReduceMin([a, b, c], 0, 1) == 0;
  }
}
