/** The shared `alunos` array and the operations that change it:
    `adicionarAluno` (push), `adicionarNotas` (push into a student's
    grades) and `removerAluno` (findIndex and splice), with the
    read-only lookup of `calcularMediaDeAluno`. */
module RosterState {
  import opened Wrappers
  import opened JsText
  import opened Students
  import opened GradeValidator
  import opened Aggregator

  datatype AddOutcome = Added | EmptyName | DuplicateName

  /** The checks of `adicionarAluno`, in the order it makes them. */
  function AddCheck(roster: seq<Student>, name: string): (r: AddOutcome)
    ensures r == EmptyName <==> name == []
    ensures r == DuplicateName <==>
      name != [] && exists i :: 0 <= i < |roster| && SameName(roster[i].name, name)
  {
    if name == [] then EmptyName
    else if FindIndex(roster, name).Some? then DuplicateName
    else Added
  }

  /** An accepted name keeps the roster well formed. */
  lemma AddKeepsWellFormed(roster: seq<Student>, name: string)
    requires WellFormed(roster) && AddCheck(roster, name) == Added
    ensures WellFormed(roster + [Student(name, [])])
  {
    var r := roster + [Student(name, [])];
    forall i, j | 0 <= i < j < |r|
      ensures !SameName(r[i].name, r[j].name)
    {
      if j == |roster| {
        assert !SameName(roster[i].name, name);
      }
    }
  }

  /** After a successful add, looking the name up finds the new student,
      who has no grades. */
  lemma AddThenFind(roster: seq<Student>, name: string)
    requires AddCheck(roster, name) == Added
    ensures FindIndex(roster + [Student(name, [])], name) == Some(|roster|)
    ensures (roster + [Student(name, [])])[|roster|].grades == []
  {
    var r := roster + [Student(name, [])];
    assert SameName(r[|roster|].name, name);
    assert forall j :: 0 <= j < |roster| ==> r[j] == roster[j];
  }

  /** A name that differs from an existing one only in letter case is
      refused; a different name is accepted. */
  lemma DuplicateUpToCase()
    ensures AddCheck([Student("Ana", [])], "ANA") == DuplicateName
    ensures AddCheck([Student("Ana", [])], "Bia") == Added
  {
    assert Lower("Ana") == "ana";
    assert Lower("ANA") == "ana";
    assert Lower("Bia") == "bia";
    assert SameName([Student("Ana", [])][0].name, "ANA");
    assert !SameName([Student("Ana", [])][0].name, "Bia");
  }

  /** `aluno.notas.push(...notasValidas)` for the student at `i`. */
  function AppendGrades(roster: seq<Student>, i: nat, grades: seq<real>): (r: seq<Student>)
    requires i < |roster|
    ensures |r| == |roster|
  {
    roster[i := Student(roster[i].name, roster[i].grades + grades)]
  }

  /** Appending grades in [0, 10] keeps the roster well formed, only adds
      to the end of that student's grades and changes no other student. */
  lemma AppendGradesSpec(roster: seq<Student>, i: nat, grades: seq<real>)
    requires WellFormed(roster) && i < |roster|
    requires forall k :: 0 <= k < |grades| ==> InRange(grades[k])
    ensures WellFormed(AppendGrades(roster, i, grades))
    ensures AppendGrades(roster, i, grades)[i].name == roster[i].name
    ensures roster[i].grades <= AppendGrades(roster, i, grades)[i].grades
    ensures forall j :: 0 <= j < |roster| && j != i ==> AppendGrades(roster, i, grades)[j] == roster[j]
  {
    var r := AppendGrades(roster, i, grades);
    forall j, k | 0 <= j < |r| && 0 <= k < |r[j].grades|
      ensures InRange(r[j].grades[k])
    {
      if j == i && k >= |roster[i].grades| {
        assert r[j].grades[k] == grades[k - |roster[i].grades|];
      }
    }
  }

  /** Appending no grades changes nothing. */
  lemma AppendNoGrades(roster: seq<Student>, i: nat)
    requires i < |roster|
    ensures AppendGrades(roster, i, []) == roster
  {
    assert roster[i].grades + [] == roster[i].grades;
  }

  /** `splice(i, 1)`: the student at `i` leaves, the others keep their order. */
  function RemoveAt(roster: seq<Student>, i: nat): (r: seq<Student>)
    requires i < |roster|
    ensures |r| == |roster| - 1
    ensures forall k :: 0 <= k < i ==> r[k] == roster[k]
    ensures forall k :: i <= k < |r| ==> r[k] == roster[k + 1]
  {
    roster[..i] + roster[i + 1..]
  }

  /** Removing a student keeps the roster well formed, and the removed
      student plus the remaining ones are the old roster. */
  lemma RemoveAtSpec(roster: seq<Student>, i: nat)
    requires WellFormed(roster) && i < |roster|
    ensures WellFormed(RemoveAt(roster, i))
    ensures multiset(RemoveAt(roster, i)) + multiset{roster[i]} == multiset(roster)
  {
    assert roster == roster[..i] + [roster[i]] + roster[i + 1..];
    var r := RemoveAt(roster, i);
    forall p, q | 0 <= p < q < |r|
      ensures !SameName(r[p].name, r[q].name)
    {
      var p', q' := if p < i then p else p + 1, if q < i then q else q + 1;
      assert r[p] == roster[p'] && r[q] == roster[q'];
    }
  }

  /** Under unique names, removing by name leaves no student with that name. */
  lemma RemoveByNameLeavesNoMatch(roster: seq<Student>, name: string)
    requires WellFormed(roster) && FindIndex(roster, name).Some?
    ensures FindIndex(RemoveAt(roster, FindIndex(roster, name).value), name).None?
  {
    var i := FindIndex(roster, name).value;
    var r := RemoveAt(roster, i);
    forall k | 0 <= k < |r|
      ensures !SameName(r[k].name, name)
    {
      var k' := if k < i then k else k + 1;
      assert r[k] == roster[k'];
      assert !SameName(roster[k'].name, roster[i].name);
    }
  }

  /** What `adicionarNotas` reports: the accepted grades and the rejected
      tokens. */
  datatype GradeReport = GradeReport(valid: seq<real>, invalid: seq<string>)

  class Roster {
    var students: seq<Student>

    ghost predicate Valid()
      reads this
    {
      WellFormed(students)
    }

    constructor ()
      ensures Valid() && students == []
    {
      students := [];
    }

    /** `adicionarAluno` for a name that `lerInput` has already trimmed. */
    method Add(name: string) returns (r: AddOutcome)
      requires Valid()
      modifies this
      ensures Valid()
      ensures r == AddCheck(old(students), name)
      ensures students == if r == Added then old(students) + [Student(name, [])] else old(students)
    {
      if name == [] {
        return EmptyName;
      }
      var existing := FindIndex(students, name);
      if existing.Some? {
        r := DuplicateName;
      } else {
        AddKeepsWellFormed(students, name);
        students := students + [Student(name, [])];
        r := Added;
      }
    }

    /** `adicionarNotas`: `None` when no student has the name; otherwise
        the valid grades are appended to that student's grades (nothing
        changes when there are none) and both lists are reported. */
    method RecordGrades(name: string, text: string) returns (r: Option<GradeReport>)
      requires Valid()
      modifies this
      ensures Valid()
      ensures FindIndex(old(students), name).None? ==> r.None? && students == old(students)
      ensures FindIndex(old(students), name).Some? ==>
        && r == Some(GradeReport(ValidGrades(Tokens(text)), InvalidTokens(Tokens(text))))
        && students == AppendGrades(old(students), FindIndex(old(students), name).value, ValidGrades(Tokens(text)))
    {
      var found := FindIndex(students, name);
      if found.None? {
        return None;
      }
      var i := found.value;
      var valid, invalid := ParseGrades(text);
      if |valid| > 0 {
        AppendGradesSpec(students, i, valid);
        students := AppendGrades(students, i, valid);
      } else {
        assert valid == [];
        AppendNoGrades(students, i);
      }
      r := Some(GradeReport(valid, invalid));
    }

    /** `removerAluno`: the first student whose name matches is spliced
        out and their name returned; `None` and no change otherwise. */
    method Remove(name: string) returns (removed: Option<string>)
      requires Valid()
      modifies this
      ensures Valid()
      ensures FindIndex(old(students), name).None? ==> removed.None? && students == old(students)
      ensures FindIndex(old(students), name).Some? ==>
        var i := FindIndex(old(students), name).value;
        removed == Some(old(students)[i].name) && students == RemoveAt(old(students), i)
    {
      var index := FindIndex(students, name);
      if index.None? {
        return None;
      }
      var i := index.value;
      removed := Some(students[i].name);
      RemoveAtSpec(students, i);
      students := RemoveAt(students, i);
    }

    /** `calcularMediaDeAluno`: `None` when no student has the name,
        otherwise that student's mean (itself `None` without grades). */
    method LookupMean(name: string) returns (r: Option<Option<real>>)
      ensures r.None? <==> forall j :: 0 <= j < |students| ==> !SameName(students[j].name, name)
      ensures r.Some? ==>
        var i := FindIndex(students, name).value;
        r.value == Mean(students[i].grades) && (r.value.None? <==> students[i].grades == [])
    {
      var found := FindIndex(students, name);
      if found.None? {
        return None;
      }
      r := Some(Mean(students[found.value].grades));
    }
  }
}
