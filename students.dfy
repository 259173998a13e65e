/** A student record `{nome, notas}` and the case-insensitive name search
    that `Array.prototype.find` and `findIndex` perform over the roster. */
module Students {
  import opened Wrappers
  import opened JsText

  datatype Student = Student(name: string, grades: seq<real>)

  /** `a.toLowerCase() === b.toLowerCase()`. */
  predicate SameName(a: string, b: string) {
    Lower(a) == Lower(b)
  }

  predicate InRange(g: real) {
    0.0 <= g <= 10.0
  }

  /** The position of the first student whose name matches `name`
      case-insensitively; `None` plays the part of `findIndex`'s -1. */
  function FindIndex(roster: seq<Student>, name: string): (r: Option<nat>)
    ensures r.Some? ==> r.value < |roster| && SameName(roster[r.value].name, name)
    ensures r.Some? ==> forall j :: 0 <= j < r.value ==> !SameName(roster[j].name, name)
    ensures r.None? <==> forall j :: 0 <= j < |roster| ==> !SameName(roster[j].name, name)
  {
    if roster == [] then None
    else if SameName(roster[0].name, name) then Some(0)
    else match FindIndex(roster[1..], name)
      case None => None
      case Some(i) => Some(i + 1)
  }

  /** No two students share a name up to case. */
  predicate UniqueNames(roster: seq<Student>) {
    forall i, j :: 0 <= i < j < |roster| ==> !SameName(roster[i].name, roster[j].name)
  }

  /** The roster invariants: names are non-empty and unique up to case, and
      every recorded grade lies in [0, 10]. */
  predicate WellFormed(roster: seq<Student>) {
    && UniqueNames(roster)
    && (forall i :: 0 <= i < |roster| ==> roster[i].name != [])
    && (forall i, k :: 0 <= i < |roster| && 0 <= k < |roster[i].grades| ==> InRange(roster[i].grades[k]))
  }

  /** Under unique names a match is the only one. */
  lemma {:induction false} FindIndexUnique(roster: seq<Student>, name: string, j: nat)
    requires UniqueNames(roster)
    requires j < |roster| && SameName(roster[j].name, name)
    ensures FindIndex(roster, name) == Some(j)
  {
    var i := FindIndex(roster, name).value;
    if i != j {
      assert SameName(roster[i].name, roster[j].name);
      assert false;
    }
  }
}
