/** The grade-entry step of `adicionarNotas`: the input is split on commas
    and each token is sorted into the valid grades (it parses to a number
    in [0, 10]) or the invalid tokens (kept as typed, untrimmed). */
module GradeValidator {
  import opened Wrappers
  import opened JsText
  import opened Sequences
  import opened Students

  /** The grade a token stands for: `parseFloat(token.trim())`, kept only
      when it is a number within [0, 10]. */
  function Grade(token: string): (r: Option<real>)
    ensures r.Some? ==> InRange(r.value)
  {
    match ParseNum(Trim(token))
    case Some(v) => if 0.0 <= v && v <= 10.0 then Some(v) else None
    case None => None
  }

  predicate Rejected(token: string) {
    Grade(token).None?
  }

  /** `notasValidas`: the grades of the accepted tokens, in input order;
      each lies in [0, 10]. */
  function ValidGrades(tokens: seq<string>): (r: seq<real>)
    ensures |r| <= |tokens|
    ensures forall i :: 0 <= i < |r| ==> InRange(r[i])
  {
    var r := Values(tokens, Grade);
    assert forall i | 0 <= i < |r| :: InRange(r[i]) by {
      forall i | 0 <= i < |r| {
        ValuesMembers(tokens, Grade, r[i]);
      }
    }
    r
  }

  /** `notasInvalidas`: the rejected tokens as typed, in input order; with
      the valid grades they account for every token. */
  function InvalidTokens(tokens: seq<string>): (r: seq<string>)
    ensures forall i :: 0 <= i < |r| ==> r[i] in tokens && Grade(r[i]).None?
    ensures |ValidGrades(tokens)| + |r| == |tokens|
  {
    var r := Filter(tokens, Rejected);
    assert forall i | 0 <= i < |r| :: r[i] in tokens && Rejected(r[i]) by {
      forall i | 0 <= i < |r| {
        FilterMembers(tokens, Rejected, r[i]);
      }
    }
    ValuesCount(tokens, Grade, Rejected);
    r
  }

  /** `split(',')`: the comma-free pieces of a line, one more than its
      commas, which joined with commas give the line back. */
  function Tokens(text: string): (r: seq<string>)
    ensures |r| == Occurrences(text, ',') + 1
    ensures forall k :: 0 <= k < |r| ==> ',' !in r[k]
    ensures Join(r, ',') == text
  {
    JoinSplit(text, ',');
    Split(text, ',')
  }

  /** The `forEach` over the tokens that fills `notasValidas` and
      `notasInvalidas`. */
  method ParseGrades(text: string) returns (valid: seq<real>, invalid: seq<string>)
    ensures valid == ValidGrades(Tokens(text))
    ensures invalid == InvalidTokens(Tokens(text))
  {
    var tokens := Split(text, ',');
    valid, invalid := [], [];
    for k := 0 to |tokens|
      invariant valid == Values(tokens[..k], Grade)
      invariant invalid == Filter(tokens[..k], Rejected)
    {
      var token := tokens[k];
      assert tokens[..k + 1][..k] == tokens[..k];
      match ParseNum(Trim(token)) {
        case Some(v) =>
          if 0.0 <= v && v <= 10.0 {
            valid := valid + [v];
          } else {
            invalid := invalid + [token];
          }
        case None =>
          invalid := invalid + [token];
      }
    }
    assert tokens[..|tokens|] == tokens;
    assert Tokens(text) == tokens;
  }

  /** Classifying a concatenation classifies each part, in order: with the
      one-token case this says every token goes to exactly one list, at its
      place in input order. */
  lemma ClassifyAppend(xs: seq<string>, ys: seq<string>)
    ensures ValidGrades(xs + ys) == ValidGrades(xs) + ValidGrades(ys)
    ensures InvalidTokens(xs + ys) == InvalidTokens(xs) + InvalidTokens(ys)
  {
    ValuesAppend(xs, ys, Grade);
    FilterAppend(xs, ys, Rejected);
  }

  /** A single token goes to exactly one of the two lists. */
  lemma ClassifyToken(t: string)
    ensures ValidGrades([t]) == (if Grade(t).Some? then [Grade(t).value] else [])
    ensures InvalidTokens([t]) == (if Grade(t).None? then [t] else [])
  {
    assert [t][..0] == [];
  }

  /** The lengths of the two lists add up to the number of tokens, which is
      the number of commas plus one. */
  lemma ClassifyCount(text: string)
    ensures |ValidGrades(Tokens(text))| + |InvalidTokens(Tokens(text))| == Occurrences(text, ',') + 1
  {
    ValuesCount(Tokens(text), Grade, Rejected);
  }

  /** A value is a valid grade exactly when some token stands for it. */
  lemma ValidGradesMembers(tokens: seq<string>, v: real)
    ensures v in ValidGrades(tokens) <==> exists k :: 0 <= k < |tokens| && Grade(tokens[k]) == Some(v)
  {
    ValuesMembers(tokens, Grade, v);
  }

  /** A token is reported invalid exactly when it occurs and is rejected. */
  lemma InvalidTokensMembers(tokens: seq<string>, t: string)
    ensures t in InvalidTokens(tokens) <==> t in tokens && Grade(t).None?
  {
    FilterMembers(tokens, Rejected, t);
  }

  /** No valid grade exactly when every token is rejected. */
  lemma NoValidGrades(tokens: seq<string>)
    ensures ValidGrades(tokens) == [] <==> forall k :: 0 <= k < |tokens| ==> Grade(tokens[k]).None?
  {
    ValuesEmpty(tokens, Grade);
  }

  // ---------------------------------------------------------------------
  // The line "7.5, 8, x, 11, -1" token by token: 7.5 and 8 are accepted;
  // "x" does not parse, 11 and -1 are out of range, and the rejected
  // tokens keep the space that followed each comma.

  /** One leading space is trimmed away. */
  lemma TrimSpace(d: string)
    requires d != [] && !IsSpace(d[0]) && !IsSpace(d[|d| - 1])
    ensures Trim([' '] + d) == d
  {
    assert ([' '] + d)[1..] == d;
    assert TrimStart([' '] + d) == TrimStart(d) == d;
    assert TrimEnd(d) == d;
  }

  /** The digit runs and values inside "7.5". */
  lemma SevenHalfDigits()
    ensures DigitRun("7.5") == 1 && DigitRun(".5") == 0 && DigitRun("5") == 1
    ensures DigitsValue("75") == 75
  {
    assert "7.5"[1..] == ".5";
    assert "5"[1..] == [];
    assert "75"[..1] == "7";
    assert "7"[..0] == [];
  }

  /** "7.5" reads as 75 scaled down by its one fraction digit. */
  lemma ParseSevenHalf()
    ensures ParseNum("7.5") == Some(7.5)
  {
    SevenHalfDigits();
    assert "7.5"[1..] == ".5";
    assert ".5"[1..] == "5";
    assert "5"[1..] == [];
    assert "7.5"[..1] + "5"[..1] == "75";
    assert Exponent([]) == 0;
    assert Scale(75.0, -1) == 7.5;
  }

  lemma GradeOfSevenHalf()
    ensures Grade("7.5") == Some(7.5)
  {
    assert Trim("7.5") == "7.5";
    ParseSevenHalf();
  }

  lemma GradeOfEight()
    ensures Grade(" 8") == Some(8.0)
  {
    TrimSpace("8");
    assert "8"[1..] == [];
    assert DigitRun("8") == 1;
    assert "8"[..1] == "8";
    assert "8"[..0] == [];
    assert DigitsValue("8") == 8;
  }

  lemma GradeOfLetter()
    ensures Grade(" x") == None
  {
    TrimSpace("x");
    assert DigitRun("x") == 0;
  }

  lemma GradeOfEleven()
    ensures Grade(" 11") == None
  {
    TrimSpace("11");
    assert "11"[1..] == "1";
    assert "1"[1..] == [];
    assert DigitRun("11") == 2;
    assert "11"[..2] == "11";
    assert "11"[..1] == "1";
    assert "1"[..0] == [];
    assert DigitsValue("11") == 11;
    assert "11"[2..] == [];
    assert DigitRun([]) == 0;
    assert "11"[..2] + ""[..0] == "11";
    assert Exponent([]) == 0;
    assert ParseNum("11") == Some(11.0);
  }

  lemma GradeOfMinusOne()
    ensures Grade(" -1") == None
  {
    TrimSpace("-1");
    assert "-1"[1..] == "1";
    assert "1"[1..] == [];
    assert DigitRun("1") == 1;
    assert "1"[..1] == "1";
    assert "1"[..0] == [];
    assert DigitsValue("1") == 1;
  }
  lemma TokensExample()
    ensures Tokens("7.5, 8, x, 11, -1") == ["7.5", " 8", " x", " 11", " -1"]
  {
    var parts := ["7.5", " 8", " x", " 11", " -1"];
    assert parts[1..] == [" 8", " x", " 11", " -1"];
    assert parts[1..][1..] == [" x", " 11", " -1"];
    assert parts[1..][1..][1..] == [" 11", " -1"];
    assert parts[1..][1..][1..][1..] == [" -1"];
    assert Join(parts, ',') == "7.5, 8, x, 11, -1";
    SplitJoin(parts, ',');
  }
}
