/** The pieces of the JavaScript library the roster manager relies on:
    `String.prototype.toLowerCase`, `trim`, `split` and `parseFloat`.
    Each is given a concrete definition so that the rest of the model can
    compute with it. The general properties of the roster do not depend on
    the details of these definitions; only the worked examples of single
    tokens and names unfold them. */
module JsText {
  import opened Wrappers

  // ---------------------------------------------------------------------
  // Case folding (`toLowerCase`), restricted to the ASCII letters.

  function LowerChar(c: char): char {
    if 'A' <= c <= 'Z' then (c as int + 32) as char else c
  }

  /** Every ASCII capital becomes its small letter; nothing else changes,
      so the result holds no ASCII capital. */
  function Lower(s: string): (r: string)
    ensures |r| == |s|
    ensures forall i :: 0 <= i < |r| ==> !('A' <= r[i] <= 'Z')
    ensures forall i :: 0 <= i < |s| && !('A' <= s[i] <= 'Z') ==> r[i] == s[i]
    ensures forall i :: 0 <= i < |s| && 'A' <= s[i] <= 'Z' ==>
      'a' <= r[i] <= 'z' && r[i] as int == s[i] as int + 32
  {
    seq(|s|, i requires 0 <= i < |s| => LowerChar(s[i]))
  }

  // ---------------------------------------------------------------------
  // Whitespace removal at both ends (`trim`): the white-space and
  // line-terminator code points of ECMAScript.

  predicate IsSpace(c: char) {
    c == ' ' || c == '\t' || c == '\n' || c == '\r' || c == '\U{000B}' || c == '\U{000C}'
    || c == '\U{00A0}' || c == '\U{1680}' || ('\U{2000}' <= c <= '\U{200A}')
    || c == '\U{2028}' || c == '\U{2029}' || c == '\U{202F}' || c == '\U{205F}'
    || c == '\U{3000}' || c == '\U{FEFF}'
  }

  function TrimStart(s: string): string {
    if s != [] && IsSpace(s[0]) then TrimStart(s[1..]) else s
  }

  function TrimEnd(s: string): string {
    if s != [] && IsSpace(s[|s| - 1]) then TrimEnd(s[..|s| - 1]) else s
  }

  /** `TrimStart` drops the leading white space: what is left is a suffix
      of `s` that does not start with white space. */
  lemma {:induction false} TrimStartSpec(s: string)
    ensures |TrimStart(s)| <= |s| && TrimStart(s) == s[|s| - |TrimStart(s)|..]
    ensures forall k :: 0 <= k < |s| - |TrimStart(s)| ==> IsSpace(s[k])
    ensures TrimStart(s) != [] ==> !IsSpace(TrimStart(s)[0])
  {
    if s != [] && IsSpace(s[0]) {
      var t := s[1..];
      TrimStartSpec(t);
      assert TrimStart(s) == TrimStart(t);
      assert t[|t| - |TrimStart(t)|..] == s[|s| - |TrimStart(s)|..];
    }
  }

  /** `TrimEnd` drops the trailing white space: what is left is a prefix of
      `s` that does not end with white space. */
  lemma {:induction false} TrimEndSpec(s: string)
    ensures |TrimEnd(s)| <= |s| && TrimEnd(s) == s[..|TrimEnd(s)|]
    ensures forall k :: |TrimEnd(s)| <= k < |s| ==> IsSpace(s[k])
    ensures TrimEnd(s) != [] ==> !IsSpace(TrimEnd(s)[|TrimEnd(s)| - 1])
  {
    if s != [] && IsSpace(s[|s| - 1]) {
      TrimEndSpec(s[..|s| - 1]);
    }
  }

  /** `trim`: white space removed at both ends (see `TrimSpec`). */
  function Trim(s: string): string {
    TrimEnd(TrimStart(s))
  }

  /** `Trim` returns the slice of `s` left after removing the white space
      at both ends, and that slice neither starts nor ends with white
      space. */
  lemma TrimSpec(s: string)
    ensures exists p, q ::
      && 0 <= p <= q <= |s|
      && Trim(s) == s[p..q]
      && (forall k :: 0 <= k < p ==> IsSpace(s[k]))
      && (forall k :: q <= k < |s| ==> IsSpace(s[k]))
    ensures Trim(s) != [] ==> !IsSpace(Trim(s)[0]) && !IsSpace(Trim(s)[|Trim(s)| - 1])
  {
    var t := TrimStart(s);
    TrimStartSpec(s);
    TrimEndSpec(t);
    var p := |s| - |t|;
    assert Trim(s) == s[p..p + |Trim(s)|];
  }

  // ---------------------------------------------------------------------
  // Splitting on a separator (`split`): n separators give n + 1 pieces,
  // the empty string gives one empty piece.

  /** The number of occurrences of `c` in `s`. */
  function Occurrences(s: string, c: char): nat {
    if s == [] then 0 else (if s[0] == c then 1 else 0) + Occurrences(s[1..], c)
  }

  function Split(s: string, sep: char): (r: seq<string>)
    ensures |r| == Occurrences(s, sep) + 1
    ensures forall k :: 0 <= k < |r| ==> sep !in r[k]
  {
    if s == [] then [[]]
    else
      var rest := Split(s[1..], sep);
      if s[0] == sep then [[]] + rest
      else [[s[0]] + rest[0]] + rest[1..]
  }

  /** `Array.prototype.join`: the inverse of `Split`. */
  function Join(parts: seq<string>, sep: char): string {
    if parts == [] then []
    else if |parts| == 1 then parts[0]
    else parts[0] + [sep] + Join(parts[1..], sep)
  }

  lemma {:induction false} JoinSplit(s: string, sep: char)
    ensures Join(Split(s, sep), sep) == s
  {
    if s != [] {
      var rest := Split(s[1..], sep);
      JoinSplit(s[1..], sep);
      if s[0] == sep {
        assert Split(s, sep) == [[]] + rest;
        assert ([[]] + rest)[1..] == rest;
      } else if |rest| == 1 {
        assert Split(s, sep) == [[s[0]] + rest[0]];
      } else {
        assert Split(s, sep) == [[s[0]] + rest[0]] + rest[1..];
        assert ([[s[0]] + rest[0]] + rest[1..])[1..] == rest[1..];
        assert Join(rest, sep) == rest[0] + [sep] + Join(rest[1..], sep);
      }
    }
  }

  /** A piece free of the separator stays glued to whatever follows it. */
  lemma {:induction false} SplitPrefix(w: string, s: string, sep: char)
    requires sep !in w
    ensures Split(w + s, sep) == [w + Split(s, sep)[0]] + Split(s, sep)[1..]
  {
    var t := Split(s, sep);
    if w == [] {
      assert w + s == s && w + t[0] == t[0];
      assert t == [t[0]] + t[1..];
    } else {
      SplitPrefix(w[1..], s, sep);
      var r := Split(w[1..] + s, sep);
      assert (w + s)[0] == w[0] != sep;
      assert (w + s)[1..] == w[1..] + s;
      assert Split(w + s, sep) == [[w[0]] + r[0]] + r[1..];
      assert r[0] == w[1..] + t[0] && r[1..] == t[1..];
      assert [w[0]] + (w[1..] + t[0]) == w + t[0];
    }
  }

  /** Splitting undoes joining pieces that do not contain the separator. */
  lemma {:induction false} SplitJoin(parts: seq<string>, sep: char)
    requires parts != []
    requires forall k :: 0 <= k < |parts| ==> sep !in parts[k]
    ensures Split(Join(parts, sep), sep) == parts
  {
    if |parts| == 1 {
      SplitPrefix(parts[0], [], sep);
      assert parts[0] + [] == parts[0];
    } else {
      var rest := Join(parts[1..], sep);
      SplitJoin(parts[1..], sep);
      assert Join(parts, sep) == parts[0] + ([sep] + rest);
      SplitPrefix(parts[0], [sep] + rest, sep);
      assert ([sep] + rest)[0] == sep && ([sep] + rest)[1..] == rest;
      assert Split([sep] + rest, sep) == [[]] + parts[1..];
      assert parts[0] + [] == parts[0];
      assert parts == [parts[0]] + parts[1..];
    }
  }

  // ---------------------------------------------------------------------
  // Number parsing (`parseFloat`): the longest prefix of the form
  // [sign] digits [. digits] [(e|E) [sign] digits], with at least one
  // digit before the exponent, is read as a decimal number and the rest
  // of the text is ignored. No such prefix gives NaN, here `None`.

  predicate IsDigit(c: char) {
    '0' <= c <= '9'
  }

  /** The length of the run of digits at the start of `s`. */
  function DigitRun(s: string): (n: nat)
    ensures n <= |s|
    ensures forall i :: 0 <= i < n ==> IsDigit(s[i])
    ensures n < |s| ==> !IsDigit(s[n])
  {
    if s != [] && IsDigit(s[0]) then 1 + DigitRun(s[1..]) else 0
  }

  /** The value of a string of decimal digits. */
  function DigitsValue(d: string): nat
    requires forall i :: 0 <= i < |d| ==> IsDigit(d[i])
  {
    if d == [] then 0
    else
      var c := d[|d| - 1];
      assert IsDigit(c);
      10 * DigitsValue(d[..|d| - 1]) + (c as int - '0' as int)
  }

  /** `m` times ten to the power `e`. */
  function Scale(m: real, e: int): real
    decreases if e < 0 then -e else e
  {
    if e == 0 then m
    else if e > 0 then Scale(10.0 * m, e - 1)
    else Scale(m / 10.0, e + 1)
  }

  /** Scaling by a power of ten keeps the sign. */
  lemma {:induction false} ScaleNonNegative(m: real, e: int)
    requires 0.0 <= m
    ensures 0.0 <= Scale(m, e)
    decreases if e < 0 then -e else e
  {
    if e > 0 {
      ScaleNonNegative(10.0 * m, e - 1);
    } else if e < 0 {
      ScaleNonNegative(m / 10.0, e + 1);
    }
  }

  /** The exponent part at the start of `s`, 0 when there is none. */
  function Exponent(s: string): int {
    if s != [] && (s[0] == 'e' || s[0] == 'E') then
      var neg := |s| > 1 && s[1] == '-';
      var digits := if |s| > 1 && (s[1] == '-' || s[1] == '+') then s[2..] else s[1..];
      var n := DigitRun(digits);
      var v: int := DigitsValue(digits[..n]);
      if neg then -v else v
    else 0
  }

  /** `s` without its leading sign, if any. */
  function Unsigned(s: string): string {
    if s != [] && (s[0] == '-' || s[0] == '+') then s[1..] else s
  }

  /** `s` begins with a digit, or with a point followed by a digit. */
  predicate StartsWithDigits(s: string) {
    (s != [] && IsDigit(s[0])) || (|s| >= 2 && s[0] == '.' && IsDigit(s[1]))
  }

  /** `parseFloat` on an already trimmed string: the longest prefix of the
      form sign, digits, point, digits, exponent, or `None` (NaN). */
  function ParseNum(s: string): Option<real> {
    var neg := s != [] && s[0] == '-';
    var body := Unsigned(s);
    var n := DigitRun(body);
    var afterInt := body[n..];
    var hasPoint := afterInt != [] && afterInt[0] == '.';
    var fracText := if hasPoint then afterInt[1..] else [];
    var f := DigitRun(fracText);
    var rest := if hasPoint then fracText[f..] else afterInt;
    if n + f == 0 then None
    else
      var magnitude := Scale(DigitsValue(body[..n] + fracText[..f]) as real, Exponent(rest) - f);
      Some(if neg then -magnitude else magnitude)
  }

  /** The result is NaN exactly when, after the sign, no digit starts the
      integer or the fraction part. */
  lemma ParseNumDefined(s: string)
    ensures ParseNum(s).Some? <==> StartsWithDigits(Unsigned(s))
  {
    var body := Unsigned(s);
    var n := DigitRun(body);
    assert n > 0 <==> body != [] && IsDigit(body[0]);
    if n == 0 && body != [] && body[0] == '.' {
      var fracText := body[n..][1..];
      assert fracText == body[1..];
      assert DigitRun(fracText) > 0 <==> |body| >= 2 && IsDigit(body[1]);
    }
  }

  /** Only a leading minus gives a negative value. */
  lemma ParseNumSign(s: string)
    ensures ParseNum(s).Some? && ParseNum(s).value < 0.0 ==> s != [] && s[0] == '-'
  {
    forall m: real, e: int | 0.0 <= m
      ensures 0.0 <= Scale(m, e)
    {
      ScaleNonNegative(m, e);
    }
  }
}
