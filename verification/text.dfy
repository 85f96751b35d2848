/** The string operations the order tracker applies to user input: case
    mapping, `capitalize`, `trim`, substring search and the four-digit
    decimal rendering used for generated identifiers.

    Case mapping is modelled on ASCII letters; every other character maps to
    itself. Whitespace is the set JavaScript's `String.prototype.trim`
    strips (WhiteSpace and LineTerminator code points). */
module Text {

  // ---------------------------------------------------------------------
  // Case mapping
  // ---------------------------------------------------------------------

  predicate IsUpperAscii(c: char) { 'A' <= c <= 'Z' }

  predicate IsLowerAscii(c: char) { 'a' <= c <= 'z' }

  function LowerChar(c: char): char {
    if IsUpperAscii(c) then (c as int + 32) as char else c
  }

  function UpperChar(c: char): char {
    if IsLowerAscii(c) then (c as int - 32) as char else c
  }

  /** `toLowerCase()` */
  function Lower(s: string): (r: string)
    ensures |r| == |s|
    ensures forall i :: 0 <= i < |s| ==> r[i] == LowerChar(s[i])
  {
    seq(|s|, i requires 0 <= i < |s| => LowerChar(s[i]))
  }

  /** Case-insensitive equality, as `a.toLowerCase() === b.toLowerCase()`. */
  predicate EqualsIgnoreCase(a: string, b: string) {
    Lower(a) == Lower(b)
  }

  lemma LowerCharIdempotent(c: char)
    ensures LowerChar(LowerChar(c)) == LowerChar(c)
  {
  }

  lemma LowerUpperChar(c: char)
    ensures LowerChar(UpperChar(c)) == LowerChar(c)
  {
  }

  /** A string without upper-case letters is its own lower-case form. */
  lemma LowerKeepsNonUpper(s: string)
    requires forall i :: 0 <= i < |s| ==> !IsUpperAscii(s[i])
    ensures Lower(s) == s
  {
  }

  // ---------------------------------------------------------------------
  // capitalize (App.js `capitalize`)
  // ---------------------------------------------------------------------

  /** The empty string stays empty; otherwise the first character is
      upper-cased and the remainder lower-cased. */
  function Capitalize(s: string): (r: string)
    ensures |r| == |s|
  {
    if |s| == 0 then "" else [UpperChar(s[0])] + Lower(s[1..])
  }

  /** The characterisation of `capitalize` character by character. */
  lemma CapitalizeShape(s: string)
    ensures s == "" ==> Capitalize(s) == ""
    ensures s != "" ==> Capitalize(s)[0] == UpperChar(s[0])
    ensures forall i :: 1 <= i < |s| ==> Capitalize(s)[i] == LowerChar(s[i])
  {
    if s != "" {
      var c := Capitalize(s);
      var rest := Lower(s[1..]);
      assert c == [UpperChar(s[0])] + rest;
      forall i | 1 <= i < |s|
        ensures c[i] == LowerChar(s[i])
      {
        assert c[i] == rest[i - 1] && s[1..][i - 1] == s[i];
      }
    }
  }

  /** Capitalising an already capitalised string changes nothing. */
  lemma CapitalizeIdempotent(s: string)
    ensures Capitalize(Capitalize(s)) == Capitalize(s)
  {
    if |s| > 0 {
      var c := Capitalize(s);
      var cc := Capitalize(c);
      assert cc[0] == UpperChar(UpperChar(s[0])) == UpperChar(s[0]);
      forall i | 1 <= i < |s|
        ensures cc[i] == c[i]
      {
        assert c[i] == LowerChar(s[i]);
        LowerCharIdempotent(s[i]);
      }
    }
  }

  /** Capitalising never changes a string's case-insensitive value, so a
      capitalised status is still recognised after lower-casing. */
  lemma LowerCapitalize(s: string)
    ensures Lower(Capitalize(s)) == Lower(s)
  {
    if |s| > 0 {
      var c := Capitalize(s);
      LowerUpperChar(s[0]);
      forall i | 1 <= i < |s|
        ensures Lower(c)[i] == Lower(s)[i]
      {
        LowerCharIdempotent(s[i]);
      }
    }
  }

  // ---------------------------------------------------------------------
  // trim
  // ---------------------------------------------------------------------

  /** The code points `String.prototype.trim` removes. */
  predicate IsSpace(c: char) {
    || c == '\t' || c == '\n' || c == '\U{000B}' || c == '\U{000C}' || c == '\r'
    || c == ' ' || c == '\U{00A0}' || c == '\U{1680}'
    || ('\U{2000}' <= c <= '\U{200A}')
    || c == '\U{2028}' || c == '\U{2029}' || c == '\U{202F}' || c == '\U{205F}'
    || c == '\U{3000}' || c == '\U{FEFF}'
  }

  predicate AllSpace(s: string) {
    forall i :: 0 <= i < |s| ==> IsSpace(s[i])
  }

  /** Drops leading whitespace. */
  function TrimStart(s: string): (r: string)
    ensures |r| <= |s| && r == s[|s| - |r|..]
    ensures AllSpace(s[..|s| - |r|])
    ensures r == "" || !IsSpace(r[0])
  {
    if |s| > 0 && IsSpace(s[0]) then
      var r := TrimStart(s[1..]);
      assert s[..|s| - |r|] == [s[0]] + s[1..][..|s| - 1 - |r|];
      r
    else
      s
  }

  /** Drops trailing whitespace. */
  function TrimEnd(s: string): (r: string)
    ensures |r| <= |s| && r == s[..|r|]
    ensures AllSpace(s[|r|..])
    ensures r == "" || !IsSpace(r[|r| - 1])
  {
    if |s| > 0 && IsSpace(s[|s| - 1]) then
      var r := TrimEnd(s[..|s| - 1]);
      assert s[|r|..] == s[..|s| - 1][|r|..] + [s[|s| - 1]];
      r
    else
      s
  }

  /** `trim()` */
  function Trim(s: string): string {
    TrimEnd(TrimStart(s))
  }

  /** `!s.trim()`: the string is empty once trimmed. */
  predicate Blank(s: string) {
    Trim(s) == ""
  }

  /** A string trims to nothing exactly when every character is whitespace. */
  lemma BlankIffAllSpace(s: string)
    ensures Blank(s) <==> AllSpace(s)
  {
    var t := TrimStart(s);
    assert s[..|s|] == s;
    if t != "" {
      assert t[0] == s[|s| - |t|];
      assert t[0..] == t;
    }
  }

  // ---------------------------------------------------------------------
  // includes
  // ---------------------------------------------------------------------

  predicate StartsWith(s: string, q: string) {
    |q| <= |s| && s[..|q|] == q
  }

  /** `q` occurs in `s` starting at position `i`. */
  predicate OccursAt(s: string, q: string, i: int) {
    0 <= i && i + |q| <= |s| && s[i..i + |q|] == q
  }

  /** `s.includes(q)` */
  function Contains(s: string, q: string): bool
    decreases |s|
  {
    StartsWith(s, q) || (|s| > 0 && Contains(s[1..], q))
  }

  /** `includes` holds exactly when the query occurs at some position. */
  lemma {:induction false} ContainsIffOccurs(s: string, q: string)
    ensures Contains(s, q) <==> exists i :: OccursAt(s, q, i)
    decreases |s|
  {
    if StartsWith(s, q) {
      assert OccursAt(s, q, 0);
    } else if |s| > 0 {
      ContainsIffOccurs(s[1..], q);
      if exists i :: OccursAt(s[1..], q, i) {
        var i :| OccursAt(s[1..], q, i);
        assert s[i + 1..i + 1 + |q|] == s[1..][i..i + |q|];
        assert OccursAt(s, q, i + 1);
      }
      if exists i :: OccursAt(s, q, i) {
        var i :| OccursAt(s, q, i);
        assert i != 0;
        assert s[1..][i - 1..i - 1 + |q|] == s[i..i + |q|];
        assert OccursAt(s[1..], q, i - 1);
      }
    }
  }

  /** Every string includes the empty string. */
  lemma {:induction false} ContainsEmpty(s: string)
    ensures Contains(s, "")
  {
    assert StartsWith(s, "");
  }

  // ---------------------------------------------------------------------
  // Four-digit decimal rendering
  // ---------------------------------------------------------------------

  function DigitChar(d: int): char
    requires 0 <= d <= 9
  {
    ('0' as int + d) as char
  }

  predicate IsDigitChar(c: char) { '0' <= c <= '9' }

  function DigitValue(c: char): int
    requires IsDigitChar(c)
  {
    c as int - '0' as int
  }

  /** The decimal rendering of a number drawn from [1000, 9999]: thousands,
      hundreds, tens and units digit. */
  function Decimal4(n: int): (r: string)
    requires 1000 <= n <= 9999
    ensures |r| == 4
    ensures forall i :: 0 <= i < 4 ==> IsDigitChar(r[i])
  {
    var d3 := n / 1000;
    var r3 := n - 1000 * d3;
    var d2 := r3 / 100;
    var r2 := r3 - 100 * d2;
    var d1 := r2 / 10;
    [DigitChar(d3), DigitChar(d2), DigitChar(d1), DigitChar(r2 - 10 * d1)]
  }

  /** Reads back four decimal digits. */
  function ParseDecimal4(s: string): int
    requires |s| == 4
    requires forall i :: 0 <= i < 4 ==> IsDigitChar(s[i])
  {
    DigitValue(s[0]) * 1000 + DigitValue(s[1]) * 100 + DigitValue(s[2]) * 10 + DigitValue(s[3])
  }

  /** Rendering then reading back yields the number. */
  lemma Decimal4RoundTrip(n: int)
    requires 1000 <= n <= 9999
    ensures ParseDecimal4(Decimal4(n)) == n
  {
    var d3 := n / 1000;
    var r3 := n - 1000 * d3;
    var d2 := r3 / 100;
    var r2 := r3 - 100 * d2;
    var d1 := r2 / 10;
    var s := Decimal4(n);
    assert DigitValue(s[0]) == d3 && DigitValue(s[1]) == d2;
    assert DigitValue(s[2]) == d1 && DigitValue(s[3]) == r2 - 10 * d1;
  }
}
