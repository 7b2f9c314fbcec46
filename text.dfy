/** The string operations the pipeline relies on: Python's `str.strip`, `int(...)` on a
    decimal literal, `str(int)`, `str.capitalize`, and the case-insensitive substring test
    behind the ORM's `icontains` lookup. */
module Text {
  import opened Wrappers

  /** The characters Python's `str.isspace()` accepts, and so the ones `str.strip()` removes. */
  predicate IsSpace(c: char) {
    var n := c as int;
    n == 0x20 || 0x09 <= n <= 0x0D || 0x1C <= n <= 0x1F || n == 0x85 || n == 0xA0
    || n == 0x1680 || 0x2000 <= n <= 0x200A || n == 0x2028 || n == 0x2029
    || n == 0x202F || n == 0x205F || n == 0x3000
  }

  predicate AllSpace(s: string) {
    forall i :: 0 <= i < |s| ==> IsSpace(s[i])
  }

  /** Neither end of `s` is whitespace: the strings `str.strip()` leaves as they are. */
  predicate Trimmed(s: string) {
    s == [] || (!IsSpace(s[0]) && !IsSpace(s[|s| - 1]))
  }

  /** Drops the leading whitespace. */
  function TrimStart(s: string): string {
    if |s| > 0 && IsSpace(s[0]) then TrimStart(s[1..]) else s
  }

  /** What `TrimStart` leaves is a suffix of `s`, the dropped part is all whitespace, and the
      suffix does not start with whitespace. */
  lemma {:induction false} TrimStartSpec(s: string)
    ensures |TrimStart(s)| <= |s| && TrimStart(s) == s[|s| - |TrimStart(s)|..]
    ensures AllSpace(s[..|s| - |TrimStart(s)|])
    ensures TrimStart(s) == [] || !IsSpace(TrimStart(s)[0])
  {
    if |s| > 0 && IsSpace(s[0]) {
      TrimStartSpec(s[1..]);
      var r := TrimStart(s[1..]);
      assert s[..|s| - |r|] == [s[0]] + s[1..][..|s| - 1 - |r|];
    }
  }

  /** Drops the trailing whitespace. */
  function TrimEnd(s: string): string {
    if |s| > 0 && IsSpace(s[|s| - 1]) then TrimEnd(s[..|s| - 1]) else s
  }

  /** What `TrimEnd` leaves is a prefix of `s`, the dropped part is all whitespace, and the
      prefix does not end with whitespace. */
  lemma {:induction false} TrimEndSpec(s: string)
    ensures |TrimEnd(s)| <= |s| && TrimEnd(s) == s[..|TrimEnd(s)|]
    ensures AllSpace(s[|TrimEnd(s)|..])
    ensures TrimEnd(s) == [] || !IsSpace(TrimEnd(s)[|TrimEnd(s)| - 1])
  {
    if |s| > 0 && IsSpace(s[|s| - 1]) {
      TrimEndSpec(s[..|s| - 1]);
      var r := TrimEnd(s[..|s| - 1]);
      assert s[|r|..] == s[..|s| - 1][|r|..] + [s[|s| - 1]];
    }
  }

  /** Python's `str.strip()` with no argument. */
  function Strip(s: string): string {
    TrimEnd(TrimStart(s))
  }

  /** `Strip(s)` is the middle of `s` once the whitespace at both ends is cut off, and it has
      no whitespace at either end. */
  lemma StripSpec(s: string)
    ensures exists i, j :: 0 <= i <= j <= |s| && Strip(s) == s[i..j]
                           && AllSpace(s[..i]) && AllSpace(s[j..])
    ensures Trimmed(Strip(s))
  {
    var t := TrimStart(s);
    var e := TrimEnd(t);
    TrimStartSpec(s);
    TrimEndSpec(t);
    var i := |s| - |t|;
    var j := i + |e|;
    var r := Strip(s);
    assert r == e;
    assert t == s[i..];
    assert e == t[..|e|] == s[i..j];
    assert AllSpace(s[..i]);
    assert s[j..] == t[|e|..];
    assert AllSpace(s[j..]);
    assert 0 <= i <= j <= |s| && r == s[i..j] && AllSpace(s[..i]) && AllSpace(s[j..]);
    if r != [] {
      assert r[0] == t[0];
    }
  }

  /** A string without whitespace at its ends is its own strip. */
  lemma StripTrimmed(s: string)
    requires Trimmed(s)
    ensures Strip(s) == s
  {
  }

  /** A trailing whitespace character after a stripped non-empty string is stripped away. */
  lemma StripTrailingSpace(p: string, c: char)
    requires p != [] && Trimmed(p) && IsSpace(c)
    ensures Strip(p + [c]) == p
  {
    var s := p + [c];
    assert s[0] == p[0];
    assert TrimStart(s) == s;
    assert s[..|s| - 1] == p;
    assert TrimEnd(s) == TrimEnd(p);
    StripTrimmed(p);
  }

  /** Stripping twice is stripping once. */
  lemma StripIdempotent(s: string)
    ensures Strip(Strip(s)) == Strip(s)
  {
    StripSpec(s);
    StripTrimmed(Strip(s));
  }

  /** The text before the first `sep`, or all of `s` when `sep` does not occur: Python's
      `s.split(sep)[0]`. */
  function BeforeFirst(s: string, sep: char): (p: string)
    ensures |p| <= |s| && p == s[..|p|]
    ensures sep !in p
    ensures |p| < |s| ==> s[|p|] == sep
  {
    if s == [] || s[0] == sep then [] else [s[0]] + BeforeFirst(s[1..], sep)
  }

  /** `split(sep)[0]` of a text `p` that has no `sep`, followed by `sep` and anything, is `p`. */
  lemma BeforeFirstOf(p: string, sep: char, rest: string)
    requires sep !in p
    ensures BeforeFirst(p + [sep] + rest, sep) == p
  {
    var s := p + [sep] + rest;
    var q := BeforeFirst(s, sep);
    assert forall i :: 0 <= i < |p| ==> s[i] == p[i];
    assert s[|p|] == sep;
    if |q| < |p| {
      assert false;
    } else if |q| > |p| {
      assert false;
    }
  }

  predicate IsDigit(c: char) {
    '0' <= c <= '9'
  }

  predicate AllDigits(s: string) {
    forall i :: 0 <= i < |s| ==> IsDigit(s[i])
  }

  function DigitValue(c: char): (d: nat)
    requires IsDigit(c)
    ensures d < 10
  {
    c as int - '0' as int
  }

  function DigitChar(d: nat): (c: char)
    requires d < 10
    ensures IsDigit(c) && DigitValue(c) == d
  {
    ('0' as int + d) as char
  }

  /** The value of a run of decimal digits, most significant first. */
  function DigitsValue(s: string): nat
    requires AllDigits(s)
  {
    if s == [] then 0 else DigitsValue(s[..|s| - 1]) * 10 + DigitValue(s[|s| - 1])
  }

  /** The decimal form of `n`, without leading zeros. */
  function NatToString(n: nat): (r: string)
    ensures |r| > 0 && AllDigits(r)
  {
    if n < 10 then [DigitChar(n)] else NatToString(n / 10) + [DigitChar(n % 10)]
  }

  /** Python's `str(i)` for an integer. */
  function IntToString(i: int): string {
    if i < 0 then "-" + NatToString(-i) else NatToString(i)
  }

  /** A decimal literal as Python's `int(...)` reads it once the surrounding whitespace is
      gone: an optional sign and at least one digit. */
  predicate IsIntLiteral(t: string) {
    if |t| > 0 && (t[0] == '-' || t[0] == '+') then |t| > 1 && AllDigits(t[1..])
    else |t| > 0 && AllDigits(t)
  }

  /** Python's `int(s)` on a string: the value of the literal left after stripping, or
      `None` where `int` raises `ValueError`. */
  function ParseInt(s: string): (r: Option<int>)
    ensures r.Some? <==> IsIntLiteral(Strip(s))
  {
    var t := Strip(s);
    if !IsIntLiteral(t) then None
    else if t[0] == '-' then Some(0 - DigitsValue(t[1..]) as int)
    else if t[0] == '+' then Some(DigitsValue(t[1..]))
    else Some(DigitsValue(t))
  }

  /** Reading back the digits of `n` gives `n`. */
  lemma {:induction false} NatToStringValue(n: nat)
    ensures DigitsValue(NatToString(n)) == n
  {
    if n >= 10 {
      NatToStringValue(n / 10);
      var s := NatToString(n);
      assert s[..|s| - 1] == NatToString(n / 10);
    }
  }

  /** `int(str(i)) == i`: printing an integer and parsing it back is the identity. */
  lemma IntToStringRoundTrip(i: int)
    ensures ParseInt(IntToString(i)) == Some(i)
  {
    var s := IntToString(i);
    var d := NatToString(if i < 0 then -i else i);
    assert s[|s| - 1] == d[|d| - 1];
    assert Trimmed(s);
    StripTrimmed(s);
    NatToStringValue(if i < 0 then -i else i);
    if i < 0 {
      assert s[1..] == d;
    } else {
      assert s == d;
    }
  }

  /** ASCII upper case to lower case; every other character is left alone. */
  function LowerChar(c: char): char {
    if 'A' <= c <= 'Z' then (c as int + 32) as char else c
  }

  /** ASCII lower case to upper case; every other character is left alone. */
  function UpperChar(c: char): char {
    if 'a' <= c <= 'z' then (c as int - 32) as char else c
  }

  function Lower(s: string): (r: string)
    ensures |r| == |s| && forall i :: 0 <= i < |s| ==> r[i] == LowerChar(s[i])
  {
    seq(|s|, i requires 0 <= i < |s| => LowerChar(s[i]))
  }

  /** Python's `str.capitalize()`: the first character in upper case, the rest in lower case. */
  function Capitalize(s: string): (r: string)
    ensures |r| == |s|
    ensures |s| > 0 ==> r[0] == UpperChar(s[0]) && r[1..] == Lower(s[1..])
  {
    if s == [] then [] else [UpperChar(s[0])] + Lower(s[1..])
  }

  /** `needle` occurs in `hay` starting at index `i`. */
  predicate OccursAt(needle: string, hay: string, i: int) {
    0 <= i && i + |needle| <= |hay| && hay[i..i + |needle|] == needle
  }

  /** Python's `needle in hay` on strings. */
  function Contains(hay: string, needle: string): (r: bool)
    ensures r <==> exists i :: OccursAt(needle, hay, i)
  {
    if |needle| > |hay| then
      assert forall i :: !OccursAt(needle, hay, i);
      false
    else if hay[..|needle|] == needle then
      assert OccursAt(needle, hay, 0);
      true
    else
      var r := Contains(hay[1..], needle);
      assert forall i :: OccursAt(needle, hay[1..], i) <==> OccursAt(needle, hay, i + 1) by {
        forall i ensures OccursAt(needle, hay[1..], i) <==> OccursAt(needle, hay, i + 1) {
          if 0 <= i && i + |needle| <= |hay| - 1 {
            assert hay[1..][i..i + |needle|] == hay[i + 1..i + 1 + |needle|];
          }
        }
      }
      assert !OccursAt(needle, hay, 0);
      assert (exists i :: OccursAt(needle, hay, i)) ==> exists i :: OccursAt(needle, hay[1..], i) by {
        if exists i :: OccursAt(needle, hay, i) {
          var i :| OccursAt(needle, hay, i);
          assert OccursAt(needle, hay[1..], i - 1);
        }
      }
      r
  }

  /** The ORM's `icontains` lookup: `needle` occurs in `hay` once both are folded to lower case. */
  predicate IContains(hay: string, needle: string) {
    Contains(Lower(hay), Lower(needle))
  }

  /** A name that contains `f + g`, in any case, contains `f`: lengthening a filter never
      selects a row the shorter filter leaves out. */
  lemma IContainsPrefix(hay: string, f: string, g: string)
    ensures IContains(hay, f + g) ==> IContains(hay, f)
  {
    if IContains(hay, f + g) {
      var h := Lower(hay);
      var n := Lower(f + g);
      assert n[..|f|] == Lower(f);
      var i :| OccursAt(n, h, i);
      assert h[i..i + |f|] == h[i..i + |n|][..|f|];
      assert OccursAt(Lower(f), h, i);
    }
  }

  /** The empty filter matches every string. */
  lemma IContainsEmpty(hay: string)
    ensures IContains(hay, "")
  {
    assert OccursAt([], Lower(hay), 0);
  }

  /** Case does not matter to `icontains`: a string matches any upper/lower-case variant of any
      of its substrings. */
  lemma IContainsSubstring(hay: string, i: nat, j: nat, needle: string)
    requires i <= j <= |hay|
    requires |needle| == j - i
    requires forall k :: 0 <= k < |needle| ==> LowerChar(needle[k]) == LowerChar(hay[i + k])
    ensures IContains(hay, needle)
  {
    assert OccursAt(Lower(needle), Lower(hay), i);
  }
}
