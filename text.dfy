/**
 * The few Python string operations the handler relies on: `str.isspace`,
 * `rstrip`/`strip`, `split(sep)[1]`, `",".join`, `str(n)` for a
 * non-negative integer and `lower` as far as ASCII letters go.
 */
module Text {
  import opened Wrappers

  /** The characters Python's `str.isspace()` holds for. */
  const Whitespace: set<char> := {
    ' ', '\t', '\n', '\U{0b}', '\U{0c}', '\r', '\U{1c}', '\U{1d}', '\U{1e}', '\U{1f}',
    '\U{85}', '\U{a0}', '\U{1680}',
    '\U{2000}', '\U{2001}', '\U{2002}', '\U{2003}', '\U{2004}', '\U{2005}',
    '\U{2006}', '\U{2007}', '\U{2008}', '\U{2009}', '\U{200a}',
    '\U{2028}', '\U{2029}', '\U{202f}', '\U{205f}', '\U{3000}'
  }

  predicate IsSpace(c: char) {
    c in Whitespace
  }

  predicate AllSpace(s: string) {
    forall i :: 0 <= i < |s| ==> IsSpace(s[i])
  }

  /** `s.rstrip()`: the longest prefix of `s` that does not end in whitespace. */
  function RStrip(s: string): (r: string)
    ensures r <= s
    ensures AllSpace(s[|r|..])
    ensures r == [] || !IsSpace(r[|r| - 1])
  {
    if s == [] || !IsSpace(s[|s| - 1]) then s
    else
      var r := RStrip(s[..|s| - 1]);
      assert s[|r|..] == s[..|s| - 1][|r|..] + [s[|s| - 1]];
      r
  }

  /** `s.lstrip()`: the longest suffix of `s` that does not start with whitespace. */
  function LStrip(s: string): (r: string)
    ensures |r| <= |s| && r == s[|s| - |r|..]
    ensures AllSpace(s[..|s| - |r|])
    ensures r == [] || !IsSpace(r[0])
  {
    if s == [] || !IsSpace(s[0]) then s
    else
      var r := LStrip(s[1..]);
      assert s[..|s| - |r|] == [s[0]] + s[1..][..|s[1..]| - |r|];
      r
  }

  /** `s.strip()`. */
  function Strip(s: string): string {
    LStrip(RStrip(s))
  }

  /**
   * `r` is the part of `s` that starts at `a`, everything around it in `s`
   * is whitespace, and `r` neither starts nor ends with whitespace.
   */
  ghost predicate TrimmedAt(s: string, r: string, a: nat) {
    a + |r| <= |s| && r == s[a..a + |r|]
    && AllSpace(s[..a]) && AllSpace(s[a + |r|..])
    && (r == [] || (!IsSpace(r[0]) && !IsSpace(r[|r| - 1])))
  }

  /** Stripping removes only whitespace, from both ends, and leaves none there. */
  lemma StripSpec(s: string)
    ensures exists a :: TrimmedAt(s, Strip(s), a)
  {
    var m := RStrip(s);
    var r := LStrip(m);
    assert m == s[..|m|];
    TrimmedParts(s, m, r);
    assert Strip(s) == r;
  }

  /** A right-stripped prefix `m` of `s`, left-stripped in turn to `r`, lies trimmed in `s`. */
  lemma TrimmedParts(s: string, m: string, r: string)
    requires |m| <= |s| && m == s[..|m|] && AllSpace(s[|m|..]) && (m == [] || !IsSpace(m[|m| - 1]))
    requires |r| <= |m| && r == m[|m| - |r|..] && AllSpace(m[..|m| - |r|]) && (r == [] || !IsSpace(r[0]))
    ensures TrimmedAt(s, r, |m| - |r|)
  {
    var a := |m| - |r|;
    assert r == s[a..a + |r|];
    assert s[..a] == m[..a];
    assert r != [] ==> r[|r| - 1] == m[|m| - 1];
  }

  /** A space in front of a string that does not end in whitespace is stripped away. */
  lemma StripLeadingSpace(t: string)
    requires t == [] || !IsSpace(t[|t| - 1])
    ensures Strip(" " + t) == Strip(t)
  {
    var s := " " + t;
    assert IsSpace(s[0]);
    if t == [] {
      assert RStrip(s) == RStrip([]);
    } else {
      assert RStrip(s) == s by {
        assert s[|s| - 1] == t[|t| - 1];
      }
      assert RStrip(t) == t;
      assert LStrip(s) == LStrip(t) by {
        assert s[1..] == t;
      }
    }
  }

  /** A string already free of surrounding whitespace is left as it is. */
  lemma StripTrimmed(s: string)
    requires s == [] || (!IsSpace(s[0]) && !IsSpace(s[|s| - 1]))
    ensures Strip(s) == s
  {
  }

  predicate OccursAt(s: string, pat: string, i: nat) {
    i + |pat| <= |s| && s[i..i + |pat|] == pat
  }

  /** `s.find(pat)`: the first position at which `pat` occurs in `s`. */
  function Find(s: string, pat: string): (r: Option<nat>)
    ensures r.Some? ==> OccursAt(s, pat, r.value)
    ensures forall i :: 0 <= i < (if r.Some? then r.value else |s| + 1) ==> !OccursAt(s, pat, i)
    decreases |s|
  {
    if |s| < |pat| then
      assert forall i :: 0 <= i ==> !OccursAt(s, pat, i);
      None
    else if s[..|pat|] == pat then Some(0)
    else
      var r := Find(s[1..], pat);
      forall i | 1 <= i ensures OccursAt(s, pat, i) <==> OccursAt(s[1..], pat, i - 1) {
        OccursAtTail(s, pat, i - 1);
      }
      assert !OccursAt(s, pat, 0) by { assert s[0..|pat|] == s[..|pat|]; }
      if r.Some? then Some(r.value + 1) else None
  }

  /** A character that cannot start the pattern, put in front, adds no occurrence. */
  lemma NoOccurrenceAfter(c: char, t: string, pat: string)
    requires pat != [] && pat[0] != c
    requires forall i :: 0 <= i <= |t| ==> !OccursAt(t, pat, i)
    ensures forall i :: 0 <= i <= |[c] + t| ==> !OccursAt([c] + t, pat, i)
  {
    var s := [c] + t;
    assert s[1..] == t;
    forall i | 0 <= i <= |s| ensures !OccursAt(s, pat, i) {
      if i == 0 {
        assert i + |pat| <= |s| ==> s[i..i + |pat|][0] == c;
      } else {
        OccursAtTail(s, pat, i - 1);
      }
    }
  }

  lemma OccursAtTail(s: string, pat: string, i: nat)
    requires s != []
    ensures OccursAt(s, pat, i + 1) <==> OccursAt(s[1..], pat, i)
  {
    if i + 1 + |pat| <= |s| {
      assert s[i + 1..i + 1 + |pat|] == s[1..][i..i + |pat|];
    }
  }

  /**
   * `s.split(sep)[1]` for a non-empty separator: the text between the first
   * and the second occurrence of `sep` (or to the end), and None where
   * Python raises IndexError because `sep` does not occur.
   */
  function SecondField(s: string, sep: string): (r: Option<string>)
    requires sep != []
  {
    match Find(s, sep)
    case None => None
    case Some(i) =>
      var rest := s[i + |sep|..];
      match Find(rest, sep)
      case None => Some(rest)
      case Some(j) => Some(rest[..j])
  }

  /** The second field is missing exactly when the separator does not occur. */
  lemma SecondFieldMissing(s: string, sep: string)
    requires sep != []
    ensures SecondField(s, sep).None? <==> forall i :: 0 <= i <= |s| ==> !OccursAt(s, sep, i)
  {
  }

  /** `sep` occurs nowhere in `x`, not even running on into a `sep` that follows `x`. */
  predicate SepFree(x: string, sep: string) {
    forall i :: 0 <= i < |x| ==> !OccursAt(x + sep, sep, i)
  }

  /** After a separator-free prefix, the first occurrence of `sep` is the one that follows it. */
  lemma FirstAfter(prefix: string, sep: string, tail: string)
    requires sep != [] && SepFree(prefix, sep)
    ensures Find(prefix + sep + tail, sep) == Some(|prefix|)
  {
    var s := prefix + sep + tail;
    var p := |prefix|;
    assert OccursAt(s, sep, p) by { assert s[p..p + |sep|] == sep; }
    forall i | 0 <= i < p ensures !OccursAt(s, sep, i) {
      assert !OccursAt(prefix + sep, sep, i);
      assert s[i..i + |sep|] == (prefix + sep)[i..i + |sep|];
    }
  }

  /** A separator-free string holds no occurrence of the separator at all. */
  lemma SepFreeNone(x: string, sep: string)
    requires sep != [] && SepFree(x, sep)
    ensures forall i :: 0 <= i <= |x| ==> !OccursAt(x, sep, i)
  {
    forall i | 0 <= i <= |x| ensures !OccursAt(x, sep, i) {
      if OccursAt(x, sep, i) {
        assert (x + sep)[i..i + |sep|] == x[i..i + |sep|];
        assert OccursAt(x + sep, sep, i);
      }
    }
  }

  /** A reference built as prefix, separator, field (with neither holding the separator) yields the field. */
  lemma {:induction false} SecondFieldOfConcat(prefix: string, sep: string, field: string)
    requires sep != []
    requires forall i :: 0 <= i < |prefix| ==> !OccursAt(prefix + sep, sep, i)
    requires forall i :: 0 <= i <= |field| ==> !OccursAt(field, sep, i)
    ensures SecondField(prefix + sep + field, sep) == Some(field)
  {
    var s := prefix + sep + field;
    FirstAfter(prefix, sep, field);
    assert s[|prefix| + |sep|..] == field;
  }

  /** The second field stops at the second occurrence of the separator, whatever follows it. */
  lemma SecondFieldBetween(prefix: string, sep: string, field: string, rest: string)
    requires sep != [] && SepFree(prefix, sep) && SepFree(field, sep)
    ensures SecondField(prefix + sep + field + sep + rest, sep) == Some(field)
  {
    var s := prefix + sep + field + sep + rest;
    var tail := field + sep + rest;
    assert s == prefix + sep + tail;
    FirstAfter(prefix, sep, tail);
    assert s[|prefix| + |sep|..] == tail;
    FirstAfter(field, sep, rest);
    assert tail[..|field|] == field;
  }

  /** `",".join(xs)`. */
  function Join(xs: seq<string>, sep: char): string {
    if xs == [] then ""
    else if |xs| == 1 then xs[0]
    else xs[0] + [sep] + Join(xs[1..], sep)
  }

  /** `s.split(sep)` for a one-character separator. */
  function Split(s: string, sep: char): (r: seq<string>)
    ensures |r| >= 1
    decreases |s|
  {
    if s == [] then [""]
    else if s[0] == sep then [""] + Split(s[1..], sep)
    else
      var t := Split(s[1..], sep);
      [[s[0]] + t[0]] + t[1..]
  }

  lemma {:induction false} SplitNoSep(s: string, rest: string, sep: char)
    requires sep !in s
    ensures Split(s + [sep] + rest, sep) == [s] + Split(rest, sep)
    ensures Split(s, sep) == [s]
    decreases |s|
  {
    if s != [] {
      SplitNoSep(s[1..], rest, sep);
      assert (s + [sep] + rest)[1..] == s[1..] + [sep] + rest;
      assert [s[0]] + s[1..] == s;
    }
  }

  /** Joining then splitting gives the list back when no item holds the separator. */
  lemma {:induction false} SplitJoin(xs: seq<string>, sep: char)
    requires xs != []
    requires forall i :: 0 <= i < |xs| ==> sep !in xs[i]
    ensures Split(Join(xs, sep), sep) == xs
  {
    if |xs| == 1 {
      SplitNoSep(xs[0], "", sep);
    } else {
      SplitJoin(xs[1..], sep);
      SplitNoSep(xs[0], Join(xs[1..], sep), sep);
    }
  }

  predicate IsDigit(c: char) { '0' <= c <= '9' }

  /** `str(n)` for a non-negative integer: its decimal digits, without leading zeros. */
  function NatToString(n: nat): (r: string)
    ensures |r| >= 1
    ensures forall i :: 0 <= i < |r| ==> IsDigit(r[i])
    ensures r[0] == '0' ==> n == 0
  {
    var d := ['0' + (n % 10) as char];
    if n < 10 then d else NatToString(n / 10) + d
  }

  /** The number a string of decimal digits denotes. */
  function DigitsValue(s: string): nat
    requires forall i :: 0 <= i < |s| ==> IsDigit(s[i])
  {
    if s == [] then 0
    else
      assert IsDigit(s[|s| - 1]);
      10 * DigitsValue(s[..|s| - 1]) + (s[|s| - 1] as int - '0' as int)
  }

  /** Reading the decimal rendering back gives the number. */
  lemma {:induction false} NatToStringValue(n: nat)
    ensures DigitsValue(NatToString(n)) == n
  {
    if n >= 10 {
      NatToStringValue(n / 10);
      var s := NatToString(n);
      assert s[..|s| - 1] == NatToString(n / 10);
    }
  }

  /** `c.lower()` on ASCII letters; other characters are returned unchanged. */
  function AsciiLower(s: string): (r: string)
    ensures |r| == |s|
    ensures forall i :: 0 <= i < |s| ==>
      r[i] == (if 'A' <= s[i] <= 'Z' then s[i] - 'A' + 'a' else s[i])
  {
    if s == [] then []
    else [if 'A' <= s[0] <= 'Z' then s[0] - 'A' + 'a' else s[0]] + AsciiLower(s[1..])
  }
}
