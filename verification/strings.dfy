/** The handful of Python string operations the checker relies on:
    `strip`, `rstrip(c)`, `lower`, `upper`, `split()`, `join`, `in`,
    `startswith`, slicing and `replace(c, "")`. */
module Strings {

  /** Python's `str.isspace()` on the ASCII range: tab through carriage
      return, the four information separators and the space. */
  predicate IsSpace(c: char) {
    ('\t' <= c <= '\r') || ('\U{1C}' <= c <= ' ')
  }

  predicate NoSpace(s: string) {
    forall i :: 0 <= i < |s| ==> !IsSpace(s[i])
  }

  predicate AllSpace(s: string) {
    forall i :: 0 <= i < |s| ==> IsSpace(s[i])
  }

  /** A string with no whitespace at either end, as `strip()` leaves it. */
  predicate IsTrimmed(s: string) {
    s == "" || (!IsSpace(s[0]) && !IsSpace(s[|s| - 1]))
  }

  /** `s` is whitespace, then `r` starting at offset `k`, then whitespace. */
  ghost predicate PaddedAt(s: string, r: string, k: int) {
    0 <= k <= |s| - |r| && s[k..k + |r|] == r && AllSpace(s[..k]) && AllSpace(s[k + |r|..])
  }

  /** `s` is `r` with only whitespace added around it. */
  ghost predicate PaddedBy(s: string, r: string) {
    exists k :: PaddedAt(s, r, k)
  }

  /** Python's `str.lstrip()`. */
  function TrimStart(s: string): (r: string)
    ensures |r| <= |s|
    ensures r == "" || !IsSpace(r[0])
  {
    if |s| > 0 && IsSpace(s[0]) then TrimStart(s[1..]) else s
  }

  /** Python's `str.strip()`: whitespace is dropped from the front, then
      from the back, until neither end is whitespace. */
  function Trim(s: string): (r: string)
    ensures IsTrimmed(r)
    ensures |r| <= |s|
  {
    if |s| > 0 && IsSpace(s[0]) then Trim(s[1..])
    else if |s| > 0 && IsSpace(s[|s| - 1]) then Trim(s[..|s| - 1])
    else s
  }

  /** JavaScript's whitespace on the ASCII range, as `String.prototype.trim`
      sees it: tab through carriage return and the space. Unlike Python's
      `isspace`, the information separators U+001C to U+001F are not
      whitespace. */
  predicate IsJsSpace(c: char) {
    ('\t' <= c <= '\r') || c == ' '
  }

  /** A string with no JavaScript whitespace at either end. */
  predicate IsJsTrimmed(s: string) {
    s == "" || (!IsJsSpace(s[0]) && !IsJsSpace(s[|s| - 1]))
  }

  /** JavaScript's `s.trim()`. */
  function JsTrim(s: string): (r: string)
    ensures IsJsTrimmed(r)
    ensures |r| <= |s|
  {
    if |s| > 0 && IsJsSpace(s[0]) then JsTrim(s[1..])
    else if |s| > 0 && IsJsSpace(s[|s| - 1]) then JsTrim(s[..|s| - 1])
    else s
  }

  /** No character of `s` is an information separator. */
  predicate NoSeparator(s: string) {
    forall i :: 0 <= i < |s| ==> !('\U{1C}' <= s[i] <= '\U{1F}')
  }

  /** Off the information separators the two whitespace sets agree, and so
      do JavaScript's `trim()` and Python's `strip()`. */
  lemma {:induction false} JsTrimAgreesOffSeparators(s: string)
    requires NoSeparator(s)
    ensures JsTrim(s) == Trim(s)
  {
    if |s| > 0 && IsSpace(s[0]) {
      assert NoSeparator(s[1..]) by {
        assert forall i :: 0 <= i < |s| - 1 ==> s[1..][i] == s[i + 1];
      }
      JsTrimAgreesOffSeparators(s[1..]);
    } else if |s| > 0 && IsSpace(s[|s| - 1]) {
      assert NoSeparator(s[..|s| - 1]) by {
        assert forall i :: 0 <= i < |s| - 1 ==> s[..|s| - 1][i] == s[i];
      }
      JsTrimAgreesOffSeparators(s[..|s| - 1]);
    }
  }

  /** A leading information separator is where the two differ: `strip()`
      drops it, `trim()` keeps it. */
  lemma SeparatorKeptByJsTrim()
    ensures JsTrim("\U{1C}Foo") == "\U{1C}Foo"
    ensures Trim("\U{1C}Foo") == "Foo"
  {
    assert "\U{1C}Foo"[1..] == "Foo";
  }

  /** Whitespace added in front keeps a padding. */
  lemma PaddedCons(s: string, r: string, k: int)
    requires |s| > 0 && IsSpace(s[0]) && PaddedAt(s[1..], r, k)
    ensures PaddedAt(s, r, k + 1)
  {
    var t := s[1..];
    assert s[k + 1..k + 1 + |r|] == t[k..k + |r|];
    assert s[..k + 1] == [s[0]] + t[..k];
    assert s[k + 1 + |r|..] == t[k + |r|..];
  }

  /** Whitespace added at the back keeps a padding. */
  lemma PaddedSnoc(s: string, r: string, k: int)
    requires |s| > 0 && IsSpace(s[|s| - 1]) && PaddedAt(s[..|s| - 1], r, k)
    ensures PaddedAt(s, r, k)
  {
    var t := s[..|s| - 1];
    assert s[k..k + |r|] == t[k..k + |r|];
    assert s[..k] == t[..k];
    assert s[k + |r|..] == t[k + |r|..] + [s[|s| - 1]];
  }

  /** `strip()` removes only surrounding whitespace. */
  lemma {:induction false} TrimPadded(s: string)
    ensures PaddedBy(s, Trim(s))
  {
    var r := Trim(s);
    if |s| > 0 && IsSpace(s[0]) {
      TrimPadded(s[1..]);
      var k :| PaddedAt(s[1..], r, k);
      PaddedCons(s, r, k);
    } else if |s| > 0 && IsSpace(s[|s| - 1]) {
      TrimPadded(s[..|s| - 1]);
      var k :| PaddedAt(s[..|s| - 1], r, k);
      PaddedSnoc(s, r, k);
    } else {
      assert PaddedAt(s, r, 0);
    }
  }

  /** `strip()` yields the empty string exactly on blank input. */
  lemma {:induction false} TrimEmptyIffBlank(s: string)
    ensures Trim(s) == "" <==> AllSpace(s)
  {
    if |s| > 0 && IsSpace(s[0]) {
      TrimEmptyIffBlank(s[1..]);
      assert AllSpace(s) <==> AllSpace(s[1..]) by {
        assert forall i :: 0 < i < |s| ==> s[i] == s[1..][i - 1];
      }
    } else if |s| > 0 && IsSpace(s[|s| - 1]) {
      TrimEmptyIffBlank(s[..|s| - 1]);
      assert AllSpace(s) <==> AllSpace(s[..|s| - 1]) by {
        assert forall i :: 0 <= i < |s| - 1 ==> s[i] == s[..|s| - 1][i];
      }
    } else if |s| > 0 {
      assert !IsSpace(s[0]);
    }
  }

  /** Stripping a string that is already stripped changes nothing. */
  lemma TrimOfTrimmed(s: string)
    requires IsTrimmed(s)
    ensures Trim(s) == s
  {
  }

  lemma TrimIdempotent(s: string)
    ensures Trim(Trim(s)) == Trim(s)
  {
    TrimOfTrimmed(Trim(s));
  }

  function LowerChar(c: char): char {
    if 'A' <= c <= 'Z' then (c as int + 32) as char else c
  }

  function UpperChar(c: char): char {
    if 'a' <= c <= 'z' then (c as int - 32) as char else c
  }

  /** Python's `str.lower()` on ASCII letters. */
  function Lower(s: string): (r: string)
    ensures |r| == |s|
    ensures forall i :: 0 <= i < |s| ==> r[i] == LowerChar(s[i])
  {
    seq(|s|, i requires 0 <= i < |s| => LowerChar(s[i]))
  }

  /** Python's `str.upper()` on ASCII letters. */
  function Upper(s: string): (r: string)
    ensures |r| == |s|
    ensures forall i :: 0 <= i < |s| ==> r[i] == UpperChar(s[i])
  {
    seq(|s|, i requires 0 <= i < |s| => UpperChar(s[i]))
  }

  /** `sep.join(parts)`. */
  function Join(parts: seq<string>, sep: string): string {
    if |parts| == 0 then ""
    else if |parts| == 1 then parts[0]
    else parts[0] + sep + Join(parts[1..], sep)
  }

  /** Joining non-empty stripped words with single spaces gives a stripped
      text, empty exactly when there are no words. */
  lemma {:induction false} JoinWordsTrimmed(parts: seq<string>)
    requires forall i :: 0 <= i < |parts| ==> parts[i] != "" && IsTrimmed(parts[i])
    ensures IsTrimmed(Join(parts, " "))
    ensures Join(parts, " ") == "" <==> |parts| == 0
    ensures |parts| > 0 ==> Join(parts, " ")[0] == parts[0][0]
  {
    if |parts| > 1 {
      JoinWordsTrimmed(parts[1..]);
      var rest := Join(parts[1..], " ");
      var j := parts[0] + " " + rest;
      assert j[|j| - 1] == rest[|rest| - 1];
    }
  }

  /** Length of the leading run of non-space characters. */
  function WordEnd(s: string): (n: nat)
    ensures n <= |s|
    ensures NoSpace(s[..n])
    ensures n < |s| ==> IsSpace(s[n])
    ensures |s| > 0 && !IsSpace(s[0]) ==> n > 0
  {
    if |s| == 0 || IsSpace(s[0]) then 0
    else
      var n := WordEnd(s[1..]);
      assert s[..n + 1] == [s[0]] + s[1..][..n];
      n + 1
  }

  /** Python's `str.split()` with no separator: the maximal runs of
      non-whitespace characters, in order. */
  function Words(s: string): (r: seq<string>)
    ensures forall i :: 0 <= i < |r| ==> IsWord(r[i])
    decreases |s|
  {
    var t := TrimStart(s);
    if t == "" then []
    else
      var n := WordEnd(t);
      [t[..n]] + Words(t[n..])
  }

  /** A non-empty run of non-whitespace characters. */
  predicate IsWord(w: string) {
    w != "" && NoSpace(w)
  }

  /** `t` occurs in `s` as a contiguous block. */
  ghost predicate IsInfix(t: string, s: string) {
    exists i :: OccursAt(t, s, i)
  }

  ghost predicate OccursAt(t: string, s: string, i: int) {
    0 <= i <= |s| - |t| && s[i..i + |t|] == t
  }

  /** Python's substring test `t in s`. */
  function Contains(s: string, t: string): bool {
    |t| <= |s| && (s[..|t|] == t || Contains(s[1..], t))
  }

  lemma {:induction false} ContainsIsInfix(s: string, t: string)
    ensures Contains(s, t) <==> IsInfix(t, s)
  {
    if |t| <= |s| {
      if s[..|t|] == t {
        assert OccursAt(t, s, 0);
      } else {
        ContainsIsInfix(s[1..], t);
        if IsInfix(t, s) {
          var i :| OccursAt(t, s, i);
          assert i != 0;
          assert s[1..][i - 1..i - 1 + |t|] == t;
          assert OccursAt(t, s[1..], i - 1);
        }
        if IsInfix(t, s[1..]) {
          var i :| OccursAt(t, s[1..], i);
          assert s[i + 1..i + 1 + |t|] == t;
          assert OccursAt(t, s, i + 1);
        }
      }
    }
  }

  /** Every string contains itself. */
  lemma ContainsSelf(s: string)
    ensures Contains(s, s)
  {
  }

  /** Python's `s.startswith(p)`. */
  predicate StartsWith(s: string, p: string) {
    |p| <= |s| && s[..|p|] == p
  }

  /** Python's `s[:n]` for a non-negative `n`. */
  function Take(s: string, n: nat): (r: string)
    ensures |r| == if n <= |s| then n else |s|
    ensures r == s[..|r|]
  {
    if n <= |s| then s[..n] else s
  }

  /** Python's `s.rstrip(c)` for a single character. */
  function TrimEndChar(s: string, c: char): (r: string)
    ensures |r| <= |s| && r == s[..|r|]
    ensures r == "" || r[|r| - 1] != c
    ensures forall i :: |r| <= i < |s| ==> s[i] == c
  {
    if |s| > 0 && s[|s| - 1] == c then TrimEndChar(s[..|s| - 1], c) else s
  }

  /** Python's `s.replace(c, "")` for a single character. */
  function Without(s: string, c: char): (r: string)
    ensures c !in r
    ensures |r| <= |s|
    ensures c !in s ==> r == s
  {
    if |s| == 0 then ""
    else if s[0] == c then Without(s[1..], c)
    else [s[0]] + Without(s[1..], c)
  }
}
