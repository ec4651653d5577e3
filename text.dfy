/** The optional value used throughout the model. */
module Wrappers {
  datatype Option<T> = None | Some(value: T)
}

/**
 * The handful of Python `str` operations the triage workflow relies on:
 * `strip()`, the `in` operator, `find`, `split`, `join`, and the decimal
 * rendering of integers. Strings are sequences of Unicode scalar values,
 * which is what Python indexes and slices.
 */
module Text {
  import opened Wrappers

  /** Python's `str.isspace()` for a single character. */
  predicate IsSpace(c: char) {
    || ('\t' <= c <= '\r')
    || ('\U{1C}' <= c <= ' ')
    || c == '\U{85}' || c == '\U{A0}' || c == '\U{1680}'
    || ('\U{2000}' <= c <= '\U{200A}')
    || c == '\U{2028}' || c == '\U{2029}' || c == '\U{202F}' || c == '\U{205F}' || c == '\U{3000}'
  }

  ghost predicate AllSpace(s: string) {
    forall i :: 0 <= i < |s| ==> IsSpace(s[i])
  }

  /** Number of whitespace characters at the front of `s`. */
  function LeadingSpace(s: string): (n: nat)
    ensures n <= |s|
    ensures AllSpace(s[..n])
    ensures n < |s| ==> !IsSpace(s[n])
  {
    if |s| == 0 || !IsSpace(s[0]) then 0
    else
      var m := LeadingSpace(s[1..]);
      assert s[1..][..m] == s[1..m + 1];
      1 + m
  }

  /** Number of whitespace characters at the back of `s`. */
  function TrailingSpace(s: string): (n: nat)
    ensures n <= |s|
    ensures AllSpace(s[|s| - n..])
    ensures n < |s| ==> !IsSpace(s[|s| - 1 - n])
  {
    if |s| == 0 || !IsSpace(s[|s| - 1]) then 0
    else
      var m := TrailingSpace(s[..|s| - 1]);
      assert s[..|s| - 1][|s| - 1 - m..] == s[|s| - 1 - m..|s| - 1];
      1 + m
  }

  /** Python's `s.strip()`: drop whitespace at both ends. */
  function Strip(s: string): (r: string)
    ensures |r| <= |s|
  {
    var i := LeadingSpace(s);
    if i == |s| then [] else s[i..|s| - TrailingSpace(s)]
  }

  /**
   * The stripped text is the slice of `s` left between a whitespace prefix
   * and a whitespace suffix; it is empty exactly when `s` is all
   * whitespace, and otherwise neither starts nor ends with whitespace.
   */
  lemma StripSpec(s: string)
    ensures var r := Strip(s);
            && (r == [] <==> AllSpace(s))
            && (r != [] ==> !IsSpace(r[0]) && !IsSpace(r[|r| - 1]))
            && exists i :: 0 <= i <= |s| - |r| && r == s[i..i + |r|] && AllSpace(s[..i]) && AllSpace(s[i + |r|..])
  {
    var i := LeadingSpace(s);
    if i == |s| {
      assert s[..i] == s;
      assert AllSpace(s[..0]) && AllSpace(s[0..]);
      assert [] == s[0..0];
    } else {
      assert !AllSpace(s) by { assert !IsSpace(s[i]); }
      var r := Strip(s);
      assert r == s[i..i + |r|];
    }
  }

  /** `t` occurs in `s` starting at index `i`. */
  predicate OccursAt(s: string, t: string, i: int) {
    0 <= i && i + |t| <= |s| && s[i..i + |t|] == t
  }

  /** Python's `t in s`, stated as the existence of an occurrence. */
  ghost predicate Contains(s: string, t: string) {
    exists i :: OccursAt(s, t, i)
  }

  /** Python's `s.find(t, i)`: the first occurrence of `t` at or after index `i`. */
  function FindFrom(s: string, t: string, i: nat): (r: Option<nat>)
    requires i <= |s|
    ensures r.Some? ==> i <= r.value && OccursAt(s, t, r.value)
    decreases |s| - i
  {
    if i + |t| > |s| then None
    else if s[i..i + |t|] == t then Some(i)
    else FindFrom(s, t, i + 1)
  }

  /** No occurrence starts between `i` and the one found. */
  lemma {:induction false} FindFromFirst(s: string, t: string, i: nat)
    requires i <= |s|
    ensures var r := FindFrom(s, t, i);
            forall j :: i <= j && (r.None? || j < r.value) ==> !OccursAt(s, t, j)
    decreases |s| - i
  {
    if i + |t| <= |s| && s[i..i + |t|] != t {
      FindFromFirst(s, t, i + 1);
    }
  }

  /** Python's `s.find(t)`, with `None` for Python's `-1`. */
  function Find(s: string, t: string): (r: Option<nat>)
    ensures r.Some? ==> OccursAt(s, t, r.value)
  {
    FindFrom(s, t, 0)
  }

  /** `Find` gives the first occurrence, and nothing exactly when there is none. */
  lemma FindSpec(s: string, t: string)
    ensures Find(s, t).Some? ==> forall j :: 0 <= j < Find(s, t).value ==> !OccursAt(s, t, j)
    ensures Find(s, t).None? <==> !Contains(s, t)
  {
    FindFromFirst(s, t, 0);
    if Find(s, t).Some? {
      assert OccursAt(s, t, Find(s, t).value);
    }
  }

  /** Python's `t in s`. */
  predicate In(t: string, s: string) {
    Find(s, t).Some?
  }

  /** Python's `sep.join(parts)`. */
  function Join(sep: string, parts: seq<string>): string {
    if |parts| == 0 then ""
    else if |parts| == 1 then parts[0]
    else parts[0] + sep + Join(sep, parts[1..])
  }

  /** Python's `s.split(sep)` for a non-empty separator: left to right, occurrences do not overlap. */
  function Split(s: string, sep: string): (parts: seq<string>)
    requires |sep| > 0
    ensures |parts| >= 1
    decreases |s|
  {
    match Find(s, sep)
    case None => [s]
    case Some(i) => [s[..i]] + Split(s[i + |sep|..], sep)
  }

  /** Joining what `Split` cut, with the same separator, gives back the string. */
  lemma {:induction false} JoinSplit(s: string, sep: string)
    requires |sep| > 0
    ensures Join(sep, Split(s, sep)) == s
    decreases |s|
  {
    var f := Find(s, sep);
    if f.Some? {
      var i := f.value;
      var rest := s[i + |sep|..];
      var tail := Split(rest, sep);
      assert Split(s, sep) == [s[..i]] + tail;
      calc {
        Join(sep, Split(s, sep));
      == { JoinCons(sep, s[..i], tail); }
        s[..i] + sep + Join(sep, tail);
      == { JoinSplit(rest, sep); }
        s[..i] + sep + rest;
      == { assert s[i..i + |sep|] == sep; Slices(s, i, i + |sep|); }
        s;
      }
    }
  }

  lemma Slices(s: string, i: nat, j: nat)
    requires i <= j <= |s|
    ensures s == s[..i] + s[i..j] + s[j..]
  {
  }

  lemma JoinCons(sep: string, head: string, tail: seq<string>)
    requires |tail| >= 1
    ensures Join(sep, [head] + tail) == head + sep + Join(sep, tail)
  {
    assert ([head] + tail)[1..] == tail;
  }

  /** Python's `s.split(sep)[-1]`. */
  function LastSplit(s: string, sep: string): string
    requires |sep| > 0
  {
    var parts := Split(s, sep);
    parts[|parts| - 1]
  }

  /**
   * The last piece of `s.split(sep)` is a suffix of `s` holding no occurrence
   * of `sep`; it is all of `s` when `sep` does not occur, and otherwise it
   * directly follows an occurrence of `sep`.
   */
  lemma SplitLast(s: string, sep: string)
    requires |sep| > 0
    ensures var last := LastSplit(s, sep);
            && |last| <= |s| && last == s[|s| - |last|..]
            && !Contains(last, sep)
            && (!Contains(s, sep) ==> last == s)
            && (Contains(s, sep) ==> |last| + |sep| <= |s| && OccursAt(s, sep, |s| - |last| - |sep|))
  {
    SplitLastPiece(s, sep);
  }

  /** What `SplitLast` states of a candidate last piece. */
  ghost predicate LastPiece(s: string, sep: string, last: string) {
    && |last| <= |s| && last == s[|s| - |last|..]
    && !Contains(last, sep)
    && (!Contains(s, sep) ==> last == s)
    && (Contains(s, sep) ==> |last| + |sep| <= |s| && OccursAt(s, sep, |s| - |last| - |sep|))
  }

  lemma {:induction false} SplitLastPiece(s: string, sep: string)
    requires |sep| > 0
    ensures LastPiece(s, sep, Split(s, sep)[|Split(s, sep)| - 1])
    decreases |s|
  {
    var f := Find(s, sep);
    if f.Some? {
      var i := f.value;
      var rest := s[i + |sep|..];
      var tail := Split(rest, sep);
      SplitAt(s, sep, i);
      LastOfCons(s[..i], tail);
      SplitLastPiece(rest, sep);
      LastPieceAfter(s, sep, i, tail[|tail| - 1]);
    } else {
      FindSpec(s, sep);
      assert Split(s, sep) == [s];
      assert s[|s| - |s|..] == s;
    }
  }

  /** The last piece after the first occurrence is the last piece of the whole string. */
  lemma LastPieceAfter(s: string, sep: string, i: nat, last: string)
    requires |sep| > 0 && Find(s, sep) == Some(i) && LastPiece(s[i + |sep|..], sep, last)
    ensures LastPiece(s, sep, last)
  {
    var rest := s[i + |sep|..];
    assert last == s[|s| - |last|..] by {
      assert rest[|rest| - |last|..] == s[|s| - |last|..];
    }
    SplitLastOccurrence(s, sep, i, rest, last);
    assert Contains(s, sep) by { assert OccursAt(s, sep, i); }
  }

  /** `Split` cuts at the first occurrence. */
  lemma SplitAt(s: string, sep: string, i: nat)
    requires |sep| > 0 && Find(s, sep) == Some(i)
    ensures Split(s, sep) == [s[..i]] + Split(s[i + |sep|..], sep)
  {
  }

  lemma LastOfCons<T>(a: T, t: seq<T>)
    requires |t| > 0
    ensures ([a] + t)[|[a] + t| - 1] == t[|t| - 1]
  {
  }

  lemma SplitLastOccurrence(s: string, sep: string, i: nat, rest: string, last: string)
    requires |sep| > 0 && OccursAt(s, sep, i) && rest == s[i + |sep|..]
    requires |last| <= |rest| && last == rest[|rest| - |last|..]
    requires !Contains(rest, sep) ==> last == rest
    requires Contains(rest, sep) ==> |last| + |sep| <= |rest| && OccursAt(rest, sep, |rest| - |last| - |sep|)
    ensures |last| + |sep| <= |s| && OccursAt(s, sep, |s| - |last| - |sep|)
  {
    var k := |s| - |last| - |sep|;
    if Contains(rest, sep) {
      assert rest[|rest| - |last| - |sep|..|rest| - |last|] == s[k..k + |sep|];
    } else {
      assert k == i;
    }
  }

  predicate IsDigit(c: char) {
    '0' <= c <= '9'
  }

  function DigitChar(d: nat): (c: char)
    requires d < 10
    ensures IsDigit(c)
  {
    "0123456789"[d]
  }

  function DigitValue(c: char): (d: nat)
    requires IsDigit(c)
    ensures d < 10
  {
    (c as int) - ('0' as int)
  }

  /** Python's `str(n)` for a natural number. */
  function NatToDecimal(n: nat): (r: string)
    ensures |r| >= 1
    ensures forall i :: 0 <= i < |r| ==> IsDigit(r[i])
    ensures r[0] == '0' <==> n == 0
    ensures n == 0 ==> r == "0"
  {
    if n < 10 then [DigitChar(n)]
    else NatToDecimal(n / 10) + [DigitChar(n % 10)]
  }

  /** The value of a string of decimal digits, as Python's `int(s)` reads it. */
  function DecimalValue(s: string): nat
    requires forall i :: 0 <= i < |s| ==> IsDigit(s[i])
  {
    if |s| == 0 then 0
    else DecimalValue(s[..|s| - 1]) * 10 + DigitValue(s[|s| - 1])
  }

  lemma {:induction false} DecimalRoundTrip(n: nat)
    ensures DecimalValue(NatToDecimal(n)) == n
  {
    if n >= 10 {
      DecimalRoundTrip(n / 10);
      var r := NatToDecimal(n);
      assert r[..|r| - 1] == NatToDecimal(n / 10);
    }
  }

  /** Python's `str(i)` for an integer. */
  function IntToDecimal(i: int): (r: string)
    ensures |r| >= 1
  {
    if i < 0 then "-" + NatToDecimal(-i) else NatToDecimal(i)
  }
}
