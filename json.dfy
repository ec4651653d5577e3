/**
 * JSON values as Python holds them after `json.loads`, the text `json.dumps`
 * writes for them with its default settings, and the decoder `json.loads`
 * (CPython's scanner, strict mode).
 *
 * A dict is a sequence of members in insertion order; decoding gives each
 * key once, at the position of its first occurrence, with the value of its
 * last occurrence, as `dict` does. A value with a fraction or an exponent is
 * kept as its text.
 */
module Json {
  import opened Wrappers
  import opened Text

  datatype Member = Member(key: string, value: Json)

  datatype Json =
    | JNull
    | JBool(b: bool)
    | JInt(i: int)
    | JFloat(lexeme: string)
    | JStr(s: string)
    | JArr(items: seq<Json>)
    | JObj(members: seq<Member>)

  /* ------------------------------------------------------------------ */
  /* Dicts                                                               */
  /* ------------------------------------------------------------------ */

  /** Position of key `k` among the members, if present. */
  function KeyIndex(ms: seq<Member>, k: string): (r: Option<nat>)
    ensures r.Some? ==> r.value < |ms| && ms[r.value].key == k
  {
    if |ms| == 0 then None
    else if ms[0].key == k then Some(0)
    else match KeyIndex(ms[1..], k)
      case None => None
      case Some(i) => Some(i + 1)
  }

  /** `KeyIndex` finds the first member with the key, and finds none only when no member has it. */
  lemma {:induction false} KeyIndexFirst(ms: seq<Member>, k: string)
    ensures KeyIndex(ms, k).Some? ==> forall i :: 0 <= i < KeyIndex(ms, k).value ==> ms[i].key != k
    ensures KeyIndex(ms, k).None? ==> forall i :: 0 <= i < |ms| ==> ms[i].key != k
  {
    if |ms| > 0 && ms[0].key != k {
      KeyIndexFirst(ms[1..], k);
      assert forall i :: 1 <= i < |ms| ==> ms[i] == ms[1..][i - 1];
    }
  }

  /** Python's `d.get(k)`: the value stored under `k`, if any. */
  function Get(ms: seq<Member>, k: string): (r: Option<Json>)
    ensures r.Some? <==> exists i :: 0 <= i < |ms| && ms[i].key == k
    ensures r.Some? ==> exists i :: 0 <= i < |ms| && ms[i] == Member(k, r.value)
  {
    KeyIndexFirst(ms, k);
    match KeyIndex(ms, k)
    case None => None
    case Some(i) => assert ms[i] == Member(k, ms[i].value); Some(ms[i].value)
  }

  /** Python's `d.get(k, default)`. */
  function GetOr(ms: seq<Member>, k: string, default: Json): Json {
    match Get(ms, k)
    case Some(v) => v
    case None => default
  }

  ghost predicate DistinctKeys(ms: seq<Member>) {
    forall i, j :: 0 <= i < j < |ms| ==> ms[i].key != ms[j].key
  }

  /** Python's `d[m.key] = m.value`: overwrite in place, or append a new key. */
  function DictSet(d: seq<Member>, m: Member): seq<Member> {
    match KeyIndex(d, m.key)
    case Some(i) => d[i := m]
    case None => d + [m]
  }

  /** Python's `dict(pairs)`. */
  function Dict(pairs: seq<Member>): seq<Member> {
    if |pairs| == 0 then []
    else DictSet(Dict(pairs[..|pairs| - 1]), pairs[|pairs| - 1])
  }

  lemma DictSetDistinct(d: seq<Member>, m: Member)
    requires DistinctKeys(d)
    ensures DistinctKeys(DictSet(d, m))
  {
    KeyIndexFirst(d, m.key);
  }

  /** A dict never holds a key twice. */
  lemma {:induction false} DictDistinct(pairs: seq<Member>)
    ensures DistinctKeys(Dict(pairs))
  {
    if |pairs| > 0 {
      DictDistinct(pairs[..|pairs| - 1]);
      DictSetDistinct(Dict(pairs[..|pairs| - 1]), pairs[|pairs| - 1]);
    }
  }

  /** Building a dict from pairs whose keys are already distinct keeps them as they are. */
  lemma {:induction false} DictOfDistinct(pairs: seq<Member>)
    requires DistinctKeys(pairs)
    ensures Dict(pairs) == pairs
  {
    if |pairs| > 0 {
      var init := pairs[..|pairs| - 1];
      DictOfDistinct(init);
      var last := pairs[|pairs| - 1];
      assert KeyIndex(init, last.key).None? by {
        forall i | 0 <= i < |init| ensures init[i].key != last.key {
          assert init[i] == pairs[i];
        }
        KeyIndexNone(init, last.key);
      }
      assert init + [last] == pairs;
    }
  }

  lemma {:induction false} KeyIndexNone(ms: seq<Member>, k: string)
    requires forall i :: 0 <= i < |ms| ==> ms[i].key != k
    ensures KeyIndex(ms, k).None?
  {
    if |ms| > 0 {
      assert forall i :: 0 <= i < |ms| - 1 ==> ms[1..][i] == ms[i + 1];
      KeyIndexNone(ms[1..], k);
    }
  }

  /* ------------------------------------------------------------------ */
  /* Well-formed values                                                  */
  /* ------------------------------------------------------------------ */

  /**
   * The values a Python program can hold: dict keys are distinct and every
   * number with a fraction or an exponent is a complete number literal (or
   * one of the constants `NaN`, `Infinity`, `-Infinity`).
   */
  ghost predicate WellFormed(v: Json)
    decreases v
  {
    match v
    case JFloat(l) => IsFloatLexeme(l)
    case JArr(xs) => forall i :: 0 <= i < |xs| ==> WellFormed(xs[i])
    case JObj(ms) => DistinctKeys(ms) && forall i :: 0 <= i < |ms| ==> WellFormed(ms[i].value)
    case _ => true
  }

  ghost predicate IsFloatLexeme(l: string) {
    l == "NaN" || l == "Infinity" || l == "-Infinity" || ScanNumber(l) == Some(NumberShape(|l|, true))
  }

  /* ------------------------------------------------------------------ */
  /* Encoding: json.dumps(v) with ensure_ascii=True, separators ", " and ": " */
  /* ------------------------------------------------------------------ */

  const HexChars := "0123456789abcdef"

  /** `n` in `width` lower-case hexadecimal digits, most significant first. */
  function HexDigits(n: nat, width: nat): (r: string)
    ensures |r| == width
  {
    if width == 0 then "" else HexDigits(n / 16, width - 1) + [HexChars[n % 16]]
  }

  /** The escape json.dumps writes for one character: printable ASCII stays, the rest becomes `\uXXXX` (a surrogate pair above U+FFFF). */
  function EscapeChar(c: char): string {
    if c == '"' then "\\\""
    else if c == '\\' then "\\\\"
    else if c == '\n' then "\\n"
    else if c == '\r' then "\\r"
    else if c == '\t' then "\\t"
    else if c == '\U{8}' then "\\b"
    else if c == '\U{C}' then "\\f"
    else if ' ' <= c <= '~' then [c]
    else if (c as int) < 0x1_0000 then "\\u" + HexDigits(c as int, 4)
    else
      var n := (c as int) - 0x1_0000;
      "\\u" + HexDigits(0xD800 + n / 0x400, 4) + "\\u" + HexDigits(0xDC00 + n % 0x400, 4)
  }

  function Escape(s: string): string {
    if |s| == 0 then "" else EscapeChar(s[0]) + Escape(s[1..])
  }

  function Quote(s: string): string {
    "\"" + Escape(s) + "\""
  }

  /** `json.dumps(v)`; a number with a fraction or exponent is written as its text. */
  function Encode(v: Json): string
    decreases v
  {
    match v
    case JNull => "null"
    case JBool(b) => if b then "true" else "false"
    case JInt(i) => IntToDecimal(i)
    case JFloat(l) => l
    case JStr(s) => Quote(s)
    case JArr(xs) => "[" + EncodeItems(xs) + "]"
    case JObj(ms) => "{" + EncodeMembers(ms) + "}"
  }

  function EncodeItems(xs: seq<Json>): string
    decreases xs
  {
    if |xs| == 0 then ""
    else if |xs| == 1 then Encode(xs[0])
    else Encode(xs[0]) + ", " + EncodeItems(xs[1..])
  }

  function EncodeMember(m: Member): string
    decreases m
  {
    Quote(m.key) + ": " + Encode(m.value)
  }

  function EncodeMembers(ms: seq<Member>): string
    decreases ms
  {
    if |ms| == 0 then ""
    else if |ms| == 1 then EncodeMember(ms[0])
    else EncodeMember(ms[0]) + ", " + EncodeMembers(ms[1..])
  }

  /* ------------------------------------------------------------------ */
  /* Decoding: json.loads(s)                                             */
  /* ------------------------------------------------------------------ */

  /** What a parser read, and the text after it. */
  datatype Parsed<T> = Parsed(value: T, rest: string)

  /** The whitespace JSON allows between tokens. */
  predicate IsWs(c: char) {
    c == ' ' || c == '\t' || c == '\n' || c == '\r'
  }

  function SkipWs(s: string): (r: string)
    ensures |r| <= |s| && r == s[|s| - |r|..]
    ensures r != [] ==> !IsWs(r[0])
  {
    if |s| > 0 && IsWs(s[0]) then SkipWs(s[1..]) else s
  }

  predicate StartsWith(s: string, p: string) {
    |p| <= |s| && s[..|p|] == p
  }

  function HexValue(c: char): (r: Option<nat>)
    ensures r.Some? ==> r.value < 16
  {
    if '0' <= c <= '9' then Some(c as int - '0' as int)
    else if 'a' <= c <= 'f' then Some(c as int - 'a' as int + 10)
    else if 'A' <= c <= 'F' then Some(c as int - 'A' as int + 10)
    else None
  }

  function Pow16(n: nat): (p: nat)
    ensures p > 0
  {
    if n == 0 then 1 else 16 * Pow16(n - 1)
  }

  /** The value of `s` read as hexadecimal digits (either case), if every character is one. */
  function ParseHex(s: string): (r: Option<nat>)
    ensures r.Some? ==> r.value < Pow16(|s|)
  {
    if |s| == 0 then Some(0)
    else
      match (ParseHex(s[..|s| - 1]), HexValue(s[|s| - 1]))
      case (Some(a), Some(d)) =>
        assert a * 16 + d < Pow16(|s|) by {
          assert a <= Pow16(|s| - 1) - 1;
          assert a * 16 <= Pow16(|s|) - 16;
        }
        Some(a * 16 + d)
      case _ => None
  }

  /** The character after `\` in a two-character escape. */
  function SimpleEscape(c: char): Option<char> {
    if c == '"' then Some('"')
    else if c == '\\' then Some('\\')
    else if c == '/' then Some('/')
    else if c == 'b' then Some('\U{8}')
    else if c == 'f' then Some('\U{C}')
    else if c == 'n' then Some('\n')
    else if c == 'r' then Some('\r')
    else if c == 't' then Some('\t')
    else None
  }

  /**
   * The text after `\u`: four hex digits, and a second `\uXXXX` when the first
   * is a high surrogate that the second completes. A surrogate left unpaired
   * has no character to stand for, and decoding fails.
   */
  function ParseUnicodeEscape(s: string): (r: Option<Parsed<char>>)
    ensures r.Some? ==> |r.value.rest| <= |s| - 4
  {
    if |s| < 4 then None
    else match ParseHex(s[..4])
      case None => None
      case Some(hi) =>
        if 0xD800 <= hi < 0xDC00 then
          if |s| >= 10 && s[4] == '\\' && s[5] == 'u' then
            match ParseHex(s[6..10])
            case Some(lo) =>
              if 0xDC00 <= lo < 0xE000 then
                Some(Parsed((0x1_0000 + (hi - 0xD800) * 0x400 + (lo - 0xDC00)) as char, s[10..]))
              else None
            case None => None
          else None
        else if 0xDC00 <= hi < 0xE000 then None
        else Some(Parsed(hi as char, s[4..]))
  }

  /** One character of a string body that is not its closing quote: a plain character or an escape. */
  function ParseChar(s: string): (r: Option<Parsed<char>>)
    ensures r.Some? ==> |r.value.rest| < |s|
  {
    if |s| == 0 || s[0] == '"' then None
    else if s[0] == '\\' then
      if |s| < 2 then None
      else if s[1] == 'u' then ParseUnicodeEscape(s[2..])
      else match SimpleEscape(s[1])
        case None => None
        case Some(c) => Some(Parsed(c, s[2..]))
    else if (s[0] as int) < 0x20 then None
    else Some(Parsed(s[0], s[1..]))
  }

  /** A string body up to and including its closing quote. */
  function ParseString(s: string): (r: Option<Parsed<string>>)
    ensures r.Some? ==> |r.value.rest| < |s|
    decreases |s|
  {
    if |s| == 0 then None
    else if s[0] == '"' then Some(Parsed("", s[1..]))
    else match ParseChar(s)
      case None => None
      case Some(p) =>
        match ParseString(p.rest)
        case None => None
        case Some(q) => Some(Parsed([p.value] + q.value, q.rest))
  }

  /** Number of decimal digits in `s` from index `i` on. */
  function DigitRun(s: string, i: nat): (n: nat)
    requires i <= |s|
    ensures i + n <= |s|
    decreases |s| - i
  {
    if i < |s| && IsDigit(s[i]) then 1 + DigitRun(s, i + 1) else 0
  }

  /** The run `DigitRun` measures is all digits. */
  lemma {:induction false} DigitRunDigits(s: string, i: nat)
    requires i <= |s|
    ensures forall k :: i <= k < i + DigitRun(s, i) ==> IsDigit(s[k])
    decreases |s| - i
  {
    if i < |s| && IsDigit(s[i]) { DigitRunDigits(s, i + 1); }
  }

  /** How long the number at the head of the text is, and whether it has a fraction or an exponent. */
  datatype NumberShape = NumberShape(len: nat, isFloat: bool)

  /** Length of the integer part (`0`, or a non-zero digit and more digits) from index `i`, or 0. */
  function IntLen(s: string, i: nat): (n: nat)
    requires i <= |s|
    ensures i + n <= |s|
  {
    if i == |s| then 0
    else if s[i] == '0' then 1
    else if '1' <= s[i] <= '9' then 1 + DigitRun(s, i + 1)
    else 0
  }

  /** Length of `'.' digits` from index `i`, or 0. */
  function FracLen(s: string, i: nat): (n: nat)
    requires i <= |s|
    ensures i + n <= |s|
  {
    if i + 2 <= |s| && s[i] == '.' && IsDigit(s[i + 1]) then 2 + DigitRun(s, i + 2) else 0
  }

  /** Length of `('e' | 'E') ['+' | '-'] digits` from index `i`, or 0 when no digit follows (the scanner backs off). */
  function ExpLen(s: string, i: nat): (n: nat)
    requires i <= |s|
    ensures i + n <= |s|
  {
    if i + 2 <= |s| && (s[i] == 'e' || s[i] == 'E') then
      var j := if i + 3 <= |s| && (s[i + 1] == '+' || s[i + 1] == '-') then 2 else 1;
      var d := DigitRun(s, i + j);
      if d > 0 then j + d else 0
    else 0
  }

  /** The sign part of a number: 1 for a leading minus, else 0. */
  function SignLen(s: string): (n: nat)
    ensures n <= |s|
  {
    if |s| > 0 && s[0] == '-' then 1 else 0
  }

  /** The number CPython's scanner reads at the head of `s`: `-?(0|[1-9][0-9]*)(\.[0-9]+)?([eE][-+]?[0-9]+)?`. */
  function ScanNumber(s: string): (r: Option<NumberShape>)
    ensures r.Some? ==> 0 < r.value.len <= |s|
  {
    var sign := SignLen(s);
    var a := IntLen(s, sign);
    if a == 0 then None
    else
      var f := FracLen(s, sign + a);
      var e := ExpLen(s, sign + a + f);
      Some(NumberShape(sign + a + f + e, f > 0 || e > 0))
  }

  /** The value of an integer literal: an optional minus sign, then digits. */
  function IntLiteralValue(l: string): int {
    if |l| > 0 && l[0] == '-' then -(AllDigitsValue(l[1..]) as int) else AllDigitsValue(l)
  }

  /** The value of the leading digits of `s`. */
  function AllDigitsValue(s: string): nat {
    DigitRunDigits(s, 0);
    DecimalValue(s[..DigitRun(s, 0)])
  }

  function ParseNumber(s: string): (r: Option<Parsed<Json>>)
    ensures r.Some? ==> |r.value.rest| < |s|
  {
    match ScanNumber(s)
    case None => None
    case Some(sh) =>
      var l := s[..sh.len];
      Some(Parsed(if sh.isFloat then JFloat(l) else JInt(IntLiteralValue(l)), s[sh.len..]))
  }

  /**
   * One JSON value at the head of `s` (no leading whitespace), as CPython's
   * `scan_once` reads it: the first character selects a string, an object, an
   * array or a named constant, and anything else is read as a number.
   */
  function ParseValue(s: string): (r: Option<Parsed<Json>>)
    ensures r.Some? ==> |r.value.rest| < |s|
    decreases |s|, 0
  {
    if |s| == 0 then None
    else if s[0] == '"' then
      match ParseString(s[1..])
      case None => None
      case Some(p) => Some(Parsed(JStr(p.value), p.rest))
    else if s[0] == '{' then ParseObject(s[1..])
    else if s[0] == '[' then ParseArray(s[1..])
    else if s[0] == 'n' && StartsWith(s, "null") then Some(Parsed(JNull, s[4..]))
    else if s[0] == 't' && StartsWith(s, "true") then Some(Parsed(JBool(true), s[4..]))
    else if s[0] == 'f' && StartsWith(s, "false") then Some(Parsed(JBool(false), s[5..]))
    else if s[0] == 'N' && StartsWith(s, "NaN") then Some(Parsed(JFloat("NaN"), s[3..]))
    else if s[0] == 'I' && StartsWith(s, "Infinity") then Some(Parsed(JFloat("Infinity"), s[8..]))
    else if s[0] == '-' && StartsWith(s, "-Infinity") then Some(Parsed(JFloat("-Infinity"), s[9..]))
    else ParseNumber(s)
  }

  /** The text after `[`. */
  function ParseArray(s: string): (r: Option<Parsed<Json>>)
    ensures r.Some? ==> |r.value.rest| < |s|
    decreases |s|, 2
  {
    var t := SkipWs(s);
    if |t| > 0 && t[0] == ']' then Some(Parsed(JArr([]), t[1..]))
    else match ParseItems(t)
      case None => None
      case Some(p) => Some(Parsed(JArr(p.value), p.rest))
  }

  /** Array elements and the closing `]`. */
  function ParseItems(s: string): (r: Option<Parsed<seq<Json>>>)
    ensures r.Some? ==> |r.value.rest| < |s|
    decreases |s|, 1
  {
    match ParseValue(s)
    case None => None
    case Some(p) => MoreItems(p.value, SkipWs(p.rest))
  }

  /** After element `x`: the closing `]`, or a comma and more elements. */
  function MoreItems(x: Json, t: string): (r: Option<Parsed<seq<Json>>>)
    ensures r.Some? ==> |r.value.rest| < |t|
    decreases |t|, 1
  {
    if |t| > 0 && t[0] == ']' then Some(Parsed([x], t[1..]))
    else if |t| > 0 && t[0] == ',' then
      match ParseItems(SkipWs(t[1..]))
      case None => None
      case Some(q) => Some(Parsed([x] + q.value, q.rest))
    else None
  }

  /** The text after `{`. */
  function ParseObject(s: string): (r: Option<Parsed<Json>>)
    ensures r.Some? ==> |r.value.rest| < |s|
    decreases |s|, 2
  {
    var t := SkipWs(s);
    if |t| > 0 && t[0] == '}' then Some(Parsed(JObj([]), t[1..]))
    else match ParseMembers(t)
      case None => None
      case Some(p) => Some(Parsed(JObj(Dict(p.value)), p.rest))
  }

  /** Object members, in the order written, and the closing `}`. */
  function ParseMembers(s: string): (r: Option<Parsed<seq<Member>>>)
    ensures r.Some? ==> |r.value.rest| < |s|
    decreases |s|, 1
  {
    if |s| == 0 || s[0] != '"' then None
    else match ParseString(s[1..])
      case None => None
      case Some(k) =>
        var t := SkipWs(k.rest);
        if |t| == 0 || t[0] != ':' then None
        else match ParseValue(SkipWs(t[1..]))
          case None => None
          case Some(p) => MoreMembers(Member(k.value, p.value), SkipWs(p.rest))
  }

  /** After member `m`: the closing `}`, or a comma and more members. */
  function MoreMembers(m: Member, u: string): (r: Option<Parsed<seq<Member>>>)
    ensures r.Some? ==> |r.value.rest| < |u|
    decreases |u|, 1
  {
    if |u| > 0 && u[0] == '}' then Some(Parsed([m], u[1..]))
    else if |u| > 0 && u[0] == ',' then
      match ParseMembers(SkipWs(u[1..]))
      case None => None
      case Some(q) => Some(Parsed([m] + q.value, q.rest))
    else None
  }

  /** `json.loads(s)`: one value, with only whitespace around it; `None` where Python raises. */
  function Decode(s: string): Option<Json> {
    match ParseValue(SkipWs(s))
    case None => None
    case Some(p) => if SkipWs(p.rest) == "" then Some(p.value) else None
  }
}
