/**
 * `json.loads(json.dumps(v)) == v` for every well-formed value, and every
 * value `json.loads` returns is well-formed. The proof reads the encoder's
 * text back one token at a time, with the text that follows a value left
 * over for the enclosing array or object.
 */
module JsonRoundTrip {
  import opened Wrappers
  import opened Text
  import opened Json
  import opened JsonStrings
  import opened JsonNumbers

  /** What may follow a value in the text `json.dumps` writes. */
  predicate Delimited(rest: string) {
    rest == [] || rest[0] == ',' || rest[0] == ']' || rest[0] == '}'
  }

  /** Text that starts with a token, not with whitespace. */
  predicate Tight(s: string) {
    s == [] || !IsWs(s[0])
  }

  /** A character that can begin a value. */
  predicate ValueStart(c: char) {
    !IsWs(c) && c != ']' && c != '}'
  }

  /* ------------------------------------------------------------------ */
  /* Facts about text                                                    */
  /* ------------------------------------------------------------------ */

  lemma Head(a: string, b: string)
    requires |a| > 0
    ensures |a + b| > 0 && (a + b)[0] == a[0]
  {
  }

  lemma Head3(a: string, b: string, c: string)
    requires |a| > 0
    ensures |a + b + c| > 0 && (a + b + c)[0] == a[0]
  {
  }

  lemma Assoc3(a: string, b: string, c: string)
    ensures a + b + c == a + (b + c)
  {
  }

  lemma DropLit(p: string, x: string)
    ensures (p + x)[..|p|] == p && (p + x)[|p|..] == x
  {
  }

  lemma SkipTight(s: string)
    requires Tight(s)
    ensures SkipWs(s) == s
  {
  }

  lemma SkipOneSpace(s: string)
    requires Tight(s)
    ensures SkipWs(" " + s) == s
  {
    assert (" " + s)[1..] == s;
  }

  /** `", " + s` or `": " + s`: the separator is read, then the space after it is skipped. */
  lemma Separator(c: char, s: string)
    requires c == ',' || c == ':'
    requires Tight(s)
    ensures var t := [c, ' '] + s;
            SkipWs(t) == t && |t| > 0 && t[0] == c && SkipWs(t[1..]) == s
  {
    var t := [c, ' '] + s;
    assert t[1..] == " " + s;
    SkipOneSpace(s);
  }

  lemma CloseBracket(c: char, rest: string)
    requires c == ']' || c == '}'
    ensures var t := [c] + rest;
            SkipWs(t) == t && |t| > 0 && t[0] == c && t[1..] == rest
  {
  }

  lemma EncodeStart(v: Json)
    requires WellFormed(v)
    ensures |Encode(v)| > 0 && ValueStart(Encode(v)[0])
  {
    match v
    case JInt(i) =>
      if i < 0 {} else { assert IsDigit(Encode(v)[0]); }
    case JFloat(l) =>
      if ScanNumber(l).Some? { NumberStart(l); }
    case _ =>
  }

  lemma EncodeItemsStart(xs: seq<Json>)
    requires |xs| > 0 && WellFormed(xs[0])
    ensures |EncodeItems(xs)| > 0 && ValueStart(EncodeItems(xs)[0])
  {
    EncodeStart(xs[0]);
    if |xs| > 1 {
      Head3(Encode(xs[0]), ", ", EncodeItems(xs[1..]));
    }
  }

  lemma EncodeMembersStart(ms: seq<Member>)
    requires |ms| > 0
    ensures |EncodeMembers(ms)| > 0 && EncodeMembers(ms)[0] == '"'
  {
    var m := ms[0];
    assert Quote(m.key) == "\"" + Escape(m.key) + "\"";
    Head3("\"", Escape(m.key), "\"");
    Head3(Quote(m.key), ": ", Encode(m.value));
    if |ms| > 1 {
      Head3(EncodeMember(m), ", ", EncodeMembers(ms[1..]));
    }
  }

  /** The text of a number: a digit first, or a minus and a digit. */
  lemma NumberText(l: string, rest: string)
    requires ScanNumber(l).Some?
    ensures var s := l + rest;
            |s| > 0 && (IsDigit(s[0]) || (s[0] == '-' && |s| > 1 && IsDigit(s[1])))
  {
    NumberStart(l);
    assert (l + rest)[0] == l[0];
    if |l| > 1 { assert (l + rest)[1] == l[1]; }
  }

  lemma ArrayText(xs: seq<Json>, rest: string)
    ensures var s := Encode(JArr(xs)) + rest;
            |s| > 0 && s[0] == '[' && s[1..] == EncodeItems(xs) + "]" + rest
  {
    var s := Encode(JArr(xs)) + rest;
    assert s == "[" + (EncodeItems(xs) + "]" + rest);
  }

  lemma ObjectText(ms: seq<Member>, rest: string)
    ensures var s := Encode(JObj(ms)) + rest;
            |s| > 0 && s[0] == '{' && s[1..] == EncodeMembers(ms) + "}" + rest
  {
    var s := Encode(JObj(ms)) + rest;
    assert s == "{" + (EncodeMembers(ms) + "}" + rest);
  }

  lemma ItemsTextOne(xs: seq<Json>, rest: string)
    requires |xs| == 1
    ensures EncodeItems(xs) + "]" + rest == Encode(xs[0]) + ("]" + rest)
  {
    Assoc3(Encode(xs[0]), "]", rest);
  }

  lemma Assoc5(a: string, sep: string, b: string, close: string, rest: string)
    ensures a + sep + b + close + rest == a + (sep + (b + close + rest))
  {
  }

  lemma ItemsTextCons(xs: seq<Json>, rest: string)
    requires |xs| > 1
    ensures EncodeItems(xs) + "]" + rest == Encode(xs[0]) + (", " + (EncodeItems(xs[1..]) + "]" + rest))
  {
    assert EncodeItems(xs) == Encode(xs[0]) + ", " + EncodeItems(xs[1..]);
    Assoc5(Encode(xs[0]), ", ", EncodeItems(xs[1..]), "]", rest);
  }

  /** The text of one member as the members reader meets it: a quote, the key's body, then `": "` and the value. */
  lemma MemberText(m: Member, after: string)
    ensures var s := EncodeMember(m) + after;
            |s| > 0 && s[0] == '"' && s[1..] == Escape(m.key) + "\"" + (": " + (Encode(m.value) + after))
  {
    var e, v := Escape(m.key), Encode(m.value);
    assert EncodeMember(m) == "\"" + e + "\"" + ": " + v;
    QuotedKey(e, v, after);
  }

  lemma QuotedKey(e: string, v: string, after: string)
    ensures var s := "\"" + e + "\"" + ": " + v + after;
            |s| > 0 && s[0] == '"' && s[1..] == e + "\"" + (": " + (v + after))
  {
    var s := "\"" + e + "\"" + ": " + v + after;
    assert s == "\"" + (e + "\"" + (": " + (v + after)));
  }

  lemma MembersTextOne(ms: seq<Member>, rest: string)
    requires |ms| == 1
    ensures EncodeMembers(ms) + "}" + rest == EncodeMember(ms[0]) + ("}" + rest)
  {
    Assoc3(EncodeMember(ms[0]), "}", rest);
  }

  lemma MembersTextCons(ms: seq<Member>, rest: string)
    requires |ms| > 1
    ensures EncodeMembers(ms) + "}" + rest == EncodeMember(ms[0]) + (", " + (EncodeMembers(ms[1..]) + "}" + rest))
  {
    assert EncodeMembers(ms) == EncodeMember(ms[0]) + ", " + EncodeMembers(ms[1..]);
    Assoc5(EncodeMember(ms[0]), ", ", EncodeMembers(ms[1..]), "}", rest);
  }

  /* ------------------------------------------------------------------ */
  /* One step of the reader                                              */
  /* ------------------------------------------------------------------ */

  lemma ReadString(s: string, str: string, rest: string)
    requires |s| > 0 && s[0] == '"' && ParseString(s[1..]) == Some(Parsed(str, rest))
    ensures ParseValue(s) == Some(Parsed(JStr(str), rest))
  {
  }

  lemma ReadArray(s: string)
    requires |s| > 0 && s[0] == '['
    ensures ParseValue(s) == ParseArray(s[1..])
  {
  }

  lemma ReadObject(s: string)
    requires |s| > 0 && s[0] == '{'
    ensures ParseValue(s) == ParseObject(s[1..])
  {
  }

  lemma ReadNull(rest: string)
    ensures ParseValue("null" + rest) == Some(Parsed(JNull, rest))
  {
    DropLit("null", rest);
  }

  lemma ReadTrue(rest: string)
    ensures ParseValue("true" + rest) == Some(Parsed(JBool(true), rest))
  {
    DropLit("true", rest);
  }

  lemma ReadFalse(rest: string)
    ensures ParseValue("false" + rest) == Some(Parsed(JBool(false), rest))
  {
    DropLit("false", rest);
  }

  lemma ReadNaN(rest: string)
    ensures ParseValue("NaN" + rest) == Some(Parsed(JFloat("NaN"), rest))
  {
    DropLit("NaN", rest);
  }

  lemma ReadInfinity(rest: string)
    ensures ParseValue("Infinity" + rest) == Some(Parsed(JFloat("Infinity"), rest))
  {
    DropLit("Infinity", rest);
  }

  lemma ReadMinusInfinity(rest: string)
    ensures ParseValue("-Infinity" + rest) == Some(Parsed(JFloat("-Infinity"), rest))
  {
    DropLit("-Infinity", rest);
  }

  lemma NotMinusInfinity(s: string)
    requires |s| > 1 && IsDigit(s[1])
    ensures !StartsWith(s, "-Infinity")
  {
    if |s| >= 9 { assert s[..9][1] == s[1]; }
  }

  /** Text starting with a number literal is read by the number scanner. */
  lemma ReadNumber(s: string)
    requires |s| > 0 && (IsDigit(s[0]) || (s[0] == '-' && |s| > 1 && IsDigit(s[1])))
    ensures ParseValue(s) == ParseNumber(s)
  {
    if s[0] == '-' { ReadNegative(s); } else { ReadDigit(s); }
  }

  lemma ReadDigit(s: string)
    requires |s| > 0 && IsDigit(s[0])
    ensures ParseValue(s) == ParseNumber(s)
  {
    var c := s[0];
    assert c != '"' && c != '{' && c != '[' && c != 'n' && c != 't' && c != 'f' && c != 'N' && c != 'I' && c != '-';
  }

  lemma ReadNegative(s: string)
    requires |s| > 1 && s[0] == '-' && IsDigit(s[1])
    ensures ParseValue(s) == ParseNumber(s)
  {
    NotMinusInfinity(s);
  }

  lemma ReadEmptyArray(rest: string)
    ensures ParseArray("]" + rest) == Some(Parsed(JArr([]), rest))
  {
    CloseBracket(']', rest);
  }

  lemma ReadArrayItems(s: string, xs: seq<Json>, rest: string)
    requires |s| > 0 && !IsWs(s[0]) && s[0] != ']' && ParseItems(s) == Some(Parsed(xs, rest))
    ensures ParseArray(s) == Some(Parsed(JArr(xs), rest))
  {
    SkipTight(s);
  }

  lemma ReadLastItem(s: string, x: Json, rest: string)
    requires ParseValue(s) == Some(Parsed(x, "]" + rest))
    ensures ParseItems(s) == Some(Parsed([x], rest))
  {
    CloseBracket(']', rest);
  }

  lemma ReadItem(s: string, x: Json, tail: string, xs: seq<Json>, rest: string)
    requires Tight(tail) && ParseValue(s) == Some(Parsed(x, ", " + tail))
    requires ParseItems(tail) == Some(Parsed(xs, rest))
    ensures ParseItems(s) == Some(Parsed([x] + xs, rest))
  {
    Separator(',', tail);
  }

  lemma ReadEmptyObject(rest: string)
    ensures ParseObject("}" + rest) == Some(Parsed(JObj([]), rest))
  {
    CloseBracket('}', rest);
  }

  lemma ReadObjectMembers(s: string, ms: seq<Member>, rest: string)
    requires |s| > 0 && !IsWs(s[0]) && s[0] != '}' && ParseMembers(s) == Some(Parsed(ms, rest))
    requires DistinctKeys(ms)
    ensures ParseObject(s) == Some(Parsed(JObj(ms), rest))
  {
    SkipTight(s);
    DictOfDistinct(ms);
  }

  /** A key, a colon and a value have been read; what follows is left to `MoreMembers`. */
  lemma ReadMemberHead(s: string, k: string, vt: string, v: Json, after: string)
    requires |s| > 0 && s[0] == '"' && ParseString(s[1..]) == Some(Parsed(k, ": " + vt))
    requires Tight(vt) && ParseValue(vt) == Some(Parsed(v, after))
    ensures ParseMembers(s) == MoreMembers(Member(k, v), SkipWs(after))
  {
    Separator(':', vt);
  }

  lemma ReadLastMember(m: Member, rest: string)
    ensures MoreMembers(m, SkipWs("}" + rest)) == Some(Parsed([m], rest))
  {
    CloseBracket('}', rest);
  }

  lemma ReadMoreMembers(m: Member, tail: string, ms: seq<Member>, rest: string)
    requires Tight(tail) && ParseMembers(tail) == Some(Parsed(ms, rest))
    ensures MoreMembers(m, SkipWs(", " + tail)) == Some(Parsed([m] + ms, rest))
  {
    Separator(',', tail);
  }

  /* ------------------------------------------------------------------ */
  /* Reading back what was written                                       */
  /* ------------------------------------------------------------------ */

  lemma ReadEncodedNumber(l: string, rest: string)
    requires ScanNumber(l).Some? && ScanNumber(l).value.len == |l| && Delimited(rest)
    ensures ParseValue(l + rest) == Some(Parsed(
      if ScanNumber(l).value.isFloat then JFloat(l) else JInt(IntLiteralValue(l)), rest))
  {
    NumberText(l, rest);
    ReadNumber(l + rest);
    ScanNumberAppend(l, rest);
    DropLit(l, rest);
  }

  lemma ReadEncodedScalar(v: Json, rest: string)
    requires WellFormed(v) && Delimited(rest) && !v.JArr? && !v.JObj?
    ensures ParseValue(Encode(v) + rest) == Some(Parsed(v, rest))
  {
    match v
    case JNull => ReadNull(rest);
    case JBool(b) => if b { ReadTrue(rest); } else { ReadFalse(rest); }
    case JInt(i) =>
      ScanInt(i);
      ReadEncodedNumber(IntToDecimal(i), rest);
    case JFloat(l) =>
      if l == "NaN" {
        ReadNaN(rest);
      } else if l == "Infinity" {
        ReadInfinity(rest);
      } else if l == "-Infinity" {
        ReadMinusInfinity(rest);
      } else {
        ReadEncodedNumber(l, rest);
      }
    case JStr(str) =>
      var s := Encode(v) + rest;
      assert s == "\"" + (Escape(str) + "\"" + rest);
      ParseQuoted(str, rest);
      ReadString(s, str, rest);
  }

  /** `json.loads` reads back what `json.dumps` wrote, with the text that followed left over. */
  lemma {:induction false} ReadEncoded(v: Json, rest: string)
    requires WellFormed(v) && Delimited(rest)
    ensures ParseValue(Encode(v) + rest) == Some(Parsed(v, rest))
    decreases v, 2
  {
    match v
    case JArr(xs) => ReadEncodedArray(xs, rest);
    case JObj(ms) => ReadEncodedObject(ms, rest);
    case _ => ReadEncodedScalar(v, rest);
  }

  lemma {:induction false} ReadEncodedArray(xs: seq<Json>, rest: string)
    requires forall i :: 0 <= i < |xs| ==> WellFormed(xs[i])
    ensures ParseValue(Encode(JArr(xs)) + rest) == Some(Parsed(JArr(xs), rest))
    decreases xs, 1
  {
    var s := Encode(JArr(xs)) + rest;
    ArrayText(xs, rest);
    ReadArray(s);
    if |xs| == 0 {
      assert s[1..] == "]" + rest;
      ReadEmptyArray(rest);
    } else {
      EncodeItemsStart(xs);
      Head3(EncodeItems(xs), "]", rest);
      ReadEncodedItems(xs, rest);
      ReadArrayItems(s[1..], xs, rest);
    }
  }

  lemma {:induction false} ReadEncodedItems(xs: seq<Json>, rest: string)
    requires |xs| > 0 && forall i :: 0 <= i < |xs| ==> WellFormed(xs[i])
    ensures ParseItems(EncodeItems(xs) + "]" + rest) == Some(Parsed(xs, rest))
    decreases xs, 0
  {
    if |xs| == 1 {
      ItemsTextOne(xs, rest);
      ReadEncoded(xs[0], "]" + rest);
      ReadLastItem(Encode(xs[0]) + ("]" + rest), xs[0], rest);
      Singleton(xs);
    } else {
      var tail := EncodeItems(xs[1..]) + "]" + rest;
      ItemsTextCons(xs, rest);
      ReadEncoded(xs[0], ", " + tail);
      EncodeItemsStart(xs[1..]);
      Head3(EncodeItems(xs[1..]), "]", rest);
      ReadEncodedItems(xs[1..], rest);
      ReadItem(Encode(xs[0]) + (", " + tail), xs[0], tail, xs[1..], rest);
      ConsTail(xs);
    }
  }

  lemma {:induction false} ReadEncodedObject(ms: seq<Member>, rest: string)
    requires DistinctKeys(ms) && forall i :: 0 <= i < |ms| ==> WellFormed(ms[i].value)
    ensures ParseValue(Encode(JObj(ms)) + rest) == Some(Parsed(JObj(ms), rest))
    decreases ms, 1
  {
    var s := Encode(JObj(ms)) + rest;
    ObjectText(ms, rest);
    ReadObject(s);
    if |ms| == 0 {
      assert s[1..] == "}" + rest;
      ReadEmptyObject(rest);
    } else {
      EncodeMembersStart(ms);
      Head3(EncodeMembers(ms), "}", rest);
      ReadEncodedMembers(ms, rest);
      ReadObjectMembers(s[1..], ms, rest);
    }
  }

  /** One member and what follows it: its key and its value read back. */
  lemma {:induction false} ReadEncodedMember(m: Member, after: string)
    requires WellFormed(m.value) && Delimited(after)
    ensures var s := EncodeMember(m) + after;
            && |s| > 0 && s[0] == '"'
            && ParseString(s[1..]) == Some(Parsed(m.key, ": " + (Encode(m.value) + after)))
            && Tight(Encode(m.value) + after)
            && ParseValue(Encode(m.value) + after) == Some(Parsed(m.value, after))
    decreases m, 0
  {
    MemberText(m, after);
    ParseQuoted(m.key, ": " + (Encode(m.value) + after));
    EncodeStart(m.value);
    Head(Encode(m.value), after);
    ReadEncoded(m.value, after);
  }

  lemma {:induction false} ReadEncodedMembers(ms: seq<Member>, rest: string)
    requires |ms| > 0 && forall i :: 0 <= i < |ms| ==> WellFormed(ms[i].value)
    ensures ParseMembers(EncodeMembers(ms) + "}" + rest) == Some(Parsed(ms, rest))
    decreases ms, 0
  {
    var m := ms[0];
    var vt := Encode(m.value);
    assert m == Member(m.key, m.value);
    if |ms| == 1 {
      var after := "}" + rest;
      MembersTextOne(ms, rest);
      ReadEncodedMember(m, after);
      ReadMemberHead(EncodeMember(m) + after, m.key, vt + after, m.value, after);
      ReadLastMember(m, rest);
      Singleton(ms);
    } else {
      var tail := EncodeMembers(ms[1..]) + "}" + rest;
      var after := ", " + tail;
      MembersTextCons(ms, rest);
      ReadEncodedMember(m, after);
      ReadMemberHead(EncodeMember(m) + after, m.key, vt + after, m.value, after);
      EncodeMembersStart(ms[1..]);
      Head3(EncodeMembers(ms[1..]), "}", rest);
      ReadEncodedMembers(ms[1..], rest);
      ReadMoreMembers(m, tail, ms[1..], rest);
      ConsTail(ms);
    }
  }

  lemma Singleton<T>(xs: seq<T>)
    requires |xs| == 1
    ensures [xs[0]] == xs
  {
  }

  lemma ConsTail<T>(xs: seq<T>)
    requires |xs| > 0
    ensures [xs[0]] + xs[1..] == xs
  {
  }

  /** `json.loads(json.dumps(v)) == v` for every value a Python program can hold. */
  lemma RoundTrip(v: Json)
    requires WellFormed(v)
    ensures Decode(Encode(v)) == Some(v)
  {
    EncodeStart(v);
    SkipTight(Encode(v));
    ReadEncoded(v, "");
    assert Encode(v) + "" == Encode(v);
  }
}
