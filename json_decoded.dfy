/**
 * Everything `json.loads` returns is a value the round trip applies to:
 * its floats keep a float lexeme and its objects hold each key once.
 */
module JsonDecoded {
  import opened Wrappers
  import opened Json
  import opened Text
  import opened JsonNumbers

  /** Each element of `xs` is well-formed. */
  ghost predicate AllWellFormed(xs: seq<Json>) {
    forall i :: 0 <= i < |xs| ==> WellFormed(xs[i])
  }

  /** The value of each member of `ms` is well-formed. */
  ghost predicate ValuesWellFormed(ms: seq<Member>) {
    forall i :: 0 <= i < |ms| ==> WellFormed(ms[i].value)
  }

  lemma DictSetValues(d: seq<Member>, m: Member)
    requires ValuesWellFormed(d) && WellFormed(m.value)
    ensures ValuesWellFormed(DictSet(d, m))
  {
  }

  /** `dict(pairs)` keeps only values taken from `pairs`. */
  lemma {:induction false} DictValuesWellFormed(pairs: seq<Member>)
    requires ValuesWellFormed(pairs)
    ensures ValuesWellFormed(Dict(pairs))
  {
    if |pairs| > 0 {
      var init := pairs[..|pairs| - 1];
      assert ValuesWellFormed(init) by {
        forall i | 0 <= i < |init| ensures WellFormed(init[i].value) {
          assert init[i] == pairs[i];
        }
      }
      DictValuesWellFormed(init);
      DictSetValues(Dict(init), pairs[|pairs| - 1]);
    }
  }

  /** A number read as a float keeps a float lexeme. */
  lemma ParsedNumberWellFormed(s: string)
    requires ParseNumber(s).Some?
    ensures WellFormed(ParseNumber(s).value.value)
  {
    ScanNumberPrefix(s);
  }

  /** Strings, named constants and numbers. */
  lemma ParsedScalarWellFormed(s: string)
    requires ParseValue(s).Some? && s[0] != '{' && s[0] != '['
    ensures WellFormed(ParseValue(s).value.value)
  {
    if s[0] == '"' {
    } else if s[0] == 'n' && StartsWith(s, "null") {
    } else if s[0] == 't' && StartsWith(s, "true") {
    } else if s[0] == 'f' && StartsWith(s, "false") {
    } else if s[0] == 'N' && StartsWith(s, "NaN") {
    } else if s[0] == 'I' && StartsWith(s, "Infinity") {
    } else if s[0] == '-' && StartsWith(s, "-Infinity") {
    } else {
      assert ParseValue(s) == ParseNumber(s);
      ParsedNumberWellFormed(s);
    }
  }

  lemma {:induction false} ParsedValueWellFormed(s: string)
    requires ParseValue(s).Some?
    ensures WellFormed(ParseValue(s).value.value)
    decreases |s|, 0
  {
    if s[0] == '{' {
      ParsedObjectWellFormed(s[1..]);
    } else if s[0] == '[' {
      ParsedArrayWellFormed(s[1..]);
    } else {
      ParsedScalarWellFormed(s);
    }
  }

  lemma {:induction false} ParsedArrayWellFormed(s: string)
    requires ParseArray(s).Some?
    ensures WellFormed(ParseArray(s).value.value)
    decreases |s|, 2
  {
    var t := SkipWs(s);
    if !(|t| > 0 && t[0] == ']') {
      ParsedItemsWellFormed(t);
    }
  }

  lemma {:induction false} ParsedItemsWellFormed(s: string)
    requires ParseItems(s).Some?
    ensures AllWellFormed(ParseItems(s).value.value)
    decreases |s|, 1
  {
    var p := ParseValue(s).value;
    ParsedValueWellFormed(s);
    MoreItemsWellFormed(p.value, SkipWs(p.rest));
  }

  lemma {:induction false} MoreItemsWellFormed(x: Json, t: string)
    requires WellFormed(x) && MoreItems(x, t).Some?
    ensures AllWellFormed(MoreItems(x, t).value.value)
    decreases |t|, 1
  {
    if !(|t| > 0 && t[0] == ']') {
      var q := ParseItems(SkipWs(t[1..])).value;
      ParsedItemsWellFormed(SkipWs(t[1..]));
      ConsWellFormed(x, q.value);
    }
  }

  lemma ConsWellFormed(x: Json, xs: seq<Json>)
    requires WellFormed(x) && AllWellFormed(xs)
    ensures AllWellFormed([x] + xs)
  {
  }

  lemma {:induction false} ParsedObjectWellFormed(s: string)
    requires ParseObject(s).Some?
    ensures WellFormed(ParseObject(s).value.value)
    decreases |s|, 2
  {
    var t := SkipWs(s);
    if !(|t| > 0 && t[0] == '}') {
      var ms := ParseMembers(t).value.value;
      ParsedMembersWellFormed(t);
      DictValuesWellFormed(ms);
      DictDistinct(ms);
    }
  }

  lemma {:induction false} ParsedMembersWellFormed(s: string)
    requires ParseMembers(s).Some?
    ensures ValuesWellFormed(ParseMembers(s).value.value)
    decreases |s|, 1
  {
    var k := ParseString(s[1..]).value;
    var t := SkipWs(k.rest);
    var p := ParseValue(SkipWs(t[1..])).value;
    ParsedValueWellFormed(SkipWs(t[1..]));
    MoreMembersWellFormed(Member(k.value, p.value), SkipWs(p.rest));
  }

  lemma {:induction false} MoreMembersWellFormed(m: Member, u: string)
    requires WellFormed(m.value) && MoreMembers(m, u).Some?
    ensures ValuesWellFormed(MoreMembers(m, u).value.value)
    decreases |u|, 1
  {
    if !(|u| > 0 && u[0] == '}') {
      var q := ParseMembers(SkipWs(u[1..])).value;
      ParsedMembersWellFormed(SkipWs(u[1..]));
      ConsValuesWellFormed(m, q.value);
    }
  }

  lemma ConsValuesWellFormed(m: Member, ms: seq<Member>)
    requires WellFormed(m.value) && ValuesWellFormed(ms)
    ensures ValuesWellFormed([m] + ms)
  {
  }

  /** Whatever `json.loads` returns is a value the round trip applies to. */
  lemma DecodedWellFormed(s: string)
    requires Decode(s).Some?
    ensures WellFormed(Decode(s).value)
  {
    ParsedValueWellFormed(SkipWs(s));
  }

  /* ------------------------------------------------------------------ */
  /* Texts that are not JSON                                             */
  /* ------------------------------------------------------------------ */

  /** `json.loads("")` raises. */
  lemma DecodeEmpty()
    ensures Decode("").None?
  {
  }

  /**
   * A text whose first character is not whitespace and cannot start a JSON
   * value (a quote, a bracket, a brace, a digit, a minus sign or the first
   * letter of a named constant) is rejected by `json.loads`.
   */
  lemma DecodeRejects(s: string)
    requires |s| > 0 && !IsWs(s[0]) && !IsDigit(s[0])
    requires s[0] !in {'"', '{', '[', 'n', 't', 'f', 'N', 'I', '-'}
    ensures Decode(s).None?
  {
    assert SkipWs(s) == s;
    assert ScanNumber(s).None?;
  }
}
