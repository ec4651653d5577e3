/**
 * The string part of the JSON round trip: every character `json.dumps`
 * escapes reads back as itself, and so does every string body.
 */
module JsonStrings {
  import opened Wrappers
  import opened Json

  /* ------------------------------------------------------------------ */
  /* Hexadecimal digits                                                  */
  /* ------------------------------------------------------------------ */

  lemma HexCharValue(d: nat)
    requires d < 16
    ensures HexValue(HexChars[d]) == Some(d)
  {
    if d < 8 {
      if d < 4 { if d < 2 { if d == 0 {} else {} } else { if d == 2 {} else {} } }
      else { if d < 6 { if d == 4 {} else {} } else { if d == 6 {} else {} } }
    } else {
      if d < 12 { if d < 10 { if d == 8 {} else {} } else { if d == 10 {} else {} } }
      else { if d < 14 { if d == 12 {} else {} } else { if d == 14 {} else {} } }
    }
  }

  /** Reading back `width` hex digits written for `n` gives `n`. */
  lemma {:induction false} HexRoundTrip(n: nat, width: nat)
    requires n < Pow16(width)
    ensures ParseHex(HexDigits(n, width)) == Some(n)
  {
    if width > 0 {
      var h := HexDigits(n, width);
      assert n / 16 < Pow16(width - 1);
      HexRoundTrip(n / 16, width - 1);
      assert h[..|h| - 1] == HexDigits(n / 16, width - 1);
      HexCharValue(n % 16);
    }
  }

  /* ------------------------------------------------------------------ */
  /* One character                                                      */
  /* ------------------------------------------------------------------ */

  lemma ParseTwoCharEscape(e: char, c: char, t: string)
    requires e != 'u' && SimpleEscape(e) == Some(c)
    ensures ParseChar(['\\', e] + t) == Some(Parsed(c, t))
  {
    var s := ['\\', e] + t;
    assert s[0] == '\\' && s[1] == e && s[2..] == t;
  }

  lemma ParsePlainChar(c: char, t: string)
    requires c != '"' && c != '\\' && (c as int) >= 0x20
    ensures ParseChar([c] + t) == Some(Parsed(c, t))
  {
    assert ([c] + t)[0] == c && ([c] + t)[1..] == t;
  }

  /** A `\u` escape is read by the unicode-escape reader. */
  lemma ParseCharUnicode(s: string)
    requires |s| >= 2 && s[0] == '\\' && s[1] == 'u'
    ensures ParseChar(s) == ParseUnicodeEscape(s[2..])
  {
  }

  lemma SplitHex(h: string, t: string)
    requires |h| == 4
    ensures (h + t)[..4] == h && (h + t)[4..] == t
  {
  }

  lemma ParseBmpEscape(c: char, t: string)
    requires (c as int) < 0x1_0000
    ensures ParseChar("\\u" + HexDigits(c as int, 4) + t) == Some(Parsed(c, t))
  {
    var h := HexDigits(c as int, 4);
    var s := "\\u" + h + t;
    HexRoundTrip(c as int, 4);
    assert s[0] == '\\' && s[1] == 'u' && s[2..] == h + t;
    ParseCharUnicode(s);
    SplitHex(h, t);
  }

  /** The reader's side of a surrogate pair. */
  lemma ParseUnicodePair(u: string, hi: nat, lo: nat, t: string)
    requires |u| >= 10 && ParseHex(u[..4]) == Some(hi) && u[4] == '\\' && u[5] == 'u'
    requires ParseHex(u[6..10]) == Some(lo) && u[10..] == t
    requires 0xD800 <= hi < 0xDC00 && 0xDC00 <= lo < 0xE000
    ensures ParseUnicodeEscape(u) == Some(Parsed((0x1_0000 + (hi - 0xD800) * 0x400 + (lo - 0xDC00)) as char, t))
  {
  }

  /** The text of two `\uXXXX` escapes. */
  lemma PairText(h1: string, h2: string, t: string)
    requires |h1| == 4 && |h2| == 4
    ensures var s := "\\u" + h1 + "\\u" + h2 + t;
            && s[0] == '\\' && s[1] == 'u'
            && var u := s[2..];
               |u| >= 10 && u[..4] == h1 && u[4] == '\\' && u[5] == 'u' && u[6..10] == h2 && u[10..] == t
  {
    var s := "\\u" + h1 + "\\u" + h2 + t;
    assert s[2..] == h1 + "\\u" + h2 + t;
  }

  lemma ParseSurrogatePair(c: char, t: string)
    requires (c as int) >= 0x1_0000
    ensures var n := (c as int) - 0x1_0000;
            ParseChar("\\u" + HexDigits(0xD800 + n / 0x400, 4) + "\\u" + HexDigits(0xDC00 + n % 0x400, 4) + t)
              == Some(Parsed(c, t))
  {
    var n := (c as int) - 0x1_0000;
    var hi := 0xD800 + n / 0x400;
    var lo := 0xDC00 + n % 0x400;
    var h1 := HexDigits(hi, 4);
    var h2 := HexDigits(lo, 4);
    HexRoundTrip(hi, 4);
    HexRoundTrip(lo, 4);
    var s := "\\u" + h1 + "\\u" + h2 + t;
    PairText(h1, h2, t);
    ParseCharUnicode(s);
    ParseUnicodePair(s[2..], hi, lo, t);
    assert 0x1_0000 + (hi - 0xD800) * 0x400 + (lo - 0xDC00) == c as int;
  }

  /** Reading back the escape of one character gives that character, whatever follows. */
  lemma ParseEscapedChar(c: char, t: string)
    ensures ParseChar(EscapeChar(c) + t) == Some(Parsed(c, t))
  {
    if c == '"' {
      ParseTwoCharEscape('"', c, t);
    } else if c == '\\' {
      ParseTwoCharEscape('\\', c, t);
    } else if c == '\n' {
      ParseTwoCharEscape('n', c, t);
    } else if c == '\r' {
      ParseTwoCharEscape('r', c, t);
    } else if c == '\t' {
      ParseTwoCharEscape('t', c, t);
    } else if c == '\U{8}' {
      ParseTwoCharEscape('b', c, t);
    } else if c == '\U{C}' {
      ParseTwoCharEscape('f', c, t);
    } else if ' ' <= c <= '~' {
      ParsePlainChar(c, t);
    } else if (c as int) < 0x1_0000 {
      ParseBmpEscape(c, t);
    } else {
      ParseSurrogatePair(c, t);
    }
  }

  /** No escape begins with a quote, so none ends the string early. */
  lemma EscapeCharStart(c: char)
    ensures |EscapeChar(c)| > 0 && EscapeChar(c)[0] != '"'
  {
  }

  /* ------------------------------------------------------------------ */
  /* String bodies                                                       */
  /* ------------------------------------------------------------------ */

  lemma ParseStringEnd(t: string)
    ensures ParseString("\"" + t) == Some(Parsed("", t))
  {
    assert ("\"" + t)[1..] == t;
  }

  lemma ParseStringStep(s: string, c: char, t: string, str: string, rest: string)
    requires |s| > 0 && s[0] != '"'
    requires ParseChar(s) == Some(Parsed(c, t)) && ParseString(t) == Some(Parsed(str, rest))
    ensures ParseString(s) == Some(Parsed([c] + str, rest))
  {
  }

  lemma EscapeUnfold(s: string)
    requires |s| > 0
    ensures Escape(s) == EscapeChar(s[0]) + Escape(s[1..])
  {
  }

  lemma Assoc(a: string, b: string, c: string, d: string)
    ensures a + b + c + d == a + (b + c + d)
  {
  }

  lemma EscapeCons(s: string, t: string)
    requires |s| > 0
    ensures Escape(s) + "\"" + t == EscapeChar(s[0]) + (Escape(s[1..]) + "\"" + t)
  {
    EscapeUnfold(s);
    Assoc(EscapeChar(s[0]), Escape(s[1..]), "\"", t);
  }

  /** The body `json.dumps` writes for a string reads back as that string. */
  lemma {:induction false} ParseQuoted(s: string, t: string)
    ensures ParseString(Escape(s) + "\"" + t) == Some(Parsed(s, t))
    decreases |s|
  {
    if |s| == 0 {
      assert Escape(s) + "\"" + t == "\"" + t;
      ParseStringEnd(t);
    } else {
      var tail := Escape(s[1..]) + "\"" + t;
      EscapeCons(s, t);
      EscapeCharStart(s[0]);
      ParseEscapedChar(s[0], tail);
      ParseQuoted(s[1..], t);
      ParseStringStep(EscapeChar(s[0]) + tail, s[0], tail, s[1..], t);
      assert [s[0]] + s[1..] == s;
    }
  }
}
