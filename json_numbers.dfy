/**
 * The number part of the JSON round trip: `str(i)` scans back as the
 * integer `i`, a complete literal is not extended by what `json.dumps`
 * writes after it, and the literal the scanner cuts out of a text scans to
 * the same shape on its own.
 */
module JsonNumbers {
  import opened Wrappers
  import opened Text
  import opened Json


  /** A character that cannot continue a number. */
  predicate Stops(s: string) {
    s == [] || (!IsDigit(s[0]) && s[0] != '.' && s[0] != 'e' && s[0] != 'E')
  }

  lemma {:induction false} DigitRunAppend(x: string, y: string, i: nat)
    requires i <= |x| && (y == [] || !IsDigit(y[0]))
    ensures DigitRun(x + y, i) == DigitRun(x, i)
    decreases |x| - i
  {
    if i < |x| {
      assert (x + y)[i] == x[i];
      if IsDigit(x[i]) {
        DigitRunAppend(x, y, i + 1);
      }
    }
  }

  lemma {:induction false} DigitRunPrefix(s: string, m: nat, i: nat)
    requires i <= |s| && i + DigitRun(s, i) <= m <= |s|
    ensures DigitRun(s[..m], i) == DigitRun(s, i)
    decreases |s| - i
  {
    if i < m {
      assert s[..m][i] == s[i];
      if IsDigit(s[i]) {
        DigitRunPrefix(s, m, i + 1);
      }
    }
  }

  lemma IntLenAppend(l: string, y: string, i: nat)
    requires i <= |l| && Stops(y)
    ensures IntLen(l + y, i) == IntLen(l, i)
  {
    var s := l + y;
    if i < |l| {
      assert s[i] == l[i];
      DigitRunAppend(l, y, i + 1);
    } else if |y| > 0 {
      assert s[i] == y[0];
    }
  }

  lemma FracLenAppend(l: string, y: string, i: nat)
    requires i <= |l| && Stops(y)
    ensures FracLen(l + y, i) == FracLen(l, i)
  {
    var s := l + y;
    if i + 2 <= |l| {
      assert s[i] == l[i] && s[i + 1] == l[i + 1];
      DigitRunAppend(l, y, i + 2);
    } else if i + 1 == |l| {
      assert s[i] == l[i];
      if |y| > 0 { assert s[i + 1] == y[0]; }
    } else if |y| > 0 {
      assert s[i] == y[0];
    }
  }

  lemma ExpLenAppend(l: string, y: string, i: nat)
    requires i <= |l| && i + ExpLen(l, i) == |l| && Stops(y)
    ensures ExpLen(l + y, i) == ExpLen(l, i)
  {
    var s := l + y;
    if i < |l| {
      assert s[i] == l[i] && s[i + 1] == l[i + 1];
      var j := if i + 3 <= |l| && (l[i + 1] == '+' || l[i + 1] == '-') then 2 else 1;
      if i + 2 == |l| {
        assert j == 1 && IsDigit(l[i + 1]);
      }
      DigitRunAppend(l, y, i + j);
    } else if |y| > 0 {
      assert s[i] == y[0];
    }
  }

  lemma SignLenAppend(l: string, y: string)
    requires |l| > 0
    ensures SignLen(l + y) == SignLen(l)
  {
    assert (l + y)[0] == l[0];
  }

  /** The scanner succeeds exactly when an integer part follows the sign. */
  lemma ScanNumberDef(s: string)
    ensures var sign := SignLen(s);
            var a := IntLen(s, sign);
            var f := FracLen(s, sign + a);
            var e := ExpLen(s, sign + a + f);
            && (ScanNumber(s).Some? <==> a > 0)
            && (a > 0 ==> ScanNumber(s).value == NumberShape(sign + a + f + e, f > 0 || e > 0))
  {
  }

  /** The scanner's result, from its four parts. */
  lemma ScanNumberOf(s: string, sign: nat, a: nat, f: nat, e: nat)
    requires sign == SignLen(s) && a == IntLen(s, sign) && a > 0
    requires f == FracLen(s, sign + a) && e == ExpLen(s, sign + a + f)
    ensures ScanNumber(s) == Some(NumberShape(sign + a + f + e, f > 0 || e > 0))
  {
  }

  /** A complete number literal followed by a character that cannot continue it scans as before. */
  lemma ScanNumberAppend(l: string, y: string)
    requires ScanNumber(l).Some? && ScanNumber(l).value.len == |l| && Stops(y)
    ensures ScanNumber(l + y) == ScanNumber(l)
  {
    var s := l + y;
    var sign := SignLen(l);
    var a := IntLen(l, sign);
    var f := FracLen(l, sign + a);
    var e := ExpLen(l, sign + a + f);
    ScanNumberDef(l);
    SignLenAppend(l, y);
    IntLenAppend(l, y, sign);
    FracLenAppend(l, y, sign + a);
    ExpLenAppend(l, y, sign + a + f);
    ScanNumberOf(s, sign, a, f, e);
  }

  lemma IntLenPrefix(s: string, n: nat, i: nat)
    requires i <= |s| && i + IntLen(s, i) <= n <= |s| && (i < |s| ==> i < n)
    ensures IntLen(s[..n], i) == IntLen(s, i)
  {
    if i < |s| {
      assert s[..n][i] == s[i];
      if '1' <= s[i] <= '9' { DigitRunPrefix(s, n, i + 1); }
    }
  }

  lemma FracLenPrefix(s: string, n: nat, i: nat)
    requires i <= |s| && i + FracLen(s, i) <= n <= |s|
    ensures FracLen(s[..n], i) == FracLen(s, i)
  {
    if FracLen(s, i) > 0 {
      assert s[..n][i] == s[i] && s[..n][i + 1] == s[i + 1];
      DigitRunPrefix(s, n, i + 2);
    } else if i + 2 <= n {
      assert s[..n][i] == s[i] && s[..n][i + 1] == s[i + 1];
    }
  }

  lemma ExpLenPrefix(s: string, n: nat, i: nat)
    requires i <= |s| && i + ExpLen(s, i) == n <= |s|
    ensures ExpLen(s[..n], i) == ExpLen(s, i)
  {
    if ExpLen(s, i) > 0 {
      var p := s[..n];
      assert p[i] == s[i] && p[i + 1] == s[i + 1];
      var j := if i + 3 <= |s| && (s[i + 1] == '+' || s[i + 1] == '-') then 2 else 1;
      assert i + j < n;
      DigitRunPrefix(s, n, i + j);
    }
  }

  /** The number the scanner reads, cut out of its text, scans to the same shape. */
  lemma ScanNumberPrefix(s: string)
    requires ScanNumber(s).Some?
    ensures ScanNumber(s[..ScanNumber(s).value.len]) == ScanNumber(s)
  {
    var sign := SignLen(s);
    var a := IntLen(s, sign);
    var f := FracLen(s, sign + a);
    var e := ExpLen(s, sign + a + f);
    var n := sign + a + f + e;
    assert a > 0 && ScanNumber(s).value.len == n;
    var p := s[..n];
    assert SignLen(p) == sign by { assert p[0] == s[0]; }
    IntLenPrefix(s, n, sign);
    FracLenPrefix(s, n, sign + a);
    ExpLenPrefix(s, n, sign + a + f);
    ScanNumberOf(p, sign, a, f, e);
  }

  lemma NumberStart(l: string)
    requires ScanNumber(l).Some?
    ensures IsDigit(l[0]) || (l[0] == '-' && |l| > 1 && IsDigit(l[1]))
  {
  }

  lemma AllDigitsDecimal(n: nat)
    ensures AllDigitsValue(NatToDecimal(n)) == n
  {
    var d := NatToDecimal(n);
    assert DigitRun(d, 0) == |d| by { AllDigitsRunFrom(d, 0); }
    assert d[..|d|] == d;
    DecimalRoundTrip(n);
  }

  /** `str(i)` scans as a whole integer literal of value `i`. */
  lemma ScanInt(i: int)
    ensures ScanNumber(IntToDecimal(i)) == Some(NumberShape(|IntToDecimal(i)|, false))
    ensures IntLiteralValue(IntToDecimal(i)) == i
  {
    var l := IntToDecimal(i);
    var n := if i < 0 then -i else i;
    var d := NatToDecimal(n);
    var sign := if i < 0 then 1 else 0;
    assert SignLen(l) == sign;
    assert forall k :: sign <= k < |l| ==> IsDigit(l[k]) by {
      if i < 0 {
        forall k | 1 <= k < |l| ensures IsDigit(l[k]) { assert l[k] == d[k - 1]; }
      }
    }
    assert IntLen(l, sign) == |d| by {
      if d[0] != '0' {
        AllDigitsRunFrom(l, sign + 1);
      }
    }
    AllDigitsDecimal(n);
    if i < 0 {
      assert l[1..] == d;
    }
  }

  lemma {:induction false} AllDigitsRunFrom(l: string, i: nat)
    requires i <= |l| && forall k :: i <= k < |l| ==> IsDigit(l[k])
    ensures DigitRun(l, i) == |l| - i
    decreases |l| - i
  {
    if i < |l| { AllDigitsRunFrom(l, i + 1); }
  }

}
