/**
 * Decimal numerals as Python writes them: `str(i)` for an integer, and the
 * three-wide zero padding `str(i).zfill(3)` (which `format(i, "03d")` gives too).
 * The pipeline builds audio URLs, file names and progress messages from these.
 */
module Decimal {
  import opened Wrappers

  predicate IsDigit(c: char) { '0' <= c <= '9' }

  predicate AllDigits(s: string) { forall i :: 0 <= i < |s| ==> IsDigit(s[i]) }

  function DigitChar(d: nat): (c: char)
    requires d < 10
    ensures IsDigit(c)
  {
    ('0' as int + d) as char
  }

  function DigitValue(c: char): nat
    requires IsDigit(c)
  {
    c as int - '0' as int
  }

  /** `str(n)` for a natural number: the shortest numeral, no leading zero. */
  function NatToString(n: nat): (s: string)
    ensures |s| >= 1 && AllDigits(s)
    ensures |s| > 1 ==> s[0] != '0'
    decreases n
  {
    if n < 10 then [DigitChar(n)] else NatToString(n / 10) + [DigitChar(n % 10)]
  }

  /** `str(i)` for any integer: a minus sign before the numeral of `-i`. */
  function IntToString(i: int): string
  {
    if i < 0 then "-" + NatToString(-i) else NatToString(i)
  }

  /** The value of a string of digits, most significant first. */
  function DigitsValue(s: string): nat
    requires AllDigits(s)
    decreases |s|
  {
    if s == [] then 0 else 10 * DigitsValue(s[..|s| - 1]) + DigitValue(s[|s| - 1])
  }

  /** Reads back what IntToString writes: an optional minus sign, then digits. */
  function ParseInt(s: string): Option<int>
  {
    if |s| > 1 && s[0] == '-' && AllDigits(s[1..]) then Some(0 - DigitsValue(s[1..]) as int)
    else if |s| > 0 && AllDigits(s) then Some(DigitsValue(s))
    else None
  }

  function Zeros(k: nat): (z: string)
    ensures |z| == k && AllDigits(z)
  {
    seq(k, _ => '0')
  }

  /**
   * `str(i).zfill(3)`: a numeral shorter than three characters is padded with
   * zeros up to three, after the minus sign when there is one; a longer one is
   * left as it is.
   */
  function ZFill3(i: int): string
  {
    var t := IntToString(i);
    if |t| >= 3 then t
    else if i < 0 then "-" + Zeros(3 - |t|) + NatToString(-i)
    else Zeros(3 - |t|) + t
  }

  lemma {:induction false} NatToStringValue(n: nat)
    ensures DigitsValue(NatToString(n)) == n
    decreases n
  {
    if n >= 10 {
      var s := NatToString(n);
      assert s[..|s| - 1] == NatToString(n / 10);
      NatToStringValue(n / 10);
    }
  }

  /** Python's `int(str(i)) == i`: the numeral determines the integer. */
  lemma {:induction false} IntToStringRoundTrip(i: int)
    ensures ParseInt(IntToString(i)) == Some(i)
  {
    var s := IntToString(i);
    if i < 0 {
      var d := NatToString(-i);
      assert s == "-" + d && s[1..] == d;
      NatToStringValue(-i);
      assert ParseInt(s) == Some(0 - DigitsValue(d) as int);
    } else {
      NatToStringValue(i);
      assert s[0] != '-';
      assert ParseInt(s) == Some(DigitsValue(s));
    }
  }

  lemma IntToStringInjective(a: int, b: int)
    requires IntToString(a) == IntToString(b)
    ensures a == b
  {
    IntToStringRoundTrip(a);
    IntToStringRoundTrip(b);
  }

  /** A separator missing from a longer prefix cannot stand at the shorter prefix's end. */
  lemma SeparatorPosition(x: string, c: char, y: string, x2: string, y2: string)
    requires c !in x2 && |x| < |x2|
    ensures x + ([c] + y) != x2 + ([c] + y2)
  {
    assert (x + ([c] + y))[|x|] == c;
    assert (x2 + ([c] + y2))[|x|] == x2[|x|];
  }

  /** A separator that occurs in neither prefix cuts two equal strings at the same place. */
  lemma SplitAt(x: string, c: char, y: string, x2: string, y2: string)
    requires c !in x && c !in x2 && x + ([c] + y) == x2 + ([c] + y2)
    ensures x == x2 && y == y2
  {
    if |x| < |x2| {
      SeparatorPosition(x, c, y, x2, y2);
    } else if |x2| < |x| {
      SeparatorPosition(x2, c, y2, x, y);
    } else {
      var s := x + ([c] + y);
      assert x == s[..|x|] && x2 == (x2 + ([c] + y2))[..|x2|];
      assert y == s[|x| + 1..] && y2 == (x2 + ([c] + y2))[|x2| + 1..];
    }
  }

  /** A numeral, whatever follows it, starts with '-' exactly when it is negative. */
  lemma NumeralSign(i: int, c: char, y: string)
    ensures (IntToString(i) + ([c] + y))[0] == '-' <==> i < 0
  {
    var d := NatToString(if i < 0 then -i else i);
    assert IsDigit(d[0]);
  }

  /** A numeral followed by a separator other than a digit or '-' determines the integer and the rest. */
  lemma {:induction false} SplitAfterNumeral(i: int, j: int, c: char, y: string, y2: string)
    requires !IsDigit(c)
    requires IntToString(i) + ([c] + y) == IntToString(j) + ([c] + y2)
    ensures i == j && y == y2
  {
    var di, dj := NatToString(if i < 0 then -i else i), NatToString(if j < 0 then -j else j);
    assert c !in di && c !in dj;
    var s := IntToString(i) + ([c] + y);
    if i < 0 && j < 0 {
      assert s == "-" + (di + ([c] + y)) && s == "-" + (dj + ([c] + y2));
      assert di + ([c] + y) == s[1..] == dj + ([c] + y2);
      SplitAt(di, c, y, dj, y2);
      IntToStringInjective(i, j);
    } else if i < 0 || j < 0 {
      NumeralSign(i, c, y);
      NumeralSign(j, c, y2);
    } else {
      SplitAt(di, c, y, dj, y2);
      IntToStringInjective(i, j);
    }
  }

  /** Leading zeros do not change the value of a numeral. */
  lemma {:induction false} LeadingZerosValue(k: nat, s: string)
    requires AllDigits(s)
    ensures AllDigits(Zeros(k) + s) && DigitsValue(Zeros(k) + s) == DigitsValue(s)
    decreases |s|
  {
    var z := Zeros(k) + s;
    assert AllDigits(z) by {
      forall i | 0 <= i < |z| ensures IsDigit(z[i]) {
        if i < k { assert z[i] == Zeros(k)[i]; } else { assert z[i] == s[i - k]; }
      }
    }
    if s == [] {
      assert z == Zeros(k);
      ZerosValue(k);
    } else {
      assert z[..|z| - 1] == Zeros(k) + s[..|s| - 1];
      LeadingZerosValue(k, s[..|s| - 1]);
    }
  }

  lemma {:induction false} ZerosValue(k: nat)
    ensures DigitsValue(Zeros(k)) == 0
    decreases k
  {
    if k > 0 {
      assert Zeros(k)[..k - 1] == Zeros(k - 1);
      ZerosValue(k - 1);
    }
  }

  lemma NatToStringShort(n: nat)
    requires n < 1000
    ensures |NatToString(n)| <= 3
  {
    if n >= 10 {
      if n / 10 >= 10 {
        assert |NatToString(n / 10 / 10)| == 1;
      }
    }
  }

  /**
   * For a non-negative number the padded form is all digits, at least three
   * wide, exactly three wide below 1000, and still denotes the number.
   */
  lemma ZFill3Natural(n: nat)
    ensures AllDigits(ZFill3(n)) && DigitsValue(ZFill3(n)) == n
    ensures |ZFill3(n)| >= 3
    ensures n < 1000 ==> |ZFill3(n)| == 3
  {
    var t := NatToString(n);
    NatToStringValue(n);
    if |t| < 3 {
      LeadingZerosValue(3 - |t|, t);
    }
    if n < 1000 {
      NatToStringShort(n);
    }
  }

  lemma ZFill3Injective(a: nat, b: nat)
    requires ZFill3(a) == ZFill3(b)
    ensures a == b
  {
    ZFill3Natural(a);
    ZFill3Natural(b);
  }
}
