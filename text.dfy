/** Decimal rendering of natural numbers, `padStart` with zeros, and the
    serial document numbers built from them ("INV-202401-00001"). */
module Text {

  predicate IsDigit(c: char) {
    '0' <= c <= '9'
  }

  predicate AllDigits(s: string) {
    forall i :: 0 <= i < |s| ==> IsDigit(s[i])
  }

  function DigitChar(d: nat): (c: char)
    requires d < 10
    ensures IsDigit(c)
  {
    (d + '0' as int) as char
  }

  function DigitValue(c: char): (d: nat)
    requires IsDigit(c)
    ensures d < 10
  {
    c as int - '0' as int
  }

  /** `String(n)` for a non-negative integer: its decimal digits, most
      significant first, with no leading zero. */
  function NatToString(n: nat): (s: string)
    ensures |s| >= 1 && AllDigits(s)
    ensures s[0] == '0' ==> n == 0
  {
    if n < 10 then [DigitChar(n)] else NatToString(n / 10) + [DigitChar(n % 10)]
  }

  /** The number a string of decimal digits denotes (the reference reading
      against which rendering is checked). */
  function DigitsValue(s: string): nat
    requires AllDigits(s)
  {
    if s == [] then 0 else DigitsValue(s[..|s| - 1]) * 10 + DigitValue(s[|s| - 1])
  }

  lemma {:induction false} NatToStringRoundTrip(n: nat)
    ensures DigitsValue(NatToString(n)) == n
  {
    if n >= 10 {
      NatToStringRoundTrip(n / 10);
      var s := NatToString(n);
      assert s[..|s| - 1] == NatToString(n / 10);
    }
  }

  /** Rendering is injective: two numbers with the same text are equal. */
  lemma NatToStringInjective(a: nat, b: nat)
    ensures NatToString(a) == NatToString(b) ==> a == b
  {
    NatToStringRoundTrip(a);
    NatToStringRoundTrip(b);
  }

  /** A four-digit year renders as exactly four characters. */
  lemma FourDigitYear(year: nat)
    requires 1000 <= year <= 9999
    ensures |NatToString(year)| == 4
  {
    assert |NatToString(year / 1000)| == 1;
    assert |NatToString(year / 100)| == 2;
    assert |NatToString(year / 10)| == 3;
  }

  function Repeat(c: char, k: nat): (r: string)
    ensures |r| == k
    ensures forall i :: 0 <= i < k ==> r[i] == c
  {
    if k == 0 then [] else [c] + Repeat(c, k - 1)
  }

  /** `s.padStart(width, fill)`: fill characters are prepended until the
      length reaches `width`; a longer string is left as it is. */
  function PadStart(s: string, width: nat, fill: char): (r: string)
    ensures |r| == if |s| >= width then |s| else width
    ensures r[|r| - |s|..] == s
    ensures forall i :: 0 <= i < |r| - |s| ==> r[i] == fill
  {
    if |s| >= width then s else Repeat(fill, width - |s|) + s
  }

  /** `String(n).padStart(width, '0')`. */
  function ZeroPad(n: nat, width: nat): (r: string)
    ensures AllDigits(r)
  {
    PadStart(NatToString(n), width, '0')
  }

  lemma {:induction false} LeadingZerosAddNothing(k: nat, s: string)
    requires AllDigits(s)
    ensures AllDigits(Repeat('0', k) + s)
    ensures DigitsValue(Repeat('0', k) + s) == DigitsValue(s)
  {
    if s != [] {
      var t := Repeat('0', k) + s;
      assert t[..|t| - 1] == Repeat('0', k) + s[..|s| - 1];
      LeadingZerosAddNothing(k, s[..|s| - 1]);
    } else {
      ZerosAreZero(k);
      assert Repeat('0', k) + s == Repeat('0', k);
    }
  }

  lemma {:induction false} ZerosAreZero(k: nat)
    ensures AllDigits(Repeat('0', k))
    ensures DigitsValue(Repeat('0', k)) == 0
  {
    if k > 0 {
      var z := Repeat('0', k);
      assert z[..k - 1] == Repeat('0', k - 1);
      ZerosAreZero(k - 1);
    }
  }

  /** Zero padding keeps the value and gives at least `width` characters:
      reading the padded text back yields the number that was padded. */
  lemma ZeroPadRoundTrip(n: nat, width: nat)
    ensures |ZeroPad(n, width)| == if |NatToString(n)| >= width then |NatToString(n)| else width
    ensures DigitsValue(ZeroPad(n, width)) == n
  {
    NatToStringRoundTrip(n);
    var s := NatToString(n);
    if |s| < width {
      LeadingZerosAddNothing(width - |s|, s);
    }
  }

  predicate StartsWith(s: string, prefix: string) {
    |prefix| <= |s| && s[..|prefix|] == prefix
  }

  /** The month part of a serial prefix: `String(getMonth() + 1).padStart(2, '0')`
      for a calendar month numbered 1 to 12. */
  function SerialPrefix(tag: string, year: nat, month: nat): string {
    tag + "-" + NatToString(year) + ZeroPad(month, 2)
  }

  /** `${prefix}-${String(count + 1).padStart(width, '0')}`: the number given
      to the next document when `count` documents already carry the prefix. */
  function SerialNumber(tag: string, year: nat, month: nat, count: nat, width: nat): string {
    SerialPrefix(tag, year, month) + "-" + ZeroPad(count + 1, width)
  }

  /** A serial number is the prefix, a hyphen, and a suffix of at least
      `width` digits that reads back as `count + 1`. */
  lemma SerialNumberShape(tag: string, year: nat, month: nat, count: nat, width: nat)
    ensures var p := SerialPrefix(tag, year, month);
            var r := SerialNumber(tag, year, month, count, width);
            && StartsWith(r, p + "-")
            && AllDigits(r[|p| + 1..])
            && |r[|p| + 1..]| >= width
            && DigitsValue(r[|p| + 1..]) == count + 1
  {
    var p := SerialPrefix(tag, year, month);
    var r := SerialNumber(tag, year, month, count, width);
    assert r == (p + "-") + ZeroPad(count + 1, width);
    assert r[|p| + 1..] == ZeroPad(count + 1, width);
    ZeroPadRoundTrip(count + 1, width);
  }

  /** Within one prefix, different counts give different numbers. */
  lemma SerialNumberInjective(tag: string, year: nat, month: nat, a: nat, b: nat, width: nat)
    requires SerialNumber(tag, year, month, a, width) == SerialNumber(tag, year, month, b, width)
    ensures a == b
  {
    SerialNumberShape(tag, year, month, a, width);
    SerialNumberShape(tag, year, month, b, width);
  }

  function Pow10(k: nat): (p: nat)
    ensures p >= 1
  {
    if k == 0 then 1 else 10 * Pow10(k - 1)
  }

  /** A number below 10^k renders in at most k digits. */
  lemma {:induction false} NatToStringShort(n: nat, k: nat)
    requires 1 <= k && n < Pow10(k)
    ensures |NatToString(n)| <= k
  {
    if n >= 10 {
      assert k >= 2;
      NatToStringShort(n / 10, k - 1);
    }
  }

  /** A number below 10^width pads to exactly `width` characters. */
  lemma ShortNumberPadsToWidth(n: nat, width: nat)
    requires 1 <= width && n < Pow10(width)
    ensures |ZeroPad(n, width)| == width
  {
    NatToStringShort(n, width);
  }

  /** With a four-digit year and a month from 1 to 12, the prefix is the tag
      followed by exactly seven characters. */
  lemma SerialPrefixLength(tag: string, year: nat, month: nat)
    requires 1000 <= year <= 9999 && 1 <= month <= 12
    ensures |SerialPrefix(tag, year, month)| == |tag| + 7
  {
    FourDigitYear(year);
    assert Pow10(2) == 100;
    ShortNumberPadsToWidth(month, 2);
  }
}
