/** Display helpers of the web client: `truncateText` and
    `calculatePercentageChange`. The change is computed here on exact reals,
    not on binary floating point. */
module Formatters {
  import opened Text

  const Ellipsis: string := "..."

  /** `text.slice(0, end)`: a negative end counts back from the end of the
      text, and the end is clamped to the text. */
  function SliceTo(text: string, end: int): (r: string)
    ensures 0 <= end <= |text| ==> r == text[..end]
    ensures end > |text| ==> r == text
    ensures end < 0 ==> r == text[..if |text| + end < 0 then 0 else |text| + end]
  {
    if end < 0 then text[..if |text| + end < 0 then 0 else |text| + end]
    else if end > |text| then text
    else text[..end]
  }

  /** `truncateText`: the text itself when it fits in `maxLength` characters;
      otherwise its slice up to `maxLength`, followed by an ellipsis. */
  function TruncateText(text: string, maxLength: int): (r: string)
    ensures |text| <= maxLength ==> r == text
    ensures 0 <= maxLength < |text| ==>
              && |r| == maxLength + 3
              && r[..maxLength] == text[..maxLength]
              && r[maxLength..] == Ellipsis
    ensures maxLength < 0 ==> r == SliceTo(text, maxLength) + Ellipsis
  {
    if |text| <= maxLength then text else SliceTo(text, maxLength) + Ellipsis
  }

  /** Truncating is idempotent for a non-negative limit: a truncated text is
      three characters over the limit, so truncating it again cuts the
      ellipsis and puts it back. */
  lemma TruncateIdempotent(text: string, maxLength: int)
    requires maxLength >= 0
    ensures TruncateText(TruncateText(text, maxLength), maxLength) == TruncateText(text, maxLength)
  {
    if maxLength < |text| {
      var once := TruncateText(text, maxLength);
      assert once == text[..maxLength] + Ellipsis;
      assert once[..maxLength] == text[..maxLength];
    }
  }

  /** A truncated text is a prefix of the original: the text is either kept
      whole or cut, never altered. */
  lemma TruncateKeepsPrefix(text: string, maxLength: int)
    ensures var r := TruncateText(text, maxLength);
            r == text || (|r| >= 3 && r[..|r| - 3] == text[..|r| - 3] && r[|r| - 3..] == Ellipsis)
  {
    var r := TruncateText(text, maxLength);
    if |text| > maxLength {
      var cut := SliceTo(text, maxLength);
      assert r == cut + Ellipsis;
      assert r[..|r| - 3] == cut;
    }
  }

  // ---------------------------------------------------------------------------
  // Percentage change

  /** `((current - previous) / previous) * 100`, exactly. */
  function Change(current: int, previous: int): real
    requires previous != 0
  {
    ((current - previous) as real / previous as real) * 100.0
  }

  /** `x.toFixed(1)` for x >= 0: x rounded half up to one decimal place,
      written as whole part, a point and one digit. Read back, the digits
      denote a number of tenths within half a tenth of x (an exact half
      rounds up). */
  function FixedOne(x: real): (s: string)
    requires x >= 0.0
    ensures |s| >= 3 && s[|s| - 2] == '.' && IsDigit(s[|s| - 1])
    ensures IsDigit(s[0]) && AllDigits(s[..|s| - 2])
    ensures s[0] == '0' ==> |s| == 3
    ensures var tenths := DigitsValue(s[..|s| - 2]) * 10 + DigitValue(s[|s| - 1]);
            tenths as real - 0.5 <= x * 10.0 < tenths as real + 0.5
  {
    var tenths := (x * 10.0 + 0.5).Floor;
    var whole := NatToString(tenths / 10);
    var r := whole + "." + [DigitChar(tenths % 10)];
    assert r[..|r| - 2] == whole;
    NatToStringRoundTrip(tenths / 10);
    assert DigitValue(r[|r| - 1]) == tenths % 10;
    r
  }

  /** `calculatePercentageChange`: "0%" when there is nothing to compare
      against; otherwise the change to one decimal place, with a "+" in front
      when it is zero or more (a negative change keeps its "-"). */
  function PercentageChange(current: int, previous: int): (s: string)
    ensures previous == 0 ==> s == "0%"
    ensures previous != 0 ==> Change(current, previous) >= 0.0 ==>
              s == "+" + FixedOne(Change(current, previous)) + "%"
    ensures previous != 0 ==> Change(current, previous) < 0.0 ==>
              s == "-" + FixedOne(-Change(current, previous)) + "%"
  {
    if previous == 0 then "0%"
    else
      var change := Change(current, previous);
      var sign := if change >= 0.0 then "+" else "";
      var magnitude := if change >= 0.0 then FixedOne(change) else "-" + FixedOne(-change);
      sign + magnitude + "%"
  }

  /** The answer starts with "+" exactly when the change is zero or more, and
      otherwise with "-"; it always ends with "%". */
  lemma PercentageSign(current: int, previous: int)
    requires previous != 0
    ensures var s := PercentageChange(current, previous);
            && |s| >= 2 && s[|s| - 1] == '%'
            && (s[0] == '+' <==> Change(current, previous) >= 0.0)
            && (s[0] == '-' <==> Change(current, previous) < 0.0)
  {
  }

  /** Against a positive previous value the sign follows growth: "+" exactly
      when the current value is at least the previous one. Against a negative
      previous value the sign is reversed. */
  lemma SignFollowsGrowth(current: int, previous: int)
    requires previous != 0
    ensures previous > 0 ==> (PercentageChange(current, previous)[0] == '+' <==> current >= previous)
    ensures previous < 0 ==> (PercentageChange(current, previous)[0] == '+' <==> current <= previous)
  {
    PercentageSign(current, previous);
    QuotientSign((current - previous) as real, previous as real);
  }

  /** The sign of a quotient, scaled by 100. */
  lemma QuotientSign(d: real, p: real)
    requires p != 0.0
    ensures p > 0.0 ==> ((d / p) * 100.0 >= 0.0 <==> d >= 0.0)
    ensures p < 0.0 ==> ((d / p) * 100.0 >= 0.0 <==> d <= 0.0)
  {
    var q := d / p;
    assert q * p == d;
    assert q * 100.0 >= 0.0 <==> q >= 0.0;
    if p > 0.0 {
      if q >= 0.0 { assert q * p >= 0.0; } else { assert q * p < 0.0; }
    } else {
      if q >= 0.0 { assert q * p <= 0.0; } else { assert q * p > 0.0; }
    }
  }
}
