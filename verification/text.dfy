/**
 String helpers used by the header predicate and by device-URL construction:
 ordinal substring search, decimal formatting of integers and its inverse.
 */
module Text {
  import opened Outcomes

  /** `needle` occurs in `s` starting at index `i`. */
  ghost predicate OccursAt(s: string, needle: string, i: int)
  {
    0 <= i && i + |needle| <= |s| && s[i..i + |needle|] == needle
  }

  /** Ordinal substring test, as `string.Contains(string)` performs it. */
  function Contains(s: string, needle: string): (r: bool)
    ensures r <==> exists i :: OccursAt(s, needle, i)
    decreases |s|
  {
    if |needle| > |s| then
      assert forall i :: !OccursAt(s, needle, i);
      false
    else if s[..|needle|] == needle then
      assert OccursAt(s, needle, 0);
      true
    else
      var rest := Contains(s[1..], needle);
      OccursShift(s, needle);
      rest
  }

  /** Occurrences in the tail of `s` are the occurrences in `s` past index 0, one place earlier. */
  lemma OccursShift(s: string, needle: string)
    requires |s| > 0
    ensures forall i :: OccursAt(s[1..], needle, i) ==> OccursAt(s, needle, i + 1)
    ensures forall j :: OccursAt(s, needle, j) && j > 0 ==> OccursAt(s[1..], needle, j - 1)
  {
    forall i | OccursAt(s[1..], needle, i)
      ensures OccursAt(s, needle, i + 1)
    {
      assert s[1..][i..i + |needle|] == s[i + 1..i + 1 + |needle|];
    }
    forall j | OccursAt(s, needle, j) && j > 0
      ensures OccursAt(s[1..], needle, j - 1)
    {
      assert s[1..][j - 1..j - 1 + |needle|] == s[j..j + |needle|];
    }
  }

  predicate IsDigit(c: char)
  {
    '0' <= c <= '9'
  }

  predicate AllDigits(s: string)
  {
    forall i :: 0 <= i < |s| ==> IsDigit(s[i])
  }

  function DigitChar(d: int): (c: char)
    requires 0 <= d < 10
    ensures IsDigit(c) && c as int - '0' as int == d
  {
    (d + '0' as int) as char
  }

  /** The shortest decimal spelling of `n`, most significant digit first. */
  function NatToDecimal(n: nat): (r: string)
    ensures |r| > 0 && AllDigits(r)
    ensures n < 10 <==> |r| == 1
    decreases n
  {
    if n < 10 then [DigitChar(n)] else NatToDecimal(n / 10) + [DigitChar(n % 10)]
  }

  /** `int.ToString()` under the invariant culture: a minus sign, then the digits of `|n|`. */
  function IntToDecimal(n: int): (r: string)
    ensures |r| > 0
    ensures n < 0 <==> r[0] == '-'
  {
    if n < 0 then "-" + NatToDecimal(-n) else NatToDecimal(n)
  }

  /** The value of a string of decimal digits. */
  function DigitsValue(s: string): nat
    requires AllDigits(s)
  {
    if |s| == 0 then 0
    else DigitsValue(s[..|s| - 1]) * 10 + (s[|s| - 1] as int - '0' as int)
  }

  /** Reads back an optionally negative decimal integer; anything else is rejected. */
  function ParseInt(s: string): (r: Option<int>)
    ensures r.Some? ==> |s| > 0
  {
    if |s| > 0 && s[0] == '-' then
      if |s| > 1 && AllDigits(s[1..]) then Some(0 - DigitsValue(s[1..]) as int) else None
    else if |s| > 0 && AllDigits(s) then Some(DigitsValue(s))
    else None
  }

  lemma {:induction false} DigitsValueOfDecimal(n: nat)
    ensures DigitsValue(NatToDecimal(n)) == n
    decreases n
  {
    if n >= 10 {
      DigitsValueOfDecimal(n / 10);
      var s := NatToDecimal(n);
      assert s[..|s| - 1] == NatToDecimal(n / 10);
    }
  }

  /** Formatting an integer and parsing it back gives the same integer. */
  lemma ParseIntOfDecimal(n: int)
    ensures ParseInt(IntToDecimal(n)) == Some(n)
  {
    if n < 0 {
      DigitsValueOfDecimal(-n);
      ParseNegative(NatToDecimal(-n));
    } else {
      DigitsValueOfDecimal(n);
      ParseNonNegative(NatToDecimal(n));
    }
  }

  /** A minus sign followed by digits parses as the negated value of the digits. */
  lemma ParseNegative(d: string)
    requires |d| > 0 && AllDigits(d)
    ensures ParseInt("-" + d) == Some(0 - DigitsValue(d) as int)
  {
    assert ("-" + d)[1..] == d;
  }

  /** A non-empty digit string parses as its value. */
  lemma ParseNonNegative(d: string)
    requires |d| > 0 && AllDigits(d)
    ensures ParseInt(d) == Some(DigitsValue(d) as int)
  {
    assert IsDigit(d[0]);
  }

  /** The index of the last `c` in `s`. */
  function LastIndexOf(s: string, c: char): (r: Option<nat>)
    ensures r.Some? ==> r.value < |s| && s[r.value] == c
    ensures r.Some? ==> forall j :: r.value < j < |s| ==> s[j] != c
    ensures r.None? <==> c !in s
  {
    if |s| == 0 then None
    else if s[|s| - 1] == c then Some(|s| - 1)
    else
      var r := LastIndexOf(s[..|s| - 1], c);
      assert s == s[..|s| - 1] + [s[|s| - 1]];
      r
  }
}
