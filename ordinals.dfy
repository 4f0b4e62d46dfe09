/**
 * Race places written as English ordinals ("1st", "2nd", "12th"), as the race
 * manager shows them on the HUD, together with a parser that reads them back.
 */
module Ordinals {
  import opened Wrappers

  predicate IsDigit(c: char) {
    '0' <= c <= '9'
  }

  predicate AllDigits(s: string) {
    forall i :: 0 <= i < |s| ==> IsDigit(s[i])
  }

  function Digit(d: nat): (c: char)
    requires d < 10
    ensures IsDigit(c)
  {
    ('0' as int + d) as char
  }

  function DigitValue(c: char): (d: nat)
    requires IsDigit(c)
    ensures d < 10
  {
    c as int - '0' as int
  }

  /** The decimal text of a natural number, as `int.ToString()` writes it. */
  function DecimalString(n: nat): (s: string)
    ensures |s| >= 1 && AllDigits(s)
    ensures n > 0 ==> s[0] != '0'
    ensures n < 10 <==> |s| == 1
    decreases n
  {
    if n < 10 then [Digit(n)] else DecimalString(n / 10) + [Digit(n % 10)]
  }

  /** Reads a string of decimal digits back as a number. */
  function ParseDecimal(s: string): (n: nat)
    requires AllDigits(s)
    decreases |s|
  {
    if s == [] then 0 else ParseDecimal(s[..|s| - 1]) * 10 + DigitValue(s[|s| - 1])
  }

  lemma {:induction false} ParseDecimalString(n: nat)
    ensures ParseDecimal(DecimalString(n)) == n
    decreases n
  {
    var s := DecimalString(n);
    if n >= 10 {
      ParseDecimalString(n / 10);
      assert s[..|s| - 1] == DecimalString(n / 10);
    }
  }

  /**
   * The suffix GetAgentPlace appends to a positive place: "th" for 11, 12 and
   * 13 (literally those three numbers), otherwise chosen by the last digit.
   */
  function PlaceSuffix(place: int): string
    requires place > 0
  {
    if 11 <= place <= 13 then "th"
    else if place % 10 == 1 then "st"
    else if place % 10 == 2 then "nd"
    else if place % 10 == 3 then "rd"
    else "th"
  }

  /** GetAgentPlace's text: empty for a place that was never assigned (<= 0). */
  function PlaceText(place: int): (r: string)
    ensures place <= 0 <==> r == ""
    ensures place > 0 ==> |r| >= 3 && AllDigits(r[..|r| - 2]) && r[|r| - 2..] == PlaceSuffix(place)
  {
    if place <= 0 then "" else DecimalString(place) + PlaceSuffix(place)
  }

  /** Reads "<digits><two-letter suffix>" back as a place; None for anything else. */
  function ParsePlace(s: string): Option<int> {
    if |s| < 3 then None
    else
      var digits := s[..|s| - 2];
      if AllDigits(digits) && digits[0] != '0' then Some(ParseDecimal(digits)) else None
  }

  /** The text of every positive place reads back as that place. */
  lemma PlaceTextRoundTrip(place: int)
    requires place > 0
    ensures ParsePlace(PlaceText(place)) == Some(place)
  {
    var r := PlaceText(place);
    assert r[..|r| - 2] == DecimalString(place);
    ParseDecimalString(place);
  }

  /** The usual English rule: 11th, 12th and 13th in every hundred. */
  function EnglishSuffix(n: nat): string {
    if 11 <= n % 100 <= 13 then "th"
    else if n % 10 == 1 then "st"
    else if n % 10 == 2 then "nd"
    else if n % 10 == 3 then "rd"
    else "th"
  }

  /**
   * GetAgentPlace agrees with English usage for every place up to 110, which
   * covers any realistic field of aircraft; the first place it writes
   * differently is 111 ("111st").
   */
  lemma PlaceSuffixIsEnglishBelow111(place: int)
    requires 0 < place < 111
    ensures PlaceSuffix(place) == EnglishSuffix(place)
  {
    if place >= 100 {
      assert place % 100 == place - 100;
    }
  }

  lemma PlaceSuffixDiffersAt111()
    ensures PlaceText(111) == "111st"
    ensures EnglishSuffix(111) == "th"
  {
    assert DecimalString(111) == DecimalString(11) + ['1'];
    assert DecimalString(11) == DecimalString(1) + ['1'];
  }
}
