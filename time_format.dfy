/**
 * The "HH:MM" stamp shown under every chat bubble.
 *
 * Both message views compute `hours > 9 ? hours : "0" + hours` (and the same
 * for minutes) and join the two with ":". A JavaScript number is printed in
 * decimal without leading zeros; `Decimal` models that conversion and
 * `ValueOf` reads a digit string back, so that the padding can be checked
 * against an independent reading of what it printed.
 */
module TimeFormat {
  import opened Wrappers

  /** The two fields of a `Date` that the views read: `getHours()` and `getMinutes()`. */
  datatype Clock = Clock(hours: nat, minutes: nat)

  /** What `getHours()` and `getMinutes()` can return. */
  predicate IsValidClock(c: Clock) {
    c.hours < 24 && c.minutes < 60
  }

  predicate IsDigit(ch: char) {
    '0' <= ch <= '9'
  }

  predicate AllDigits(s: string) {
    forall i :: 0 <= i < |s| ==> IsDigit(s[i])
  }

  function DigitChar(d: nat): (ch: char)
    requires d < 10
    ensures IsDigit(ch)
    ensures (ch == '0') == (d == 0)
  {
    ('0' as int + d) as char
  }

  function DigitValue(ch: char): (d: nat)
    requires IsDigit(ch)
    ensures d < 10
  {
    ch as int - '0' as int
  }

  /** The decimal text of a non-negative number, as JavaScript prints it. */
  function Decimal(n: nat): (s: string)
    ensures |s| >= 1 && AllDigits(s)
    ensures s[0] == '0' <==> n == 0
    ensures |s| == 1 <==> n < 10
    ensures |s| == 2 <==> 10 <= n < 100
    decreases n
  {
    if n < 10 then [DigitChar(n)] else Decimal(n / 10) + [DigitChar(n % 10)]
  }

  /** The number a string of decimal digits denotes (leading zeros allowed). */
  function ValueOf(s: string): nat
    requires AllDigits(s)
    decreases |s|
  {
    if s == [] then 0 else ValueOf(s[..|s| - 1]) * 10 + DigitValue(s[|s| - 1])
  }

  lemma {:induction false} DecimalRoundTrip(n: nat)
    ensures ValueOf(Decimal(n)) == n
    decreases n
  {
    if n >= 10 {
      var d := Decimal(n / 10);
      var s := d + [DigitChar(n % 10)];
      assert s[..|s| - 1] == d;
      DecimalRoundTrip(n / 10);
    }
  }

  /** A leading "0" does not change the value of a digit string. */
  lemma {:induction false} LeadingZero(s: string)
    requires AllDigits(s)
    ensures AllDigits("0" + s) && ValueOf("0" + s) == ValueOf(s)
    decreases |s|
  {
    var z := "0" + s;
    if s != [] {
      assert z[..|z| - 1] == "0" + s[..|s| - 1];
      LeadingZero(s[..|s| - 1]);
    }
  }

  /**
   * One time field as the views print it: values up to 9 get a "0" in front,
   * larger values are printed as they are.
   */
  function PadField(v: nat): (s: string)
    ensures |s| >= 2 && AllDigits(s)
    ensures s[0] == '0' <==> v <= 9
    ensures v < 100 ==> |s| == 2
    ensures v >= 100 ==> |s| > 2
  {
    if v > 9 then Decimal(v) else "0" + Decimal(v)
  }

  /** The padded field still denotes the value it was made from. */
  lemma PadFieldRoundTrip(v: nat)
    ensures ValueOf(PadField(v)) == v
  {
    DecimalRoundTrip(v);
    if v <= 9 {
      LeadingZero(Decimal(v));
    }
  }

  /** The stamp `hours + ":" + minutes`. */
  function FormatClock(c: Clock): (s: string)
    ensures IsValidClock(c) ==> |s| == 5 && s[2] == ':'
    ensures IsValidClock(c) ==> AllDigits(s[..2]) && AllDigits(s[3..])
  {
    PadField(c.hours) + ":" + PadField(c.minutes)
  }

  /** Reads an "HH:MM" stamp back; anything else is rejected. */
  function ParseClock(s: string): Option<Clock> {
    if |s| == 5 && s[2] == ':' && AllDigits(s[..2]) && AllDigits(s[3..])
    then Some(Clock(ValueOf(s[..2]), ValueOf(s[3..])))
    else None
  }

  /** For every time a `Date` can show, the stamp reads back as that time. */
  lemma FormatClockRoundTrip(c: Clock)
    requires IsValidClock(c)
    ensures ParseClock(FormatClock(c)) == Some(c)
  {
    var s := FormatClock(c);
    assert s[..2] == PadField(c.hours);
    assert s[3..] == PadField(c.minutes);
    PadFieldRoundTrip(c.hours);
    PadFieldRoundTrip(c.minutes);
  }
}
