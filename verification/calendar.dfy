/** Calendar dates as `chrono::NaiveDate` (proleptic Gregorian), with its
    `Display` (`%Y-%m-%d`) and a strict reading of `%F`. */
module Calendar {
  import opened Wrappers
  import opened Text

  datatype Date = Date(year: int, month: nat, day: nat)

  predicate IsLeapYear(y: int) {
    (y % 4 == 0 && y % 100 != 0) || y % 400 == 0
  }

  function DaysInMonth(y: int, m: nat): nat
    requires 1 <= m <= 12
  {
    if m == 2 then (if IsLeapYear(y) then 29 else 28)
    else if m == 4 || m == 6 || m == 9 || m == 11 then 30
    else 31
  }

  predicate IsValid(d: Date) {
    1 <= d.month <= 12 && 1 <= d.day <= DaysInMonth(d.year, d.month)
  }

  type NaiveDate = d: Date | IsValid(d) witness Date(1970, 1, 1)

  /** `s` left-padded with `0` to at least `w` characters. */
  function PadZeros(s: string, w: nat): (r: string)
    ensures |r| == if |s| < w then w else |s|
    ensures r[|r| - |s|..] == s
    ensures forall k :: 0 <= k < |r| - |s| ==> r[k] == '0'
  {
    if |s| < w then
      var zeros := seq(w - |s|, _ => '0');
      assert (zeros + s)[w - |s|..] == s;
      zeros + s
    else s
  }

  /** chrono's `Display`: `YYYY-MM-DD`, zero-padded; a year outside 0..=9999
      is written with its sign and at least four digits. */
  function ToIsoString(d: NaiveDate): string {
    var absYear := if d.year < 0 then -d.year else d.year;
    IsoText(d.year, PadZeros(Decimal(absYear), 4), PadZeros(Decimal(d.month), 2), PadZeros(Decimal(d.day), 2))
  }

  /** The layout of the string form, given the padded digits of each field:
      the year's sign only outside 0..=9999, then the fields joined by '-'. */
  function IsoText(year: int, yearDigits: string, month: string, day: string): string {
    (if 0 <= year <= 9999 then yearDigits else if year < 0 then "-" + yearDigits else "+" + yearDigits)
    + "-" + month + "-" + day
  }

  /** A padded digit string starts with a digit. */
  lemma PaddedStartsWithDigit(s: string, w: nat)
    requires s != [] && AllDigits(s)
    ensures IsDigit(PadZeros(s, w)[0])
  {
    var r := PadZeros(s, w);
    if |s| >= w {
      assert r[0] == r[|r| - |s|..][0];
    }
  }

  /** The first character of the layout: the year's first digit inside
      0..=9999, its sign outside. */
  lemma IsoTextFirst(year: int, yearDigits: string, month: string, day: string)
    requires yearDigits != []
    ensures IsoText(year, yearDigits, month, day) != []
    ensures 0 <= year <= 9999 ==> IsoText(year, yearDigits, month, day)[0] == yearDigits[0]
    ensures year < 0 ==> IsoText(year, yearDigits, month, day)[0] == '-'
    ensures year > 9999 ==> IsoText(year, yearDigits, month, day)[0] == '+'
  {
  }

  /** A date's string form starts with a digit for years 0 to 9999 and with
      the year's sign otherwise. */
  lemma IsoYearSign(d: NaiveDate)
    ensures ToIsoString(d) != []
    ensures 0 <= d.year <= 9999 ==> IsDigit(ToIsoString(d)[0])
    ensures d.year < 0 ==> ToIsoString(d)[0] == '-'
    ensures d.year > 9999 ==> ToIsoString(d)[0] == '+'
  {
    var absYear := if d.year < 0 then -d.year else d.year;
    var year := PadZeros(Decimal(absYear), 4);
    PaddedStartsWithDigit(Decimal(absYear), 4);
    IsoTextFirst(d.year, year, PadZeros(Decimal(d.month), 2), PadZeros(Decimal(d.day), 2));
  }

  /** `NaiveDate::parse_from_str(s, "%F")`, restricted to its canonical spelling:
      four digits, `-`, two digits, `-`, two digits, naming a real date. */
  function ParseIso(s: string): (r: Option<NaiveDate>)
    ensures r.Some? ==> |s| == 10 && s[4] == '-' && s[7] == '-'
    ensures r.Some? ==> AllDigits(s[..4]) && AllDigits(s[5..7]) && AllDigits(s[8..])
    ensures r.Some? ==> 0 <= r.value.year < 10000
  {
    if |s| == 10 && s[4] == '-' && s[7] == '-'
       && AllDigits(s[..4]) && AllDigits(s[5..7]) && AllDigits(s[8..])
    then
      DigitsValueBound(s[..4]);
      assert Pow10(4) == 10000;
      var d := Date(DigitsValue(s[..4]), DigitsValue(s[5..7]), DigitsValue(s[8..]));
      if IsValid(d) then Some(d) else None
    else None
  }

  lemma {:induction false} ZerosValue(z: string)
    requires forall k :: 0 <= k < |z| ==> z[k] == '0'
    ensures AllDigits(z) && DigitsValue(z) == 0
  {
    if z != [] {
      ZerosValue(z[..|z| - 1]);
    }
  }

  /** Leading zeros do not change the value of a digit string. */
  lemma {:induction false} LeadingZerosValue(z: string, s: string)
    requires forall k :: 0 <= k < |z| ==> z[k] == '0'
    requires AllDigits(s)
    ensures AllDigits(z + s) && DigitsValue(z + s) == DigitsValue(s)
  {
    if s == [] {
      assert z + s == z;
      ZerosValue(z);
    } else {
      var t := z + s;
      assert t[..|t| - 1] == z + s[..|s| - 1];
      LeadingZerosValue(z, s[..|s| - 1]);
    }
  }

  /** A number below `10^w`, printed and padded to `w`, is `w` digits worth `n`. */
  lemma {:induction false} PaddedDecimal(n: nat, w: nat)
    requires w >= 1 && n < Pow10(w)
    ensures |PadZeros(Decimal(n), w)| == w
    ensures AllDigits(PadZeros(Decimal(n), w))
    ensures DigitsValue(PadZeros(Decimal(n), w)) == n
  {
    var s := Decimal(n);
    DecimalLength(n, w);
    DecimalValue(n);
    var r := PadZeros(s, w);
    var z := r[..|r| - |s|];
    assert forall k :: 0 <= k < |z| ==> z[k] == '0';
    assert r == z + s;
    LeadingZerosValue(z, s);
  }

  lemma IsoParts(y: string, m: string, dd: string)
    requires |y| == 4 && |m| == 2 && |dd| == 2
    ensures var s := y + "-" + m + "-" + dd;
      |s| == 10 && s[..4] == y && s[4] == '-' && s[5..7] == m && s[7] == '-' && s[8..] == dd
  {
    var tail := "-" + m + "-" + dd;
    assert y + "-" + m + "-" + dd == y + tail;
    assert tail[1..3] == m && tail[4..] == dd;
  }

  /** The string form of every date in years 0 to 9999 is an ISO 8601 calendar
      date `YYYY-MM-DD` that reads back as the same date. */
  lemma {:induction false} IsoRoundTrip(d: NaiveDate)
    requires 0 <= d.year <= 9999
    ensures |ToIsoString(d)| == 10
    ensures ParseIso(ToIsoString(d)) == Some(d)
  {
    var y := PadZeros(Decimal(d.year), 4);
    var m := PadZeros(Decimal(d.month), 2);
    var dd := PadZeros(Decimal(d.day), 2);
    assert |y| == 4 && AllDigits(y) && DigitsValue(y) == d.year by {
      assert Pow10(4) == 10000;
      PaddedDecimal(d.year, 4);
    }
    assert |m| == 2 && AllDigits(m) && DigitsValue(m) == d.month by {
      assert Pow10(2) == 100;
      PaddedDecimal(d.month, 2);
    }
    assert |dd| == 2 && AllDigits(dd) && DigitsValue(dd) == d.day by {
      assert Pow10(2) == 100 && d.day <= 31;
      PaddedDecimal(d.day, 2);
    }
    assert ToIsoString(d) == y + "-" + m + "-" + dd;
    IsoParts(y, m, dd);
  }
}
