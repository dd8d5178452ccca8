/** The part of the JavaScript `Date` object the fund detail page uses: a
    proleptic Gregorian calendar date, stepping back one day, moving the
    month or the year with the setters' overflow rule, the day of the
    week, and the ISO 8601 extended calendar date (YYYY-MM-DD, section
    5.2.1.1 of ISO 8601:2004) that `toISOString` starts with. */
module Calendar {

  import opened Types
  import Text

  /** A calendar day; `month` is 1-based (January is 1). */
  datatype CalDate = CalDate(year: int, month: int, day: int)

  predicate IsLeap(y: int) {
    y % 4 == 0 && (y % 100 != 0 || y % 400 == 0)
  }

  function DaysIn(y: int, m: int): (n: int)
    requires 1 <= m <= 12
    ensures 28 <= n <= 31
  {
    if m == 2 then (if IsLeap(y) then 29 else 28)
    else if m == 4 || m == 6 || m == 9 || m == 11 then 30
    else 31
  }

  predicate Valid(d: CalDate) {
    1 <= d.month <= 12 && 1 <= d.day <= DaysIn(d.year, d.month)
  }

  /** Lexicographic order on (year, month, day): `a` is an earlier day. */
  predicate Before(a: CalDate, b: CalDate) {
    a.year < b.year ||
    (a.year == b.year && (a.month < b.month || (a.month == b.month && a.day < b.day)))
  }

  /** Leap years in 1..x (counted the same way below 1). */
  function Leaps(x: int): int {
    x / 4 - x / 100 + x / 400
  }

  /** Days from 1970-01-01 to the first of January of `y`. */
  function DaysBeforeYear(y: int): int {
    365 * (y - 1970) + Leaps(y - 1) - Leaps(1969)
  }

  function DaysBeforeMonth(y: int, m: int): int
    requires 1 <= m <= 12
    decreases m
  {
    if m == 1 then 0 else DaysBeforeMonth(y, m - 1) + DaysIn(y, m - 1)
  }

  /** Days since 1970-01-01 (the ECMAScript epoch day). */
  function DayNumber(d: CalDate): int
    requires 1 <= d.month <= 12
  {
    DaysBeforeYear(d.year) + DaysBeforeMonth(d.year, d.month) + d.day - 1
  }

  /** Day of the week of an epoch day, 0 for Sunday as `getDay` counts;
      1970-01-01 was a Thursday. */
  function WeekdayOf(n: int): (w: int)
    ensures 0 <= w < 7
  {
    (n + 4) % 7
  }

  predicate IsWeekendDay(n: int) {
    WeekdayOf(n) == 0 || WeekdayOf(n) == 6
  }

  lemma Div4Step(y: int)
    ensures y / 4 - (y - 1) / 4 == if y % 4 == 0 then 1 else 0
  {
  }

  lemma Div100Step(y: int)
    ensures y / 100 - (y - 1) / 100 == if y % 100 == 0 then 1 else 0
  {
  }

  lemma Div400Step(y: int)
    ensures y / 400 - (y - 1) / 400 == if y % 400 == 0 then 1 else 0
  {
  }

  /** A multiple of 100 is a multiple of 4. */
  lemma Multiple100(y: int)
    requires y % 100 == 0
    ensures y % 4 == 0
  {
    var k := y / 100;
    assert y == 100 * k;
    assert y == 4 * (25 * k);
  }

  /** A multiple of 400 is a multiple of 100. */
  lemma Multiple400(y: int)
    requires y % 400 == 0
    ensures y % 100 == 0
  {
    var k := y / 400;
    assert y == 400 * k;
    assert y == 100 * (4 * k);
  }

  lemma YearLength(y: int)
    ensures DaysBeforeYear(y + 1) - DaysBeforeYear(y) == if IsLeap(y) then 366 else 365
  {
    Div4Step(y);
    Div100Step(y);
    Div400Step(y);
    if y % 100 == 0 {
      Multiple100(y);
    }
    if y % 400 == 0 {
      Multiple400(y);
    }
    assert DaysBeforeYear(y + 1) - DaysBeforeYear(y) == 365 + Leaps(y) - Leaps(y - 1);
  }

  lemma DaysBeforeDecember(y: int)
    ensures DaysBeforeMonth(y, 12) + 31 == if IsLeap(y) then 366 else 365
  {
  }

  /** `d.setDate(d.getDate() - 1)`: the previous calendar day. */
  function PrevDay(d: CalDate): (p: CalDate)
    requires Valid(d)
    ensures Valid(p) && Before(p, d)
    ensures DayNumber(p) == DayNumber(d) - 1
  {
    if d.day > 1 then CalDate(d.year, d.month, d.day - 1)
    else if d.month > 1 then CalDate(d.year, d.month - 1, DaysIn(d.year, d.month - 1))
    else
      YearLength(d.year - 1);
      DaysBeforeDecember(d.year - 1);
      CalDate(d.year - 1, 12, 31)
  }

  /** `MakeDay` for a valid month and a day of 1 to 31: a day past the end
      of the month carries into the next month. */
  function Normalize(y: int, m: int, day: int): (r: CalDate)
    requires 1 <= m <= 12 && 1 <= day <= 31
    ensures Valid(r)
    ensures day <= DaysIn(y, m) ==> r == CalDate(y, m, day)
    ensures day > DaysIn(y, m) ==>
      r.day == day - DaysIn(y, m) &&
      (if m == 12 then r.year == y + 1 && r.month == 1 else r.year == y && r.month == m + 1)
  {
    if day <= DaysIn(y, m) then CalDate(y, m, day)
    else if m == 12 then CalDate(y + 1, 1, day - DaysIn(y, m))
    else CalDate(y, m + 1, day - DaysIn(y, m))
  }

  /** `setUTCMonth(getUTCMonth() - k)`: the month moves back `k`, borrowing
      from the year, and the day of the month is kept, with overflow. */
  function MonthsBack(d: CalDate, k: nat): (r: CalDate)
    requires Valid(d)
    ensures Valid(r)
  {
    var m0 := d.month - 1 - k;
    Normalize(d.year + m0 / 12, m0 % 12 + 1, d.day)
  }

  /** `setUTCFullYear(getUTCFullYear() - k)`: month and day are kept, with
      overflow (29 February of a leap year becomes 1 March). */
  function YearsBack(d: CalDate, k: nat): (r: CalDate)
    requires Valid(d)
    ensures Valid(r)
  {
    Normalize(d.year - k, d.month, d.day)
  }

  /** Moving back whole months or whole years always lands on an earlier
      day, also when the day overflows into the following month. */
  lemma {:induction false} MonthsBackIsEarlier(d: CalDate, k: nat)
    requires Valid(d) && 1 <= k <= 12
    ensures Before(MonthsBack(d, k), d)
  {
    var m0 := d.month - 1 - k;
    var y, m := d.year + m0 / 12, m0 % 12 + 1;
    assert m0 == 12 * (m0 / 12) + m0 % 12;
    if m0 >= 0 {
      assert y == d.year && m < d.month;
    } else {
      assert m0 / 12 == -1;
      assert y == d.year - 1;
    }
  }

  lemma {:induction false} YearsBackIsEarlier(d: CalDate, k: nat)
    requires Valid(d) && k >= 1
    ensures Before(YearsBack(d, k), d)
  {
  }

  /** `String(n).padStart(w, '0')`. */
  function PadStart(s: string, w: nat): (r: string)
    ensures |r| == if |s| >= w then |s| else w
    ensures r == seq(|r| - |s|, _ => '0') + s
  {
    if |s| >= w then s else seq(w - |s|, _ => '0') + s
  }

  function Digits(n: nat, w: nat): (r: string)
    ensures |r| >= w
    ensures forall i :: 0 <= i < |r| ==> '0' <= r[i] <= '9'
  {
    PadStart(Text.NatToDecimal(n), w)
  }

  /** The year as `toISOString` writes it: four digits for years 0 to 9999,
      otherwise a sign and six digits. */
  function IsoYear(y: int): string {
    if 0 <= y <= 9999 then Digits(y, 4)
    else if y > 9999 then "+" + Digits(y, 6)
    else "-" + Digits(-y, 6)
  }

  /** The calendar-date part of `toISOString()`: YYYY-MM-DD. */
  function IsoDate(d: CalDate): string
    requires Valid(d)
  {
    IsoYear(d.year) + "-" + Digits(d.month, 2) + "-" + Digits(d.day, 2)
  }

  /** The time part `toISOString()` gives for midnight UTC. */
  const MidnightUtc: string := "00:00:00.000Z"

  /** `toISOString()` of midnight UTC of `d`. */
  function IsoString(d: CalDate): string
    requires Valid(d)
  {
    IsoDate(d) + ['T'] + MidnightUtc
  }

  /** The date part contains no `T`. */
  lemma IsoDateHasNoT(d: CalDate)
    requires Valid(d)
    ensures forall i :: 0 <= i < |IsoDate(d)| ==> IsoDate(d)[i] != 'T'
  {
    var y, m, dd := IsoYear(d.year), Digits(d.month, 2), Digits(d.day, 2);
    assert forall i :: 0 <= i < |y| ==> y[i] != 'T';
    assert IsoDate(d) == y + "-" + m + "-" + dd;
  }

  /** `toISOString().split('T')[0]` is the calendar-date part. */
  lemma IsoStringDatePart(d: CalDate)
    requires Valid(d)
    ensures Text.Split(IsoString(d), 'T')[0] == IsoDate(d)
  {
    IsoDateHasNoT(d);
    Text.SplitHead(IsoDate(d), 'T', MidnightUtc);
  }

  predicate AllDigits(s: string) {
    forall i :: 0 <= i < |s| ==> '0' <= s[i] <= '9'
  }

  /** The strict `YYYY-MM-DD` form with a day that exists; anything else is
      an Invalid Date. */
  function ParseIsoDate(s: string): (r: Option<CalDate>)
    ensures r.Some? ==> Valid(r.value) && 0 <= r.value.year <= 9999
  {
    if |s| == 10 && s[4] == '-' && s[7] == '-' && AllDigits(s[..4]) && AllDigits(s[5..7]) && AllDigits(s[8..])
    then
      var d := CalDate(Text.DecimalValue(s[..4]), Text.DecimalValue(s[5..7]), Text.DecimalValue(s[8..]));
      if 1 <= d.month <= 12 && 1 <= d.day <= DaysIn(d.year, d.month) && d.year <= 9999 then Some(d) else None
    else None
  }

  lemma {:induction false} DigitsValue(n: nat, w: nat)
    ensures Text.DecimalValue(Digits(n, w)) == n
  {
    var s := Text.NatToDecimal(n);
    var z := |Digits(n, w)| - |s|;
    assert Digits(n, w) == seq(z, _ => '0') + s;
    Text.DecimalRoundTrip(n);
    Text.DecimalLeadingZeros(z, s);
  }

  function Pow10(w: nat): (p: nat)
    ensures p >= 1
  {
    if w == 0 then 1 else 10 * Pow10(w - 1)
  }

  lemma {:induction false} DecimalLength(n: nat, w: nat)
    requires 1 <= w && n < Pow10(w)
    ensures |Text.NatToDecimal(n)| <= w
    decreases w
  {
    if n >= 10 {
      DecimalLength(n / 10, w - 1);
    }
  }

  lemma DigitsWidth(n: nat, w: nat)
    requires 1 <= w && n < Pow10(w)
    ensures |Digits(n, w)| == w
  {
    DecimalLength(n, w);
  }

  /** Three digit strings of widths 4, 2 and 2 joined by dashes parse to
      the date their values name, when that date exists. */
  lemma ParseParts(y: string, m: string, dd: string)
    requires |y| == 4 && |m| == 2 && |dd| == 2
    requires AllDigits(y) && AllDigits(m) && AllDigits(dd)
    requires 1 <= Text.DecimalValue(m) <= 12
    requires 1 <= Text.DecimalValue(dd) <= DaysIn(Text.DecimalValue(y), Text.DecimalValue(m))
    ensures ParseIsoDate(y + "-" + m + "-" + dd) ==
      Some(CalDate(Text.DecimalValue(y), Text.DecimalValue(m), Text.DecimalValue(dd)))
  {
    var s := y + "-" + m + "-" + dd;
    assert s[..4] == y && s[5..7] == m && s[8..] == dd;
    assert Text.DecimalValue(y) <= 9999 by { DecimalBound(y); }
  }

  lemma {:induction false} DecimalBound(s: string)
    requires AllDigits(s)
    ensures Text.DecimalValue(s) < Pow10(|s|)
    decreases |s|
  {
    if s != [] {
      DecimalBound(s[..|s| - 1]);
    }
  }

  lemma FormatParts(d: CalDate)
    requires Valid(d) && 0 <= d.year <= 9999
    ensures |Digits(d.year, 4)| == 4 && |Digits(d.month, 2)| == 2 && |Digits(d.day, 2)| == 2
    ensures IsoDate(d) == Digits(d.year, 4) + "-" + Digits(d.month, 2) + "-" + Digits(d.day, 2)
  {
    assert Pow10(2) == 100 by { assert Pow10(1) == 10; }
    assert Pow10(4) == 10000 by { assert Pow10(3) == 1000; }
    DigitsWidth(d.year, 4);
    DigitsWidth(d.month, 2);
    DigitsWidth(d.day, 2);
  }

  /** Formatting a date of years 0 to 9999 and parsing it back gives the
      same date. */
  lemma IsoDateRoundTrip(d: CalDate)
    requires Valid(d) && 0 <= d.year <= 9999
    ensures ParseIsoDate(IsoDate(d)) == Some(d)
  {
    FormatParts(d);
    DigitsValue(d.year, 4);
    DigitsValue(d.month, 2);
    DigitsValue(d.day, 2);
    ParseParts(Digits(d.year, 4), Digits(d.month, 2), Digits(d.day, 2));
  }
}
