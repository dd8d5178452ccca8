/** The computations of the fund detail page (components/FundDetail.tsx):
    the historical NAV table rebuilt from a cumulative-return series, the
    quote codes of the fund's stock holdings and the parser of the quote
    service's reply, the date arithmetic behind the chart's date range and
    the fallback trading day, and the fallback chains of the header. */
module FundDetail {

  import opened Types
  import Text
  import opened Calendar

  // ---------------------------------------------------------------------
  // Historical NAV table

  /** The chart series as received: dates and the fund's cumulative return
      in percent per date (the peer average and benchmark are not used). */
  datatype ChartSeries = ChartSeries(dates: seq<string>, fund: seq<real>, avg: seq<real>, bmk: seq<real>)

  datatype HistoryRow = HistoryRow(date: string, nav: real, change: real)

  /** Growth factor of a cumulative return given in percent. */
  function Growth(r: real): real {
    1.0 + r / 100.0
  }

  /** A series the table can be built from: a return for every date, and no
      return of exactly -100% (which would divide by zero). */
  predicate WellFormed(s: ChartSeries) {
    |s.dates| <= |s.fund| && forall i :: 0 <= i < |s.dates| ==> Growth(s.fund[i]) != 0.0
  }

  /** `date.substring(5)`: YYYY-MM-DD becomes MM-DD. */
  function DropYear(date: string): (r: string)
    ensures |date| >= 5 ==> r == date[5..]
    ensures |date| < 5 ==> r == []
  {
    if |date| >= 5 then date[5..] else []
  }

  /** The NAV implied for date `i`: the series rescaled so that its last
      point equals the current NAV. */
  function ImpliedNav(s: ChartSeries, currentNav: real, i: int): real
    requires WellFormed(s) && 0 <= i < |s.dates|
  {
    currentNav * (Growth(s.fund[i]) / Growth(s.fund[|s.dates| - 1]))
  }

  /** The day-over-day change for date `i`, 0 for the oldest date. */
  function DayChange(s: ChartSeries, i: int): real
    requires WellFormed(s) && 0 <= i < |s.dates|
  {
    if i > 0 then (Growth(s.fund[i]) - Growth(s.fund[i - 1])) / Growth(s.fund[i - 1]) * 100.0 else 0.0
  }

  function RowFor(s: ChartSeries, currentNav: real, i: int): HistoryRow
    requires WellFormed(s) && 0 <= i < |s.dates|
  {
    HistoryRow(DropYear(s.dates[i]), ImpliedNav(s, currentNav, i), DayChange(s, i))
  }

  /** `historyData`: one row per date, newest first. */
  method HistoryData(series: Option<ChartSeries>, currentNav: real) returns (list: seq<HistoryRow>)
    requires series.Some? ==> WellFormed(series.value)
    ensures series.None? ==> list == []
    ensures series.Some? ==> |list| == |series.value.dates|
    ensures series.Some? ==> forall k :: 0 <= k < |list| ==>
      list[k] == RowFor(series.value, currentNav, |series.value.dates| - 1 - k)
  {
    if series.None? || |series.value.dates| == 0 {
      return [];
    }
    var s := series.value;
    list := [];
    var len := |s.dates|;
    var finalReturn := s.fund[len - 1];
    var i := len - 1;
    while i >= 0
      invariant -1 <= i < len
      invariant |list| == len - 1 - i
      invariant forall k :: 0 <= k < |list| ==> list[k] == RowFor(s, currentNav, len - 1 - k)
    {
      var r := s.fund[i];
      var rPrev := if i > 0 then s.fund[i - 1] else 0.0;
      var val := currentNav * ((1.0 + r / 100.0) / (1.0 + finalReturn / 100.0));
      var changePct := 0.0;
      if i > 0 {
        var vCurrent := 1.0 + r / 100.0;
        var vPrev := 1.0 + rPrev / 100.0;
        changePct := (vCurrent - vPrev) / vPrev * 100.0;
      }
      list := list + [HistoryRow(DropYear(s.dates[i]), val, changePct)];
      i := i - 1;
    }
  }

  /** The newest row shows exactly the current NAV. */
  lemma NewestRowIsCurrentNav(s: ChartSeries, currentNav: real)
    requires WellFormed(s) && |s.dates| > 0
    ensures ImpliedNav(s, currentNav, |s.dates| - 1) == currentNav
  {
    var g := Growth(s.fund[|s.dates| - 1]);
    assert g / g == 1.0;
  }

  /** With a positive current NAV and positive growth factors every implied
      NAV is positive. */
  lemma ImpliedNavPositive(s: ChartSeries, currentNav: real, i: int)
    requires WellFormed(s) && 0 <= i < |s.dates|
    requires currentNav > 0.0
    requires forall j :: 0 <= j < |s.dates| ==> Growth(s.fund[j]) > 0.0
    ensures ImpliedNav(s, currentNav, i) > 0.0
  {
    var q := Growth(s.fund[i]) / Growth(s.fund[|s.dates| - 1]);
    assert q > 0.0;
  }

  /** A non-decreasing cumulative return gives NAVs that do not decrease
      from older to newer dates. */
  lemma ImpliedNavMonotone(s: ChartSeries, currentNav: real, i: int, j: int)
    requires WellFormed(s) && 0 <= i <= j < |s.dates|
    requires currentNav > 0.0
    requires forall k :: 0 <= k < |s.dates| ==> Growth(s.fund[k]) > 0.0
    requires s.fund[i] <= s.fund[j]
    ensures ImpliedNav(s, currentNav, i) <= ImpliedNav(s, currentNav, j)
  {
    var last := Growth(s.fund[|s.dates| - 1]);
    var gi, gj := Growth(s.fund[i]), Growth(s.fund[j]);
    assert gi <= gj;
    assert gi / last <= gj / last;
    MulMonotone(currentNav, gi / last, gj / last);
  }

  lemma MulMonotone(c: real, x: real, y: real)
    requires c > 0.0 && x <= y
    ensures c * x <= c * y
  {
  }

  /** The change column agrees with the NAV column: each row's NAV is the
      previous date's NAV grown by that row's change. */
  lemma ChangeMatchesNav(s: ChartSeries, currentNav: real, i: int)
    requires WellFormed(s) && 0 < i < |s.dates|
    ensures ImpliedNav(s, currentNav, i) == ImpliedNav(s, currentNav, i - 1) * (1.0 + DayChange(s, i) / 100.0)
  {
    var last := Growth(s.fund[|s.dates| - 1]);
    var g, p := Growth(s.fund[i]), Growth(s.fund[i - 1]);
    assert 1.0 + DayChange(s, i) / 100.0 == g / p by {
      assert DayChange(s, i) / 100.0 == (g - p) / p;
      assert (g - p) / p == g / p - p / p;
      assert p / p == 1.0;
    }
    calc {
      ImpliedNav(s, currentNav, i - 1) * (g / p);
      currentNav * (p / last) * (g / p);
      currentNav * (g / last);
    }
  }

  /** The rows shown: the first ten unless the table is expanded. */
  function DisplayedHistory(history: seq<HistoryRow>, showAll: bool): (r: seq<HistoryRow>)
    ensures showAll ==> r == history
    ensures !showAll ==> |r| == (if |history| < 10 then |history| else 10)
    ensures r == history[..|r|]
  {
    if showAll then history else history[..if |history| < 10 then |history| else 10]
  }

  // ---------------------------------------------------------------------
  // Quote codes and the quote reply

  /** The exchange-prefixed code the quote service expects for a stock
      ticker: five characters are Hong Kong; six characters are Shanghai,
      Shenzhen or Beijing by their leading digits; anything else is
      dropped. */
  function QuoteCode(ticker: Option<string>): (r: Option<string>)
    ensures r.Some? ==> ticker.Some? && |r.value| == |ticker.value| + 2 && r.value[2..] == ticker.value
    ensures r.Some? ==> r.value[..2] in {"hk", "sh", "sz", "bj"}
    ensures ticker.Some? && |ticker.value| == 5 ==> r == Some("hk" + ticker.value)
    ensures ticker.Some? && |ticker.value| == 6 ==>
      (r.Some? <==> ticker.value[0] in "603" || ticker.value[..2] in ["83", "87", "43"])
    ensures ticker.Some? && |ticker.value| == 6 && ticker.value[0] == '6' ==> r == Some("sh" + ticker.value)
    ensures ticker.Some? && |ticker.value| == 6 && ticker.value[0] in "03" ==> r == Some("sz" + ticker.value)
    ensures ticker.Some? && |ticker.value| == 6 && ticker.value[..2] in ["83", "87", "43"] ==>
      r == Some("bj" + ticker.value)
    ensures ticker.None? || !(|ticker.value| in {5, 6}) ==> r.None?
  {
    if ticker.None? || ticker.value == "" then None
    else
      var c := ticker.value;
      if |c| == 5 then Some("hk" + c)
      else if |c| == 6 then
        if c[0] == '6' then Some("sh" + c)
        else if c[0] == '0' || c[0] == '3' then Some("sz" + c)
        else if c[..2] == "83" || c[..2] == "87" || c[..2] == "43" then Some("bj" + c)
        else None
      else None
  }

  /** `equity.map(...).filter(Boolean)`: the codes of the tickers that have
      one, in order. */
  function QuoteCodes(tickers: seq<Option<string>>): (r: seq<string>)
    ensures |r| <= |tickers|
    decreases |tickers|
  {
    if tickers == [] then []
    else
      var rest := QuoteCodes(tickers[1..]);
      match QuoteCode(tickers[0])
      case Some(c) => [c] + rest
      case None => rest
  }

  /** A code is requested exactly when some holding's ticker maps to it. */
  lemma {:induction false} QuoteCodesMembership(tickers: seq<Option<string>>, c: string)
    ensures c in QuoteCodes(tickers) <==> exists i :: 0 <= i < |tickers| && QuoteCode(tickers[i]) == Some(c)
    decreases |tickers|
  {
    if tickers != [] {
      QuoteCodesMembership(tickers[1..], c);
      if exists i :: 0 <= i < |tickers| && QuoteCode(tickers[i]) == Some(c) {
        var i :| 0 <= i < |tickers| && QuoteCode(tickers[i]) == Some(c);
        if i > 0 {
          assert tickers[1..][i - 1] == tickers[i];
        }
      }
      if exists i :: 0 <= i < |tickers[1..]| && QuoteCode(tickers[1..][i]) == Some(c) {
        var i :| 0 <= i < |tickers[1..]| && QuoteCode(tickers[1..][i]) == Some(c);
        assert tickers[i + 1] == tickers[1..][i];
      }
    }
  }

  /** A quote as stored: the price text and the parsed change percentage
      (`None` stands for NaN). */
  datatype Quote = Quote(price: string, pct: Option<real>)

  /** The entry one `;`-separated piece of the reply contributes, if any:
      the text between the first and the second `=` (or the end), with its
      quotes removed, split at `~`,
      must have more than five fields; it is keyed by field 2, with the
      price from field 3 and the percentage from field 5. */
  function QuoteOfLine(line: string, parseFloat: string -> Option<real>): (r: Option<(string, Quote)>)
    ensures r.Some? ==> Text.Includes(line, '=')
    ensures !Text.Includes(line, '=') ==> r.None?
  {
    if Text.Includes(line, '=') then
      Text.SplitIncludes(line, '=');
      var rightSide := Text.RemoveAll(Text.Split(line, '=')[1], '"');
      var parts := Text.Split(rightSide, '~');
      if |parts| > 5 then Some((parts[2], Quote(parts[3], parseFloat(parts[5])))) else None
    else None
  }

  /** The entry of a piece whose second `=`-part, unquoted, is `unquoted`. */
  lemma QuoteOfLineUnquoted(line: string, unquoted: string, parseFloat: string -> Option<real>)
    requires Text.Includes(line, '=')
    requires |Text.Split(line, '=')| >= 2 && Text.RemoveAll(Text.Split(line, '=')[1], '"') == unquoted
    ensures QuoteOfLine(line, parseFloat) ==
      var parts := Text.Split(unquoted, '~');
      if |parts| > 5 then Some((parts[2], Quote(parts[3], parseFloat(parts[5])))) else None
  {
  }

  /** A reply piece of the form `head="f0~f1~...~fn"`: when there are
      more than five fields the entry is keyed by field 2, with field 3 as
      the price and field 5 parsed as the percentage; with five or fewer
      fields the piece gives nothing. */
  lemma QuoteOfLineFields(head: string, fields: seq<string>, parseFloat: string -> Option<real>)
    requires |fields| >= 1 && Text.Free(head, '=')
    requires forall k :: 0 <= k < |fields| ==>
      Text.Free(fields[k], '=') && Text.Free(fields[k], '"') && Text.Free(fields[k], '~')
    ensures QuoteOfLine(head + ['='] + ['"'] + Text.Join(fields, '~') + ['"'], parseFloat) ==
      if |fields| > 5 then Some((fields[2], Quote(fields[3], parseFloat(fields[5])))) else None
  {
    var body := Text.Join(fields, '~');
    Text.JoinFree(fields, '~', '=');
    Text.JoinFree(fields, '~', '"');
    var rhs := ['"'] + body + ['"'];
    Text.WrapFree('"', body, '=');
    Text.SplitSecond(head, '=', rhs);
    Text.Unquote('"', body);
    Text.SplitOfJoin(fields, '~');
    Text.Regroup(head, '=', '"', body);
    QuoteOfLineUnquoted(head + ['='] + rhs, body, parseFloat);
  }

  /** The map built from the entries of a list of pieces, processed in
      order: a later entry for a ticker replaces an earlier one. */
  function Fold(lines: seq<string>, entry: string -> Option<(string, Quote)>): map<string, Quote>
    decreases |lines|
  {
    if lines == [] then map[]
    else
      var m := Fold(lines[..|lines| - 1], entry);
      match entry(lines[|lines| - 1])
      case Some(e) => m[e.0 := e.1]
      case None => m
  }

  /** The quote map of a list of pieces. */
  function QuoteMap(lines: seq<string>, parseFloat: string -> Option<real>): map<string, Quote> {
    Fold(lines, line => QuoteOfLine(line, parseFloat))
  }

  /** The quote parser: fills the map piece by piece. */
  method ParseQuotes(qText: string, parseFloat: string -> Option<real>) returns (quoteMap: map<string, Quote>)
    ensures quoteMap == QuoteMap(Text.Split(qText, ';'), parseFloat)
  {
    var lines := Text.Split(qText, ';');
    quoteMap := map[];
    for i := 0 to |lines|
      invariant quoteMap == QuoteMap(lines[..i], parseFloat)
    {
      assert lines[..i + 1][..i] == lines[..i];
      var line := lines[i];
      if Text.Includes(line, '=') {
        Text.SplitIncludes(line, '=');
        var rightSide := Text.RemoveAll(Text.Split(line, '=')[1], '"');
        var parts := Text.Split(rightSide, '~');
        if |parts| > 5 {
          var ticker := parts[2];
          var price := parts[3];
          var pct := parseFloat(parts[5]);
          quoteMap := quoteMap[ticker := Quote(price, pct)];
        }
      }
    }
    assert lines[..|lines|] == lines;
  }

  /** Piece `line` yields an entry for ticker `t`. */
  predicate Yields(line: string, parseFloat: string -> Option<real>, t: string) {
    QuoteOfLine(line, parseFloat).Some? && QuoteOfLine(line, parseFloat).value.0 == t
  }

  /** The entry of piece `i` is for ticker `t`. */
  predicate EntryFor(lines: seq<string>, entry: string -> Option<(string, Quote)>, t: string, i: int)
    requires 0 <= i < |lines|
  {
    entry(lines[i]).Some? && entry(lines[i]).value.0 == t
  }

  /** A ticker is a key of the fold exactly when some piece has an entry
      for it. */
  lemma {:induction false} FoldKeys(lines: seq<string>, entry: string -> Option<(string, Quote)>, t: string)
    ensures t in Fold(lines, entry) <==> exists i :: 0 <= i < |lines| && EntryFor(lines, entry, t, i)
    decreases |lines|
  {
    if lines != [] {
      var init := lines[..|lines| - 1];
      FoldKeys(init, entry, t);
      if t in Fold(lines, entry) {
        if t in Fold(init, entry) {
          var i :| 0 <= i < |init| && EntryFor(init, entry, t, i);
          assert lines[i] == init[i];
          assert EntryFor(lines, entry, t, i);
        } else {
          assert EntryFor(lines, entry, t, |lines| - 1);
        }
      } else {
        forall i | 0 <= i < |lines| ensures !EntryFor(lines, entry, t, i) {
          if i < |init| {
            assert init[i] == lines[i];
            assert !EntryFor(init, entry, t, i);
          }
        }
      }
    }
  }

  /** The fold keeps, for each ticker, the last entry for it. */
  lemma {:induction false} FoldLastWins(lines: seq<string>, entry: string -> Option<(string, Quote)>, t: string, i: int)
    requires 0 <= i < |lines| && EntryFor(lines, entry, t, i)
    requires forall j :: i < j < |lines| ==> !EntryFor(lines, entry, t, j)
    ensures t in Fold(lines, entry)
    ensures Fold(lines, entry)[t] == entry(lines[i]).value.1
    decreases |lines|
  {
    if i < |lines| - 1 {
      var init := lines[..|lines| - 1];
      assert init[i] == lines[i];
      assert EntryFor(init, entry, t, i);
      forall j | i < j < |init| ensures !EntryFor(init, entry, t, j) {
        assert init[j] == lines[j];
        assert !EntryFor(lines, entry, t, j);
      }
      FoldLastWins(init, entry, t, i);
      assert !EntryFor(lines, entry, t, |lines| - 1);
    }
  }

  /** A ticker has a quote exactly when some piece yields an entry for it. */
  lemma QuoteMapKeys(lines: seq<string>, parseFloat: string -> Option<real>, t: string)
    ensures t in QuoteMap(lines, parseFloat) <==> exists i :: 0 <= i < |lines| && Yields(lines[i], parseFloat, t)
  {
    var entry := line => QuoteOfLine(line, parseFloat);
    FoldKeys(lines, entry, t);
    forall i | 0 <= i < |lines| ensures EntryFor(lines, entry, t, i) == Yields(lines[i], parseFloat, t) {
      assert entry(lines[i]) == QuoteOfLine(lines[i], parseFloat);
    }
  }

  /** When several pieces yield an entry for the same ticker, the last one
      wins. */
  lemma QuoteMapLastWins(lines: seq<string>, parseFloat: string -> Option<real>, t: string, i: int)
    requires 0 <= i < |lines| && Yields(lines[i], parseFloat, t)
    requires forall j :: i < j < |lines| ==> !Yields(lines[j], parseFloat, t)
    ensures t in QuoteMap(lines, parseFloat)
    ensures QuoteMap(lines, parseFloat)[t] == QuoteOfLine(lines[i], parseFloat).value.1
  {
    var entry := line => QuoteOfLine(line, parseFloat);
    forall j | 0 <= j < |lines| ensures EntryFor(lines, entry, t, j) == Yields(lines[j], parseFloat, t) {
      assert entry(lines[j]) == QuoteOfLine(lines[j], parseFloat);
    }
    FoldLastWins(lines, entry, t, i);
  }

  // ---------------------------------------------------------------------
  // Dates

  datatype TimeRange = M1 | M3 | M6 | Y1 | Y3 | Y5

  /** The first day of the chart's range ending at `end`. */
  function RangeStart(range: TimeRange, end: CalDate): (r: CalDate)
    requires Valid(end)
    ensures Valid(r)
  {
    match range
    case M1 => MonthsBack(end, 1)
    case M3 => MonthsBack(end, 3)
    case M6 => MonthsBack(end, 6)
    case Y1 => YearsBack(end, 1)
    case Y3 => YearsBack(end, 3)
    case Y5 => YearsBack(end, 5)
  }

  /** Every range starts on a day before its end. */
  lemma RangeStartEarlier(range: TimeRange, end: CalDate)
    requires Valid(end)
    ensures Before(RangeStart(range, end), end)
  {
    match range
    case M1 => MonthsBackIsEarlier(end, 1);
    case M3 => MonthsBackIsEarlier(end, 3);
    case M6 => MonthsBackIsEarlier(end, 6);
    case Y1 => YearsBackIsEarlier(end, 1);
    case Y3 => YearsBackIsEarlier(end, 3);
    case Y5 => YearsBackIsEarlier(end, 5);
  }

  /** `getStartDate`: parse the end date, move it back by the range, and
      keep the date part of `toISOString()`. An end date that does not
      parse gives `None` (`toISOString` throws on an Invalid Date). */
  method GetStartDate(range: TimeRange, endDateStr: string) returns (r: Option<string>)
    ensures r.Some? <==> ParseIsoDate(endDateStr).Some?
    ensures r.Some? ==> r.value == IsoDate(RangeStart(range, ParseIsoDate(endDateStr).value))
  {
    var parsed := ParseIsoDate(endDateStr);
    if parsed.None? {
      return None;
    }
    var d := parsed.value;
    match range {
      case M1 => d := MonthsBack(d, 1);
      case M3 => d := MonthsBack(d, 3);
      case M6 => d := MonthsBack(d, 6);
      case Y1 => d := YearsBack(d, 1);
      case Y3 => d := YearsBack(d, 3);
      case Y5 => d := YearsBack(d, 5);
    }
    assert d == RangeStart(range, parsed.value);
    IsoStringDatePart(d);
    r := Some(Text.Split(IsoString(d), 'T')[0]);
  }

  /** The start date text is itself a well-formed date before the end date
      (for start years 0 to 9999, the four-digit form). */
  lemma StartDateParses(range: TimeRange, end: CalDate)
    requires Valid(end) && 0 <= RangeStart(range, end).year <= 9999
    ensures ParseIsoDate(IsoDate(RangeStart(range, end))) == Some(RangeStart(range, end))
    ensures Before(RangeStart(range, end), end)
  {
    IsoDateRoundTrip(RangeStart(range, end));
    RangeStartEarlier(range, end);
  }

  /** How many days back from epoch day `n` the nearest weekday is: two
      from a Sunday, one from a Saturday, none otherwise. */
  function WeekendDepth(n: int): nat {
    var w := WeekdayOf(n);
    if w == 0 then 2 else if w == 6 then 1 else 0
  }

  lemma WeekendStep(n: int)
    ensures IsWeekendDay(n) <==> WeekendDepth(n) > 0
    ensures IsWeekendDay(n) ==> WeekendDepth(n - 1) == WeekendDepth(n) - 1
  {
    assert (n + 4) == 7 * ((n + 4) / 7) + (n + 4) % 7;
    assert (n + 3) == 7 * ((n + 3) / 7) + (n + 3) % 7;
  }

  /** The latest weekday on or before `d`. */
  function WeekdayOnOrBefore(d: CalDate): (r: CalDate)
    requires Valid(d)
    ensures Valid(r) && !IsWeekendDay(DayNumber(r))
    ensures DayNumber(r) == DayNumber(d) - WeekendDepth(DayNumber(d))
    decreases WeekendDepth(DayNumber(d))
  {
    WeekendStep(DayNumber(d));
    if IsWeekendDay(DayNumber(d)) then WeekdayOnOrBefore(PrevDay(d)) else d
  }

  /** `getLastWeekday` for the local calendar day `today`: the latest
      weekday strictly before it. */
  function LastWeekday(today: CalDate): (r: CalDate)
    requires Valid(today)
    ensures Valid(r)
  {
    WeekdayOnOrBefore(PrevDay(today))
  }

  /** The last weekday is strictly earlier, at most three days back, never a
      Saturday or Sunday, and every day skipped is a weekend day. */
  lemma LastWeekdaySpec(today: CalDate)
    requires Valid(today)
    ensures DayNumber(today) - 3 <= DayNumber(LastWeekday(today)) < DayNumber(today)
    ensures WeekdayOf(DayNumber(LastWeekday(today))) != 0 && WeekdayOf(DayNumber(LastWeekday(today))) != 6
    ensures forall n :: DayNumber(LastWeekday(today)) < n < DayNumber(today) ==> IsWeekendDay(n)
  {
    var t := DayNumber(today);
    var p := t - 1;
    WeekendStep(p);
    if WeekendDepth(p) > 0 {
      WeekendStep(p - 1);
    }
    var r := DayNumber(LastWeekday(today));
    assert r == p - WeekendDepth(p);
    forall n | r < n < t ensures IsWeekendDay(n) {
      if n < p {
        assert n == p - 1;
      }
    }
  }

  /** The text `getLastWeekday` returns: `${year}-${MM}-${DD}` with the
      year not padded. */
  function LocalDateText(d: CalDate): string
    requires Valid(d)
  {
    Text.IntToDecimal(d.year) + "-" + Digits(d.month, 2) + "-" + Digits(d.day, 2)
  }

  /** `getLastWeekday`: step back one day, then keep stepping back while the
      day is a Saturday or Sunday. The clock's local date is `today`. */
  method GetLastWeekday(today: CalDate) returns (s: string)
    requires Valid(today)
    ensures s == LocalDateText(LastWeekday(today))
  {
    var d := PrevDay(today);
    while IsWeekendDay(DayNumber(d))
      invariant Valid(d)
      invariant WeekdayOnOrBefore(d) == LastWeekday(today)
      decreases WeekendDepth(DayNumber(d))
    {
      WeekendStep(DayNumber(d));
      d := PrevDay(d);
    }
    var year := Text.IntToDecimal(d.year);
    var month := Digits(d.month, 2);
    var date := Digits(d.day, 2);
    s := year + "-" + month + "-" + date;
  }

  // ---------------------------------------------------------------------
  // Header fallbacks

  /** `a ?? b`: the first operand unless it is null or undefined. */
  function Coalesce<T>(a: Option<T>, b: T): (r: T)
    ensures a.Some? ==> r == a.value
    ensures a.None? ==> r == b
  {
    if a.Some? then a.value else b
  }

  /** A header figure (the NAV or the day change): the common-data value,
      else the performance value, else the stored one. A 0 from a service
      is kept: `??` skips only missing values. */
  function HeaderFigure(common: Option<real>, perf: Option<real>, stored: real): (r: real)
    ensures common.Some? ==> r == common.value
    ensures common.None? && perf.Some? ==> r == perf.value
    ensures common.None? && perf.None? ==> r == stored
  {
    Coalesce(common, Coalesce(perf, stored))
  }

  /** The date shown, as written: `lastTradingDay` is a string state that
      starts as '' and is never null, so `?? fund.lastUpdate` never
      applies. */
  function DisplayDateAsWritten(navDate: Option<string>, lastTradingDay: string, lastUpdate: string): string {
    Coalesce(navDate, Coalesce(Some(lastTradingDay), lastUpdate))
  }

  /** Before any trading day is known, the header shows an empty date
      whatever the stored `lastUpdate` is. */
  lemma DisplayDateIgnoresLastUpdate(lastUpdate: string)
    ensures DisplayDateAsWritten(None, "", lastUpdate) == ""
  {
  }

  /** The date shown with the stored date as the last fallback, following
      the priority the header states (service data first, then the local
      record): a service date is used when present; otherwise the last
      trading day once it is known, and the stored `lastUpdate` before. */
  function DisplayDate(navDate: Option<string>, lastTradingDay: string, lastUpdate: string): (r: string)
    ensures navDate.Some? ==> r == navDate.value
    ensures navDate.None? && lastTradingDay != "" ==> r == lastTradingDay
    ensures navDate.None? && lastTradingDay == "" ==> r == lastUpdate
  {
    Coalesce(navDate, if lastTradingDay != "" then lastTradingDay else lastUpdate)
  }

  /** The corrected chain differs from the written one exactly when no
      service date and no trading day are known: it then shows the stored
      date. */
  lemma DisplayDateCorrection(navDate: Option<string>, lastTradingDay: string, lastUpdate: string)
    ensures DisplayDate(navDate, lastTradingDay, lastUpdate) != DisplayDateAsWritten(navDate, lastTradingDay, lastUpdate)
      <==> navDate.None? && lastTradingDay == "" && lastUpdate != ""
  {
  }
}
