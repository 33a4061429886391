/** The daily-reports tab of the dashboard: the converters between the ISO
    8601 calendar date `yyyy-mm-dd` of the date picker and the `dd/mm/yyyy`
    text the user sees, today's date, the mask applied to a typed date, the
    date window `fetchFilteredReports` sends to `GET /api/reports`, and the
    filter panel's apply and clear actions. */
module DailyReportsTab {
  import opened Values
  import opened Text
  import opened Time
  import opened ReportCoordinator

  // ---------------------------------------------------------------------
  // Date text converters

  /** The shared shape of the two date converters: text that splits on `c`
      into exactly three pieces comes back as those pieces reversed and joined
      by `e`; the empty string and any other text come back unchanged. */
  function SwapPieces(s: string, c: char, e: char): (r: string)
    ensures |Split(s, c)| != 3 ==> r == s
    ensures |Split(s, c)| == 3 && e !in s ==>
      var parts := Split(s, c);
      Split(r, e) == [parts[2], parts[1], parts[0]]
  {
    if s == "" then ""
    else
      var parts := Split(s, c);
      if |parts| == 3 then
        ReversedPieces(s, c, e);
        parts[2] + [e] + parts[1] + [e] + parts[0]
      else s
  }

  /** `formatDateToDDMMYYYY`: `y-m-d` becomes `d/m/y`. */
  function IsoToDisplay(s: string): string
  {
    SwapPieces(s, '-', '/')
  }

  /** `formatDateToYYYYMMDD`: `d/m/y` becomes `y-m-d`. */
  function DisplayToIso(s: string): string
  {
    SwapPieces(s, '/', '-')
  }

  /** The three pieces of `s` split on `c`, reversed and joined by `e`, split
      back on `e` into those pieces. */
  lemma ReversedPieces(s: string, c: char, e: char)
    requires |Split(s, c)| == 3
    ensures e !in s ==>
      var parts := Split(s, c);
      Split(parts[2] + [e] + parts[1] + [e] + parts[0], e) == [parts[2], parts[1], parts[0]]
  {
    if e !in s {
      var parts := Split(s, c);
      SplitKeepsAbsent(s, c, e);
      assert e !in parts[0] && e !in parts[1] && e !in parts[2];
      Split3(parts[2], parts[1], parts[0], e);
    }
  }

  /** On three pieces free of both separators, each converter reverses the
      order of the pieces and swaps the separator. */
  lemma ConvertPieces(y: string, m: string, d: string)
    requires '-' !in y && '-' !in m && '-' !in d
    requires '/' !in y && '/' !in m && '/' !in d
    ensures IsoToDisplay(y + "-" + m + "-" + d) == d + "/" + m + "/" + y
    ensures DisplayToIso(d + "/" + m + "/" + y) == y + "-" + m + "-" + d
  {
    Split3(y, m, d, '-');
    Split3(d, m, y, '/');
  }

  /** Converting to the display form and back gives the input again, for
      any text without a `/`. */
  lemma {:induction false} DisplayRoundTrip(s: string)
    requires '/' !in s
    ensures DisplayToIso(IsoToDisplay(s)) == s
  {
    var parts := Split(s, '-');
    if s != "" && |parts| == 3 {
      SplitKeepsAbsent(s, '-', '/');
      JoinSplit(s, '-');
      assert s == parts[0] + "-" + parts[1] + "-" + parts[2] by {
        assert Join(parts, '-') == parts[0] + "-" + Join(parts[1..], '-');
        assert Join(parts[1..], '-') == parts[1] + "-" + parts[2];
      }
      ConvertPieces(parts[0], parts[1], parts[2]);
    } else {
      SplitCons(s, "", '/');
    }
  }

  /** Converting to the ISO form and back gives the input again, for any
      text without a `-`. */
  lemma {:induction false} IsoRoundTrip(s: string)
    requires '-' !in s
    ensures IsoToDisplay(DisplayToIso(s)) == s
  {
    var parts := Split(s, '/');
    if s != "" && |parts| == 3 {
      SplitKeepsAbsent(s, '/', '-');
      JoinSplit(s, '/');
      assert s == parts[0] + "/" + parts[1] + "/" + parts[2] by {
        assert Join(parts, '/') == parts[0] + "/" + Join(parts[1..], '/');
        assert Join(parts[1..], '/') == parts[1] + "/" + parts[2];
      }
      ConvertPieces(parts[2], parts[1], parts[0]);
    } else {
      SplitCons(s, "", '-');
    }
  }

  // ---------------------------------------------------------------------
  // Today's date

  /** `getTodayDate`: day and month padded to two digits, then the year, as
      `dd/mm/yyyy`; the clock's reading (`getFullYear`, `getMonth`,
      `getDate`) is a parameter. */
  function TodayDate(year: nat, monthIndex: nat, date: nat): (r: string)
    requires monthIndex < 12 && 1 <= date <= 31
    ensures Split(r, '/') == [Pad2(date), Pad2(monthIndex + 1), NatToString(year)]
    ensures |r| == 6 + |NatToString(year)| && r[2] == '/' && r[5] == '/'
  {
    var dd := Pad2(date);
    var mm := Pad2(monthIndex + 1);
    var yyyy := NatToString(year);
    DigitsFree(dd, '/');
    DigitsFree(mm, '/');
    DigitsFree(yyyy, '/');
    Split3(dd, mm, yyyy, '/');
    dd + "/" + mm + "/" + yyyy
  }

  lemma DigitsFree(s: string, c: char)
    requires AllDigits(s) && !IsDigit(c)
    ensures c !in s
  {
  }

  // ---------------------------------------------------------------------
  // Reading a dd/mm/yyyy date

  /** A date field takes part in the window when it is non-empty and splits
      into three pieces on `/`. */
  predicate Given(s: string)
  {
    s != "" && |Split(s, '/')| == 3
  }

  /** The local-midnight day `new Date(year, month - 1, day)` denotes, each
      field read with `parseInt`; `None` when a field is `NaN`, which makes
      the date invalid. */
  function DisplayDay(s: string): (r: Option<int>)
    requires |Split(s, '/')| == 3
    ensures r.None? <==>
      var parts := Split(s, '/');
      JsParseInt(parts[0]).None? || JsParseInt(parts[1]).None? || JsParseInt(parts[2]).None?
  {
    var parts := Split(s, '/');
    var day := JsParseInt(parts[0]);
    var month := JsParseInt(parts[1]);
    var year := JsParseInt(parts[2]);
    if day.None? || month.None? || year.None? then None
    else Some(MakeDay(year.value, month.value - 1, day.value))
  }

  lemma LeadingDigitsAll(s: string)
    requires AllDigits(s)
    ensures LeadingDigits(s) == s
  {
  }

  /** Today's date, read back, is today. */
  lemma TodayDateParses(year: nat, monthIndex: nat, date: nat)
    requires monthIndex < 12 && 1 <= date <= 31
    ensures Given(TodayDate(year, monthIndex, date))
    ensures DisplayDay(TodayDate(year, monthIndex, date)) == Some(MakeDay(year, monthIndex, date))
  {
    var r := TodayDate(year, monthIndex, date);
    LeadingDigitsAll(Pad2(date));
    LeadingDigitsAll(Pad2(monthIndex + 1));
    LeadingDigitsAll(NatToString(year));
    NatToStringValue(year);
    assert Split(r, '/')[0] == Pad2(date);
  }

  // ---------------------------------------------------------------------
  // The typed-date mask

  /** The `onChange` mask of the typed date fields: keep the digits, put a
      `/` after the second one and, once there are four, after the fourth,
      keeping at most eight digits. */
  method MaskTypedDate(input: string) returns (value: string)
    ensures |value| <= 10
    ensures Remove(value, '/') ==
      var digits := DigitsOnly(input);
      digits[..if |digits| < 8 then |digits| else 8]
    ensures forall i :: 0 <= i < |value| ==> (value[i] == '/' <==> i == 2 || i == 5)
    ensures |DigitsOnly(input)| < 2 ==> value == DigitsOnly(input)
    ensures |DigitsOnly(input)| >= 8 ==>
      var digits := DigitsOnly(input);
      |value| == 10 && Split(value, '/') == [digits[..2], digits[2..4], digits[4..8]]
  {
    ghost var digits := DigitsOnly(input);
    value := DigitsOnly(input);
    if |value| >= 2 {
      value := value[..2] + "/" + value[2..];
    }
    if |value| >= 5 {
      value := value[..5] + "/" + value[5..if |value| < 9 then |value| else 9];
    }
    MaskShape(digits, value);
  }

  /** What the two insertions of the mask leave, stated on the digits. */
  lemma MaskShape(digits: string, value: string)
    requires AllDigits(digits)
    requires |digits| < 2 ==> value == digits
    requires 2 <= |digits| < 4 ==> value == digits[..2] + "/" + digits[2..]
    requires |digits| >= 4 ==>
      value == digits[..2] + "/" + digits[2..4] + "/" + digits[4..if |digits| < 8 then |digits| else 8]
    ensures |value| <= 10
    ensures Remove(value, '/') == digits[..if |digits| < 8 then |digits| else 8]
    ensures forall i :: 0 <= i < |value| ==> (value[i] == '/' <==> i == 2 || i == 5)
    ensures |digits| >= 8 ==>
      |value| == 10 && Split(value, '/') == [digits[..2], digits[2..4], digits[4..8]]
  {
    if |digits| < 2 {
      MaskShort(digits);
    } else if |digits| < 4 {
      MaskMid(digits);
    } else {
      MaskLong(digits);
    }
    assert Masked(digits, value);
  }

  /** The mask's result `value` on the typed digits `digits`: at most ten
      characters, the first eight digits once the slashes are removed,
      slashes exactly at positions 2 and 5, and with eight digits or more
      the three fields day, month and year. */
  ghost predicate Masked(digits: string, value: string)
  {
    && |value| <= 10
    && Remove(value, '/') == digits[..if |digits| < 8 then |digits| else 8]
    && (forall i :: 0 <= i < |value| ==> (value[i] == '/' <==> i == 2 || i == 5))
    && (|digits| >= 8 ==>
          |value| == 10 && Split(value, '/') == [digits[..2], digits[2..4], digits[4..8]])
  }

  lemma MaskShort(digits: string)
    requires AllDigits(digits) && |digits| < 2
    ensures Masked(digits, digits)
  {
    DigitsFree(digits, '/');
    RemoveAbsent(digits, '/');
  }

  lemma MaskMid(digits: string)
    requires AllDigits(digits) && 2 <= |digits| < 4
    ensures Masked(digits, digits[..2] + "/" + digits[2..])
  {
    MaskOneSlash(digits[..2], digits[2..]);
    assert digits[..2] + digits[2..] == digits;
  }

  lemma MaskLong(digits: string)
    requires AllDigits(digits) && |digits| >= 4
    ensures var n := if |digits| < 8 then |digits| else 8;
      Masked(digits, digits[..2] + "/" + digits[2..4] + "/" + digits[4..n])
  {
    var n := if |digits| < 8 then |digits| else 8;
    MaskTwoSlashes(digits[..2], digits[2..4], digits[4..n]);
    assert digits[..2] + digits[2..4] + digits[4..n] == digits[..n];
  }

  lemma MaskOneSlash(a: string, b: string)
    requires |a| == 2 && |b| < 2 && AllDigits(a) && AllDigits(b)
    ensures Remove(a + "/" + b, '/') == a + b
    ensures forall i :: 0 <= i < |a + "/" + b| ==> ((a + "/" + b)[i] == '/' <==> i == 2)
  {
    DigitsFree(a, '/');
    DigitsFree(b, '/');
    RemoveAbsent(a, '/');
    RemoveAbsent(b, '/');
    RemoveAppend(a + "/", b, '/');
    RemoveAppend(a, "/", '/');
  }

  lemma MaskTwoSlashes(a: string, b: string, c: string)
    requires |a| == 2 && |b| == 2 && |c| <= 4
    requires AllDigits(a) && AllDigits(b) && AllDigits(c)
    ensures Remove(a + "/" + b + "/" + c, '/') == a + b + c
    ensures forall i :: 0 <= i < |a + "/" + b + "/" + c| ==>
      ((a + "/" + b + "/" + c)[i] == '/' <==> i == 2 || i == 5)
    ensures |c| == 4 ==> Split(a + "/" + b + "/" + c, '/') == [a, b, c]
  {
    DigitsFree(a, '/');
    DigitsFree(b, '/');
    DigitsFree(c, '/');
    RemoveAbsent(a, '/');
    RemoveAbsent(b, '/');
    RemoveAbsent(c, '/');
    RemoveAppend(a + "/" + b + "/", c, '/');
    RemoveAppend(a + "/" + b, "/", '/');
    RemoveAppend(a + "/", b, '/');
    RemoveAppend(a, "/", '/');
    Split3(a, b, c, '/');
  }

  // ---------------------------------------------------------------------
  // The request of `fetchFilteredReports`

  /** The applied filter: the vehicle (`None` for `'all'`), the typed start
      and end dates and the `HH:mm` times (`""` when empty). */
  datatype ReportFilter = ReportFilter(
    vehicle: Option<int>, startDate: string, endDate: string, startTime: string, endTime: string)

  /** A `Date` variable of `fetchFilteredReports`: `null`, an invalid date
      (a `NaN` field), or an instant. */
  datatype DateValue = Null | InvalidDate | At(t: int)

  /** What a refresh does: nothing (no date set), fail (an invalid date makes
      `toISOString` throw, which is caught and logged), or request the
      reports with the query the route reads from the URL. */
  datatype Outcome = NoRequest | Failed | Request(q: ReportQuery)

  /** `fetchFilteredReports`. A date taken from the filter starts at its
      start time (00:00 when empty) and ends at its end time plus 59.999
      seconds (23:59 when empty); with only one date given the other becomes
      2000-01-01 00:00:00.000 or 2100-12-31 23:59:59.999. The hour and minute
      read through `||`, exactly as the route's own time window does. */
  method FetchFilteredRequest(f: ReportFilter) returns (out: Outcome)
    ensures out.NoRequest? <==> !Given(f.startDate) && !Given(f.endDate)
    ensures out.Failed? <==>
      || (Given(f.startDate) && DisplayDay(f.startDate).None?)
      || (Given(f.endDate) && DisplayDay(f.endDate).None?)
    ensures out.Request? ==>
      && out.q.vehicleId == f.vehicle
      && out.q.startTime == f.startTime && out.q.endTime == f.endTime
      && out.q.startDate.Some? && out.q.endDate.Some?
    ensures out.Request? && Given(f.startDate) ==>
      out.q.startDate == Some(StartBound(DisplayDay(f.startDate).value, f.startTime))
    ensures out.Request? && !Given(f.startDate) ==> out.q.startDate == Some(DayStart(DAY_2000_01_01))
    ensures out.Request? && Given(f.endDate) ==>
      out.q.endDate == Some(EndBound(DisplayDay(f.endDate).value, f.endTime))
    ensures out.Request? && !Given(f.endDate) ==> out.q.endDate == Some(EndOfDay(DAY_2100_12_31))
  {
    var startDate := StartDateValue(f);
    var endDate := EndDateValue(f);
    if startDate.Null? && endDate.Null? {
      return NoRequest;
    }
    if !startDate.Null? && endDate.Null? {
      endDate := At(MakeDate(2100, 11, 31, 23, 59, 59, 999));
    } else if startDate.Null? && !endDate.Null? {
      startDate := At(MakeDate(2000, 0, 1, 0, 0, 0, 0));
    }
    DefaultDays();
    if !startDate.At? || !endDate.At? {
      return Failed;
    }
    out := Request(ReportQuery(f.vehicle, Some(startDate.t), Some(endDate.t), f.startTime, f.endTime));
  }

  /** `startDate` as the filter sets it: `null` unless the start date is
      given, else the typed day at the start time (00:00 when empty), an
      invalid date when a field does not parse. */
  method StartDateValue(f: ReportFilter) returns (v: DateValue)
    ensures v.Null? <==> !Given(f.startDate)
    ensures v.InvalidDate? <==> Given(f.startDate) && DisplayDay(f.startDate).None?
    ensures v.At? ==> v.t == StartBound(DisplayDay(f.startDate).value, f.startTime)
  {
    v := Null;
    if f.startDate != "" {
      var clock := if f.startTime != "" then f.startTime else "00:00";
      var hm := HourMinute(clock);
      var parts := Split(f.startDate, '/');
      if |parts| == 3 {
        var day := DisplayDay(f.startDate);
        v := if day.None? then InvalidDate
          else At(AtTime(day.value, NumberOr(hm.0, 0), NumberOr(hm.1, 0), 0, 0));
        DefaultClocks(if day.Some? then day.value else 0);
      }
    }
  }

  /** `endDate` as the filter sets it: `null` unless the end date is given,
      else the typed day at the end time plus 59.999 seconds (23:59 when
      empty), an invalid date when a field does not parse. */
  method EndDateValue(f: ReportFilter) returns (v: DateValue)
    ensures v.Null? <==> !Given(f.endDate)
    ensures v.InvalidDate? <==> Given(f.endDate) && DisplayDay(f.endDate).None?
    ensures v.At? ==> v.t == EndBound(DisplayDay(f.endDate).value, f.endTime)
  {
    v := Null;
    if f.endDate != "" {
      var clock := if f.endTime != "" then f.endTime else "23:59";
      var hm := HourMinute(clock);
      var parts := Split(f.endDate, '/');
      if |parts| == 3 {
        var day := DisplayDay(f.endDate);
        v := if day.None? then InvalidDate
          else At(AtTime(day.value, NumberOr(hm.0, 23), NumberOr(hm.1, 59), 59, 999));
        DefaultClocks(if day.Some? then day.value else 0);
      }
    }
  }

  /** The fallback clocks `'00:00'` and `'23:59'` give the same bounds as an
      empty time. */
  lemma DefaultClocks(day: int)
    ensures StartBound(day, "00:00") == StartBound(day, "") == AtTime(day, 0, 0, 0, 0)
    ensures EndBound(day, "23:59") == EndBound(day, "") == AtTime(day, 23, 59, 59, 999)
  {
    MidnightClock(day);
    LastMinuteClock(day);
    assert Split("", ':') == [""];
  }

  // ---------------------------------------------------------------------
  // The filter panel

  /** The filter a fresh or cleared panel holds: every vehicle, no start
      date, today as the end date, no times. */
  function ClearedFilter(today: string): (f: ReportFilter)
    ensures f.vehicle.None? && !Given(f.startDate) && f.endDate == today
    ensures f.startTime == "" && f.endTime == ""
  {
    ReportFilter(None, "", today, "", "")
  }

  /** A cleared panel asks for every report from 2000-01-01 through the end
      of today. */
  lemma ClearedWindow(year: nat, monthIndex: nat, date: nat)
    requires monthIndex < 12 && 1 <= date <= 31
    ensures var f := ClearedFilter(TodayDate(year, monthIndex, date));
      && !Given(f.startDate) && Given(f.endDate)
      && DisplayDay(f.endDate) == Some(MakeDay(year, monthIndex, date))
      && EndBound(MakeDay(year, monthIndex, date), f.endTime) == EndOfDay(MakeDay(year, monthIndex, date))
  {
    TodayDateParses(year, monthIndex, date);
    DefaultClocks(MakeDay(year, monthIndex, date));
  }

  /** The panel's two copies of the filter: the one being edited and the one
      applied to the list. */
  class FilterPanel {
    var edited: ReportFilter
    var applied: ReportFilter

    constructor (today: string)
      ensures edited == ClearedFilter(today) && applied == ClearedFilter(today)
    {
      edited := ClearedFilter(today);
      applied := ClearedFilter(today);
    }

    /** `applyFilter`: the edited filter becomes the applied one. */
    method Apply()
      modifies this
      ensures applied == old(edited) && edited == old(edited)
    {
      applied := edited;
    }

    /** `clearFilter`: both copies go back to the cleared filter, with
        today's date as the end date. */
    method Clear(today: string)
      modifies this
      ensures edited == ClearedFilter(today) && applied == ClearedFilter(today)
    {
      edited := ClearedFilter(today);
      applied := ClearedFilter(today);
    }
  }
}
