/** Instants are integer milliseconds since 1970-01-01T00:00Z and calendar days
    are integer day numbers since that date. The local time zone is taken to be
    UTC, so "local midnight" of day `d` is `DayStart(d)`. */
module Time {

  const MS_PER_SECOND: int := 1000
  const MS_PER_MINUTE: int := 60000
  const MS_PER_HOUR: int := 3600000
  const MS_PER_DAY: int := 86400000

  /** `setHours(0, 0, 0, 0)` on any instant of day `d`. */
  function DayStart(d: int): int
  {
    d * MS_PER_DAY
  }

  /** `setHours(23, 59, 59, 999)` on any instant of day `d`. */
  function EndOfDay(d: int): (t: int)
    ensures DayStart(d) < t < DayStart(d + 1)
  {
    DayStart(d) + MS_PER_DAY - 1
  }

  /** The calendar day an instant falls on. */
  function DayOf(t: int): (d: int)
    ensures DayStart(d) <= t <= EndOfDay(d)
  {
    t / MS_PER_DAY
  }

  lemma DayOfDayStart(d: int)
    ensures DayOf(DayStart(d)) == d && DayOf(EndOfDay(d)) == d
  {
  }

  /** `setHours(h, m, s, ms)` on day `d`; out-of-range fields carry over as in
      JavaScript (hour 25 is 01:00 of the next day). */
  function AtTime(d: int, h: int, m: int, s: int, ms: int): int
  {
    DayStart(d) + h * MS_PER_HOUR + m * MS_PER_MINUTE + s * MS_PER_SECOND + ms
  }

  /** Day number of the proleptic Gregorian date y-m-d, month 1..12. */
  function DaysFromCivil(y: int, m: int, d: int): int
    requires 1 <= m <= 12
  {
    var y1 := if m <= 2 then y - 1 else y;
    var era := y1 / 400;
    var yoe := y1 - era * 400;
    var mp := if m > 2 then m - 3 else m + 9;
    var doy := (153 * mp + 2) / 5 + d - 1;
    var doe := yoe * 365 + yoe / 4 - yoe / 100 + doy;
    era * 146097 + doe - 719468
  }

  /** The day of `new Date(year, monthIndex, date)`: a month index outside
      0..11 carries into the year, a date outside the month carries into the
      next or previous months, and a year 0..99 means 1900..1999. */
  function MakeDay(year: int, monthIndex: int, date: int): int
  {
    var yr := if 0 <= year <= 99 then 1900 + year else year;
    DaysFromCivil(yr + monthIndex / 12, monthIndex % 12 + 1, 1) + date - 1
  }

  /** `new Date(year, monthIndex, date, h, m, s, ms)`. */
  function MakeDate(year: int, monthIndex: int, date: int, h: int, m: int, s: int, ms: int): int
  {
    AtTime(MakeDay(year, monthIndex, date), h, m, s, ms)
  }

  /** Day number of 2000-01-01, the far-past default of the report filters. */
  const DAY_2000_01_01: int := 10957
  /** Day number of 2100-12-31, the far-future default of the report filters. */
  const DAY_2100_12_31: int := 47846

  lemma DefaultDays()
    ensures MakeDay(2000, 0, 1) == DAY_2000_01_01
    ensures MakeDay(2100, 11, 31) == DAY_2100_12_31
    ensures DaysFromCivil(1970, 1, 1) == 0
  {
    // 2000-01-01 counts in the year from 1999-03-01, the 400th of era 4.
    assert DaysFromCivil(2000, 1, 1) == 4 * 146097 + (399 * 365 + 99 - 3 + 306) - 719468;
    // 2100-12-01 is day 275 of the year from 2100-03-01, the 100th of era 5.
    assert DaysFromCivil(2100, 12, 1) == 5 * 146097 + (100 * 365 + 25 - 1 + 275) - 719468;
    assert DaysFromCivil(1970, 1, 1) == 4 * 146097 + (369 * 365 + 92 - 3 + 306) - 719468;
  }
}
