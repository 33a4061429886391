/** The route playback page: the time window it loads for a day, the stop
    markers, the replay that steps through the loaded samples one tick at a
    time, the progress bar, and the month picker over the movement days. */
module Playback {
  import opened Values
  import opened Lists
  import opened Text
  import opened Time
  import opened Telemetry
  import GpsIngest
  import TrackingQuery
  import ReportCoordinator

  // ---------------------------------------------------------------------
  // buildDateTimeRange

  /** `buildDateTimeRange`: the start clock with `||` fallbacks to 0, and the
      end clock with fallbacks to 23 and 59 plus 59.999 seconds, both on the
      selected day. */
  function BuildDateTimeRange(day: int, startTime: string, endTime: string): (r: (int, int))
    ensures r.0 == ReportCoordinator.StartBound(day, startTime)
    ensures r.1 == ReportCoordinator.EndBound(day, endTime)
  {
    var startHm := HourMinute(startTime);
    var endHm := HourMinute(endTime);
    (AtTime(day, NumberOr(startHm.0, 0), NumberOr(startHm.1, 0), 0, 0),
     AtTime(day, NumberOr(endHm.0, 23), NumberOr(endHm.1, 59), 59, 999))
  }

  /** On `HH:mm` clocks the window runs from the start minute to the last
      millisecond of the end minute, an end hour of 00 read as 23 and an end
      minute of 00 as 59; the refusal `end < start` happens exactly when
      that end minute comes before the start minute. */
  lemma ClockRange(day: int, h1: nat, m1: nat, h2: nat, m2: nat)
    requires h1 < 24 && m1 < 60 && h2 < 24 && m2 < 60
    ensures var r := BuildDateTimeRange(day, Pad2(h1) + ":" + Pad2(m1), Pad2(h2) + ":" + Pad2(m2));
      var h := if h2 == 0 then 23 else h2;
      var m := if m2 == 0 then 59 else m2;
      && r.0 == AtTime(day, h1, m1, 0, 0)
      && r.1 == AtTime(day, h, m, 59, 999)
      && (r.1 < r.0 <==> h * 60 + m < h1 * 60 + m1)
  {
    ReportCoordinator.ClockBounds(day, h1, m1);
    ReportCoordinator.ClockBounds(day, h2, m2);
  }

  /** The page's initial clocks, 00:00 and 23:59, cover the whole day. */
  lemma DefaultRange(day: int)
    ensures BuildDateTimeRange(day, "00:00", "23:59") == (DayStart(day), EndOfDay(day))
  {
    ReportCoordinator.MidnightClock(day);
    ReportCoordinator.LastMinuteClock(day);
  }

  // ---------------------------------------------------------------------
  // Stop markers

  /** A marker is placed for a sample with speed at most 1 km/h. */
  predicate StopSample(p: TrackingPoint)
  {
    p.speed <= 1.0
  }

  /** `addStopMarkers`: the samples with speed at most 1, in their order. */
  function StopMarkers(points: seq<TrackingPoint>): (r: seq<TrackingPoint>)
    ensures forall i :: 0 <= i < |r| ==> r[i] in points && r[i].speed <= 1.0
    ensures forall i :: 0 <= i < |points| && points[i].speed <= 1.0 ==> points[i] in r
  {
    Filter(points, StopSample)
  }

  function Chronological(p: TrackingPoint): int
  {
    p.timestamp
  }

  /** The markers keep the time order of the loaded samples, and every
      marked sample is one that ingestion files as not moving. */
  lemma StopMarkersOrdered(points: seq<TrackingPoint>)
    requires Sorted(points, Chronological)
    ensures Sorted(StopMarkers(points), Chronological)
    ensures forall i :: 0 <= i < |StopMarkers(points)| ==> !GpsIngest.IsMoving(StopMarkers(points)[i].speed)
  {
    FilterSorted(points, StopSample, Chronological);
  }

  // ---------------------------------------------------------------------
  // progressPercent

  /** `progressPercent`: 0 without samples, else the position of the current
      index over the last index, in percent, rounded and capped at 100. With
      one sample the quotient is 0/0 and the bar reads `NaN` (`None`). */
  function ProgressPercent(index: nat, n: nat): (r: Option<int>)
    ensures n == 0 ==> r == Some(0)
    ensures n == 1 ==> (r.None? <==> index == 0)
    ensures n >= 2 && index < n ==> r.Some? && 0 <= r.value <= 100
    ensures n >= 2 ==> (r == Some(0) <==> index == 0 || 200 * index < n - 1)
    ensures n >= 2 && index >= n - 1 ==> r == Some(100)
  {
    if n == 0 then Some(0)
    else if n == 1 then (if index == 0 then None else Some(100))
    else
      var q := index as real / (n - 1) as real * 100.0;
      var x := Round(q);
      PercentBounds(index, n - 1);
      Some(if x < 100 then x else 100)
  }

  /** Where the rounded percentage of `index` over `last` lies. */
  lemma PercentBounds(index: nat, last: nat)
    requires last >= 1
    ensures var x := Round(index as real / last as real * 100.0);
      && x >= 0
      && (index <= last ==> x <= 100)
      && (index >= last ==> x >= 100)
      && (x == 0 <==> index == 0 || 200 * index < last)
  {
    var f := index as real / last as real;
    Fraction(index, last);
    var q := f * 100.0;
    var x := Round(q);
    assert q - 0.5 < x as real <= q + 0.5;
  }

  /** The fraction `index / last` against 1 and against half a percent. */
  lemma Fraction(index: nat, last: nat)
    requires last >= 1
    ensures var f := index as real / last as real;
      && f >= 0.0
      && (index <= last ==> f <= 1.0)
      && (index >= last ==> f >= 1.0)
      && (f < 0.005 <==> 200 * index < last)
  {
    FracTimes(index, last);
    if index <= last {
      FracAtMostOne(index, last);
    }
    if index >= last {
      FracAtLeastOne(index, last);
    }
    HalfPercent(index, last);
  }

  lemma FracTimes(index: nat, last: nat)
    requires last >= 1
    ensures (index as real / last as real) * last as real == index as real
    ensures index as real / last as real >= 0.0
  {
  }

  lemma FracAtMostOne(index: nat, last: nat)
    requires 1 <= last && index <= last
    ensures index as real / last as real <= 1.0
  {
    var f := index as real / last as real;
    FracTimes(index, last);
    if f > 1.0 {
      Scale(1.0, f, last as real);
    }
  }

  lemma FracAtLeastOne(index: nat, last: nat)
    requires 1 <= last <= index
    ensures index as real / last as real >= 1.0
  {
    var f := index as real / last as real;
    FracTimes(index, last);
    if f < 1.0 {
      Scale(f, 1.0, last as real);
    }
  }

  /** Below half a percent exactly when 200 times the index is below `last`. */
  lemma HalfPercent(index: nat, last: nat)
    requires last >= 1
    ensures index as real / last as real < 0.005 <==> 200 * index < last
  {
    var f := index as real / last as real;
    FracTimes(index, last);
    if f < 0.005 {
      Scale(f, 0.005, last as real);
      assert 200.0 * index as real < last as real;
    } else {
      ScaleAtMost(0.005, f, last as real);
      assert 200.0 * index as real >= last as real;
    }
  }

  lemma ScaleAtMost(a: real, b: real, c: real)
    requires a <= b && c >= 0.0
    ensures a * c <= b * c
  {
  }

  /** Multiplying by a positive number keeps a strict order. */
  lemma Scale(a: real, b: real, c: real)
    requires a < b && c > 0.0
    ensures a * c < b * c
  {
  }

  /** The bar never moves back as the index advances. */
  lemma {:induction false} ProgressMonotone(i: nat, j: nat, n: nat)
    requires 2 <= n && i <= j
    ensures ProgressPercent(i, n).value <= ProgressPercent(j, n).value
  {
    var a := i as real / (n - 1) as real * 100.0;
    var b := j as real / (n - 1) as real * 100.0;
    assert a <= b by {
      assert i as real / (n - 1) as real <= j as real / (n - 1) as real;
    }
    FloorMonotone(a + 0.5, b + 0.5);
  }

  lemma FloorMonotone(a: real, b: real)
    requires a <= b
    ensures a.Floor <= b.Floor
  {
  }

  // ---------------------------------------------------------------------
  // Months and movement days

  /** The previous-month button: January goes to December. */
  function PrevMonth(m: int): (r: int)
    ensures 1 <= m <= 12 ==> 1 <= r <= 12
    ensures 1 < m <= 12 ==> r == m - 1
    ensures m == 1 ==> r == 12
  {
    if m <= 1 then 12 else m - 1
  }

  /** The next-month button: December goes to January. */
  function NextMonth(m: int): (r: int)
    ensures 1 <= m <= 12 ==> 1 <= r <= 12
    ensures 1 <= m < 12 ==> r == m + 1
    ensures m == 12 ==> r == 1
  {
    if m >= 12 then 1 else m + 1
  }

  /** On months the two buttons undo each other. */
  lemma MonthButtonsInverse(m: int)
    requires 1 <= m <= 12
    ensures NextMonth(PrevMonth(m)) == m && PrevMonth(NextMonth(m)) == m
  {
  }

  /** `k` presses of the next-month button. */
  function NextMonths(m: int, k: nat): int
  {
    if k == 0 then m else NextMonth(NextMonths(m, k - 1))
  }

  /** The next-month button walks the twelve months cyclically. */
  lemma {:induction false} NextMonthsCycle(m: int, k: nat)
    requires 1 <= m <= 12
    ensures NextMonths(m, k) == (m - 1 + k) % 12 + 1
  {
    if k > 0 {
      NextMonthsCycle(m, k - 1);
    }
  }

  /** A day of `GET /api/tracking/summary` as the page keeps it; `date` is
      the `YYYY-MM-DD` key. */
  datatype MovementDay = MovementDay(date: string, start: int, end: int, count: nat, movingCount: nat)

  /** `const [y, m] = d.date.split('-').map(Number)`. */
  function YearMonth(date: string): (Option<nat>, Option<nat>)
  {
    LeadingNumbers(date, '-')
  }

  predicate InMonth(d: MovementDay, year: int, month: int)
  {
    var ym := YearMonth(d.date);
    ym.0.Some? && ym.0.value == year && ym.1.Some? && ym.1.value == month
  }

  /** `filteredMovementDays`: the days of the selected year and month, in
      the order the summary gave them. */
  function FilteredMovementDays(days: seq<MovementDay>, year: int, month: int): (r: seq<MovementDay>)
    ensures forall i :: 0 <= i < |r| ==> r[i] in days && InMonth(r[i], year, month)
    ensures forall i :: 0 <= i < |days| && InMonth(days[i], year, month) ==> days[i] in r
  {
    Filter(days, d => InMonth(d, year, month))
  }

  /** The `YYYY-MM-DD` key of a calendar date. */
  function DateKey(y: nat, m: nat, d: nat): string
  {
    NatToString(y) + "-" + Pad2(m) + "-" + Pad2(d)
  }

  /** A summary day keyed by a calendar date is shown exactly in the month
      of that date. */
  lemma DateKeyInMonth(day: MovementDay, y: nat, m: nat, d: nat, year: int, month: int)
    requires day.date == DateKey(y, m, d) && 1 <= m <= 12 && 1 <= d <= 31
    ensures InMonth(day, year, month) <==> y == year && m == month
  {
    var a, b, c := NatToString(y), Pad2(m), Pad2(d);
    assert '-' !in a && '-' !in b && '-' !in c by {
      assert forall i :: 0 <= i < |a| ==> IsDigit(a[i]);
      assert forall i :: 0 <= i < |b| ==> IsDigit(b[i]);
      assert forall i :: 0 <= i < |c| ==> IsDigit(c[i]);
    }
    Split3(a, b, c, '-');
    NatToStringValue(y);
  }

  // ---------------------------------------------------------------------
  // Loading and replaying

  /** The most samples the page asks for. */
  const PLAYBACK_LIMIT: nat := 2000

  /** The query `fetchTrackingPoints` sends. */
  function PlaybackQuery(vid: int, range: (int, int)): TrackingQuery.PointQuery
  {
    TrackingQuery.PointQuery(Some(vid), Some(range.0), Some(range.1), Some(PLAYBACK_LIMIT))
  }

  /** The window is refused when its end comes before its start. */
  predicate Refused(day: int, startTime: string, endTime: string)
  {
    var range := BuildDateTimeRange(day, startTime, endTime);
    range.1 < range.0
  }

  /** The samples the page keeps: the answer of `GET /api/tracking` for the
      vehicle and window, re-sorted oldest first. */
  function Loaded(stored: seq<TrackingPoint>, vid: int, range: (int, int)): (r: seq<TrackingPoint>)
    ensures multiset(r) == multiset(TrackingQuery.ListPoints(stored, PlaybackQuery(vid, range)))
    ensures Sorted(r, Chronological)
    ensures |r| <= PLAYBACK_LIMIT
    ensures forall i :: 0 <= i < |r| ==>
      r[i] in stored && r[i].vehicleId == vid && range.0 <= r[i].timestamp <= range.1
  {
    var fetched := TrackingQuery.ListPoints(stored, PlaybackQuery(vid, range));
    var r := SortBy(fetched, Chronological);
    LoadedWithin(stored, vid, range, r);
    r
  }

  /** A reordering of the answer holds only stored samples of the vehicle
      inside the window. */
  lemma LoadedWithin(stored: seq<TrackingPoint>, vid: int, range: (int, int), r: seq<TrackingPoint>)
    requires multiset(r) == multiset(TrackingQuery.ListPoints(stored, PlaybackQuery(vid, range)))
    ensures forall i :: 0 <= i < |r| ==>
      r[i] in stored && r[i].vehicleId == vid && range.0 <= r[i].timestamp <= range.1
  {
    var fetched := TrackingQuery.ListPoints(stored, PlaybackQuery(vid, range));
    forall i | 0 <= i < |r|
      ensures r[i] in stored && r[i].vehicleId == vid && range.0 <= r[i].timestamp <= range.1
    {
      assert r[i] in multiset(fetched);
      var j :| 0 <= j < |fetched| && fetched[j] == r[i];
      assert TrackingQuery.Matches(PlaybackQuery(vid, range), fetched[j]);
    }
  }

  /** The page state playback works on. `idx` is the counter the interval
      callback captured, and `timer` says whether that interval runs. */
  class Player {
    var points: seq<TrackingPoint>
    var currentIndex: nat
    var isPlaying: bool
    var showFinished: bool
    var rangeError: bool
    var timer: bool
    var idx: nat

    /** While the interval runs there are at least two samples, the counter
        is a valid index and the shown index follows it. */
    ghost predicate Valid()
      reads this
    {
      && (|points| > 0 ==> currentIndex < |points|)
      && (timer ==> |points| >= 2 && idx < |points| && currentIndex == idx && isPlaying)
    }

    constructor ()
      ensures Valid() && points == [] && currentIndex == 0
      ensures !isPlaying && !showFinished && !rangeError && !timer
    {
      points := [];
      currentIndex := 0;
      isPlaying := false;
      showFinished := false;
      rangeError := false;
      timer := false;
      idx := 0;
    }

    /** `fetchTrackingPoints`: an end before the start is refused and
        nothing else changes; otherwise playback stops and the vehicle's
        samples in the window are loaded oldest first. */
    method Load(stored: seq<TrackingPoint>, vid: int, day: int, startTime: string, endTime: string)
      requires Valid()
      modifies this
      ensures Valid()
      ensures Refused(day, startTime, endTime) ==>
        && rangeError && points == old(points) && currentIndex == old(currentIndex)
        && isPlaying == old(isPlaying) && timer == old(timer) && idx == old(idx)
      ensures !Refused(day, startTime, endTime) ==>
        && !rangeError && !isPlaying && !timer && currentIndex == 0
        && points == Loaded(stored, vid, BuildDateTimeRange(day, startTime, endTime))
      ensures showFinished == old(showFinished)
    {
      var range := BuildDateTimeRange(day, startTime, endTime);
      if range.1 < range.0 {
        rangeError := true;
        return;
      }
      Show(Loaded(stored, vid, range));
    }

    /** The loaded samples replace the old ones, with playback stopped at
        the first sample. */
    method Show(loaded: seq<TrackingPoint>)
      modifies this
      ensures Valid()
      ensures !rangeError && !isPlaying && !timer && currentIndex == 0 && points == loaded
      ensures showFinished == old(showFinished)
    {
      rangeError, timer, isPlaying := false, false, false;
      points, currentIndex := loaded, 0;
    }

    /** `startPlayback`. Without samples nothing happens; with one sample the
        index is set to 0 and the finished notice shown at once, with no
        timer; otherwise the replay starts at index 0 with the interval
        running. */
    method Start()
      requires Valid()
      modifies this
      ensures Valid()
      ensures points == old(points) && rangeError == old(rangeError)
      ensures |points| == 0 ==>
        && currentIndex == old(currentIndex) && isPlaying == old(isPlaying)
        && showFinished == old(showFinished) && timer == old(timer) && idx == old(idx)
      ensures |points| == 1 ==>
        && currentIndex == 0 && showFinished && !timer && isPlaying == old(isPlaying)
      ensures |points| >= 2 ==>
        && currentIndex == 0 && idx == 0 && isPlaying && timer && !showFinished
    {
      if |points| == 0 {
        return;
      }
      if |points| == 1 {
        currentIndex := 0;
        showFinished := true;
        return;
      }
      timer := false;
      showFinished := false;
      currentIndex := 0;
      isPlaying := true;
      idx := 0;
      timer := true;
    }

    /** One run of the interval callback: advance the counter; past the last
        sample, finish (clear the interval, stop, show the notice), else show
        the next sample. */
    method Tick()
      requires Valid() && timer
      modifies this
      ensures Valid()
      ensures points == old(points) && rangeError == old(rangeError)
      ensures idx == old(idx) + 1
      ensures idx >= |points| ==>
        && !timer && !isPlaying && showFinished && currentIndex == old(currentIndex)
      ensures idx < |points| ==>
        && timer && isPlaying && currentIndex == idx && showFinished == old(showFinished)
    {
      idx := idx + 1;
      if idx >= |points| {
        timer := false;
        isPlaying := false;
        showFinished := true;
        return;
      }
      currentIndex := idx;
    }

    /** Playback from the start until the interval clears itself: with two
        or more samples it takes one tick per sample, and ends on the last
        sample with the finished notice shown. */
    method PlayToEnd() returns (ticks: nat)
      requires Valid() && |points| >= 2
      modifies this
      ensures Valid() && points == old(points)
      ensures ticks == |points|
      ensures currentIndex == |points| - 1 && showFinished && !isPlaying && !timer
    {
      Start();
      ticks := 0;
      while timer
        invariant Valid() && points == old(points)
        invariant timer ==> idx == ticks && isPlaying
        invariant !timer ==> ticks == |points| && currentIndex == |points| - 1 && showFinished && !isPlaying
        decreases if timer then |points| - idx else 0
      {
        Tick();
        ticks := ticks + 1;
      }
    }
  }
}
