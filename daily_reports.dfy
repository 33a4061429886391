/** The report endpoint's daily aggregator (`generateDailyReport`): a vehicle's
    points of one day, in time order, folded pair by pair into distance, speed,
    moving/stopped time and stop statistics, then upserted under the key
    (vehicleId, day).

    A pair (prev, curr) is classified by `curr` alone: stopped iff
    `curr.speed < 5`. A stop opens at the first stopped point and closes at
    the next moving one; a stop still open after the last point is closed at
    the end of the day. Times are kept in integer milliseconds; the handler's
    seconds and fractional minutes are exact rescalings of them, and each
    `Math.floor` of a non-negative quotient is Dafny's `/`. */
module DailyReports {
  import opened Values
  import opened Lists
  import opened Time
  import opened Telemetry

  const STOP_SPEED: real := 5.0

  predicate IsStop(p: TrackingPoint)
  {
    p.speed < STOP_SPEED
  }

  function Max(a: int, b: int): int
  {
    if a >= b then a else b
  }

  function MaxReal(a: real, b: real): real
  {
    if a >= b then a else b
  }

  function Gap(ps: seq<TrackingPoint>, j: int): int
    requires 1 <= j < |ps|
  {
    ps[j].timestamp - ps[j - 1].timestamp
  }

  // Each function below describes the pairs (ps[j-1], ps[j]) with 1 <= j < k.

  /** Total length of the gaps ending at a stopped point. */
  function StoppedMs(ps: seq<TrackingPoint>, k: int): int
    requires 1 <= k <= |ps|
  {
    if k == 1 then 0 else StoppedMs(ps, k - 1) + (if IsStop(ps[k - 1]) then Gap(ps, k - 1) else 0)
  }

  /** Total length of the gaps ending at a moving point. */
  function MovingMs(ps: seq<TrackingPoint>, k: int): int
    requires 1 <= k <= |ps|
  {
    if k == 1 then 0 else MovingMs(ps, k - 1) + (if IsStop(ps[k - 1]) then 0 else Gap(ps, k - 1))
  }

  /** The number of moving points among ps[1..k]. */
  function MovingCount(ps: seq<TrackingPoint>, k: int): nat
    requires 1 <= k <= |ps|
  {
    if k == 1 then 0 else MovingCount(ps, k - 1) + (if IsStop(ps[k - 1]) then 0 else 1)
  }

  /** The sum of the speeds of the moving points among ps[1..k]. */
  function MovingSpeedSum(ps: seq<TrackingPoint>, k: int): real
    requires 1 <= k <= |ps|
  {
    if k == 1 then 0.0
    else MovingSpeedSum(ps, k - 1) + (if IsStop(ps[k - 1]) then 0.0 else ps[k - 1].speed)
  }

  /** The path length through ps[..k]. */
  function PathDistance(ps: seq<TrackingPoint>, k: int, dist: Distance): real
    requires 1 <= k <= |ps|
  {
    if k == 1 then 0.0
    else
      PathDistance(ps, k - 1, dist)
      + dist(ps[k - 2].latitude, ps[k - 2].longitude, ps[k - 1].latitude, ps[k - 1].longitude)
  }

  /** The largest of 0 and the speeds of ps[1..k]. */
  function MaxSpeed(ps: seq<TrackingPoint>, k: int): real
    requires 1 <= k <= |ps|
  {
    if k == 1 then 0.0 else MaxReal(MaxSpeed(ps, k - 1), ps[k - 1].speed)
  }

  /** Point j opens a stop: it is stopped and either the first point the loop
      inspects or preceded by a moving point. */
  predicate OpensStop(ps: seq<TrackingPoint>, j: int)
    requires 1 <= j < |ps|
  {
    IsStop(ps[j]) && (j == 1 || !IsStop(ps[j - 1]))
  }

  /** The number of stops opened among ps[1..k]. */
  function StopCount(ps: seq<TrackingPoint>, k: int): nat
    requires 1 <= k <= |ps|
  {
    if k == 1 then 0 else StopCount(ps, k - 1) + (if OpensStop(ps, k - 1) then 1 else 0)
  }

  /** The index of the point that opened the stop containing stopped point j. */
  function RunStart(ps: seq<TrackingPoint>, j: int): (s: int)
    requires 1 <= j < |ps| && IsStop(ps[j])
    ensures 1 <= s <= j && OpensStop(ps, s)
  {
    if j > 1 && IsStop(ps[j - 1]) then RunStart(ps, j - 1) else j
  }

  /** The start time of the stop still open after ps[..k], if any. */
  function OpenStop(ps: seq<TrackingPoint>, k: int): Option<int>
    requires 1 <= k <= |ps|
  {
    if k >= 2 && IsStop(ps[k - 1]) then Some(ps[RunStart(ps, k - 1)].timestamp) else None
  }

  /** Point j closes a stop: it is moving and the point before it, which the
      loop inspected, is stopped. */
  predicate ClosesStop(ps: seq<TrackingPoint>, j: int)
    requires 1 <= j < |ps|
  {
    !IsStop(ps[j]) && j >= 2 && IsStop(ps[j - 1])
  }

  /** The longest stop closed by a moving point among ps[1..k], or 0. */
  function LongestClosedMs(ps: seq<TrackingPoint>, k: int): int
    requires 1 <= k <= |ps|
  {
    if k == 1 then 0
    else if ClosesStop(ps, k - 1) then
      Max(LongestClosedMs(ps, k - 1), ps[k - 1].timestamp - ps[RunStart(ps, k - 2)].timestamp)
    else LongestClosedMs(ps, k - 1)
  }

  /** The longest stop of the day: an open stop is closed at the day's end. */
  function LongestStopMs(ps: seq<TrackingPoint>, day: int): int
    requires |ps| >= 1
  {
    var closed := LongestClosedMs(ps, |ps|);
    var open := OpenStop(ps, |ps|);
    if open.Some? then Max(closed, EndOfDay(day) - open.value) else closed
  }

  function AvgSpeed(ps: seq<TrackingPoint>): real
    requires |ps| >= 1
  {
    var n := MovingCount(ps, |ps|);
    if n > 0 then MovingSpeedSum(ps, |ps|) / n as real else 0.0
  }

  /** The report columns of day `day` from its points `ps` in time order. */
  function DayStats(ps: seq<TrackingPoint>, day: int, dist: Distance): DailyStats
    requires |ps| >= 1
  {
    var n := |ps|;
    DailyStats(
      totalDistance := PathDistance(ps, n, dist),
      totalDuration := (ps[n - 1].timestamp - ps[0].timestamp) / MS_PER_MINUTE,
      totalStoppedTime := StoppedMs(ps, n) / MS_PER_MINUTE,
      totalMovingTime := MovingMs(ps, n) / MS_PER_MINUTE,
      maxSpeed := MaxSpeed(ps, n),
      avgSpeed := AvgSpeed(ps),
      numberOfStops := StopCount(ps, n),
      longestStop := LongestStopMs(ps, day) / MS_PER_MINUTE,
      firstMovement := Some(ps[0].timestamp),
      lastMovement := Some(ps[n - 1].timestamp),
      startLat := ps[0].latitude,
      startLng := ps[0].longitude,
      endLat := ps[n - 1].latitude,
      endLng := ps[n - 1].longitude)
  }

  /** The aggregation loop of `generateDailyReport`. */
  method AggregateDay(ps: seq<TrackingPoint>, day: int, dist: Distance) returns (r: DailyStats)
    requires |ps| >= 1
    ensures r == DayStats(ps, day, dist)
  {
    var totalDistance := 0.0;
    var maxSpeed := 0.0;
    var totalSpeed := 0.0;
    var movingPoints := 0;
    var stops := 0;
    var stoppedMs := 0;
    var movingMs := 0;
    var lastStopStart: Option<int> := None;
    var longestStop := 0;
    for i := 1 to |ps|
      invariant totalDistance == PathDistance(ps, i, dist)
      invariant maxSpeed == MaxSpeed(ps, i)
      invariant totalSpeed == MovingSpeedSum(ps, i)
      invariant movingPoints == MovingCount(ps, i)
      invariant stops == StopCount(ps, i)
      invariant stoppedMs == StoppedMs(ps, i)
      invariant movingMs == MovingMs(ps, i)
      invariant lastStopStart == OpenStop(ps, i)
      invariant longestStop == LongestClosedMs(ps, i)
    {
      var prev := ps[i - 1];
      var curr := ps[i];
      totalDistance := totalDistance + dist(prev.latitude, prev.longitude, curr.latitude, curr.longitude);
      if curr.speed > maxSpeed {
        maxSpeed := curr.speed;
      }
      var timeDiff := curr.timestamp - prev.timestamp;
      if curr.speed < STOP_SPEED {
        if lastStopStart.None? {
          lastStopStart := Some(curr.timestamp);
          stops := stops + 1;
        }
        stoppedMs := stoppedMs + timeDiff;
      } else {
        if lastStopStart.Some? {
          var stopDuration := curr.timestamp - lastStopStart.value;
          if stopDuration > longestStop {
            longestStop := stopDuration;
          }
          lastStopStart := None;
        }
        movingMs := movingMs + timeDiff;
        totalSpeed := totalSpeed + curr.speed;
        movingPoints := movingPoints + 1;
      }
    }
    if lastStopStart.Some? {
      var stopDuration := EndOfDay(day) - lastStopStart.value;
      if stopDuration > longestStop {
        longestStop := stopDuration;
      }
    }
    var n := |ps|;
    var avgSpeed := if movingPoints > 0 then totalSpeed / movingPoints as real else 0.0;
    r := DailyStats(
      totalDistance := totalDistance,
      totalDuration := (ps[n - 1].timestamp - ps[0].timestamp) / MS_PER_MINUTE,
      totalStoppedTime := stoppedMs / MS_PER_MINUTE,
      totalMovingTime := movingMs / MS_PER_MINUTE,
      maxSpeed := maxSpeed,
      avgSpeed := avgSpeed,
      numberOfStops := stops,
      longestStop := longestStop / MS_PER_MINUTE,
      firstMovement := Some(ps[0].timestamp),
      lastMovement := Some(ps[n - 1].timestamp),
      startLat := ps[0].latitude,
      startLng := ps[0].longitude,
      endLat := ps[n - 1].latitude,
      endLng := ps[n - 1].longitude);
  }

  // ---------------------------------------------------------------------
  // Properties of the aggregation

  /** Every gap lands in exactly one bucket, so the two buckets together
      span the first to the last point. */
  lemma {:induction false} GapsPartition(ps: seq<TrackingPoint>, k: int)
    requires 1 <= k <= |ps|
    ensures StoppedMs(ps, k) + MovingMs(ps, k) == ps[k - 1].timestamp - ps[0].timestamp
  {
    if k > 1 {
      GapsPartition(ps, k - 1);
    }
  }

  /** Flooring two parts separately loses at most one unit against flooring
      their sum. */
  lemma DivSplit(a: int, b: int, c: int)
    requires c > 0
    ensures (a + b) / c - 1 <= a / c + b / c <= (a + b) / c
  {
    var qa, ra := a / c, a % c;
    var qb, rb := b / c, b % c;
    assert a == c * qa + ra && 0 <= ra < c;
    assert b == c * qb + rb && 0 <= rb < c;
    assert a + b == c * (qa + qb) + (ra + rb);
    if ra + rb < c {
      DivUnique(a + b, c, qa + qb, ra + rb);
    } else {
      assert a + b == c * (qa + qb + 1) + (ra + rb - c);
      DivUnique(a + b, c, qa + qb + 1, ra + rb - c);
    }
  }

  lemma DivUnique(x: int, c: int, q: int, r: int)
    requires c > 0 && 0 <= r < c && x == c * q + r
    ensures x / c == q
  {
    var q', r' := x / c, x % c;
    assert x == c * q' + r';
    if q' > q {
      assert c * q' >= c * (q + 1) by { MulMono(c, q + 1, q'); }
    } else if q' < q {
      assert c * q >= c * (q' + 1) by { MulMono(c, q' + 1, q); }
    }
  }

  lemma MulMono(c: int, x: int, y: int)
    requires c > 0 && x <= y
    ensures c * x <= c * y
  {
  }

  /** The stopped and moving minutes of a report add up to its total
      duration, or to one minute less. */
  lemma MinutesAddUp(ps: seq<TrackingPoint>, day: int, dist: Distance)
    requires |ps| >= 1
    ensures var r := DayStats(ps, day, dist);
      r.totalStoppedTime + r.totalMovingTime == r.totalDuration
      || r.totalStoppedTime + r.totalMovingTime == r.totalDuration - 1
  {
    GapsPartition(ps, |ps|);
    DivSplit(StoppedMs(ps, |ps|), MovingMs(ps, |ps|), MS_PER_MINUTE);
  }

  /** Each inspected point is either moving or stopped; every stop is opened
      by a stopped point, so stops never outnumber stopped points. */
  lemma {:induction false} StopsBounded(ps: seq<TrackingPoint>, k: int)
    requires 1 <= k <= |ps|
    ensures StopCount(ps, k) + MovingCount(ps, k) <= k - 1
  {
    if k > 1 {
      StopsBounded(ps, k - 1);
    }
  }

  predicate AnyStop(ps: seq<TrackingPoint>, k: int)
    requires 1 <= k <= |ps|
  {
    exists j :: 1 <= j < k && IsStop(ps[j])
  }

  /** A stop is counted iff some inspected point is stopped; without one,
      no stopped time and no longest stop are reported either. */
  lemma {:induction false} StopsIffStopped(ps: seq<TrackingPoint>, k: int)
    requires 1 <= k <= |ps|
    ensures StopCount(ps, k) > 0 <==> AnyStop(ps, k)
    ensures !AnyStop(ps, k) ==> StoppedMs(ps, k) == 0 && LongestClosedMs(ps, k) == 0
    ensures !AnyStop(ps, k) ==> OpenStop(ps, k).None?
  {
    if k > 1 {
      StopsIffStopped(ps, k - 1);
      if IsStop(ps[k - 1]) {
        if !OpensStop(ps, k - 1) {
          assert IsStop(ps[k - 2]) && k - 2 >= 1;
        }
      } else {
        assert AnyStop(ps, k) <==> AnyStop(ps, k - 1);
      }
    }
  }

  lemma NoStopDay(ps: seq<TrackingPoint>, day: int, dist: Distance)
    requires |ps| >= 1
    requires forall j :: 1 <= j < |ps| ==> !IsStop(ps[j])
    ensures DayStats(ps, day, dist).numberOfStops == 0
    ensures DayStats(ps, day, dist).totalStoppedTime == 0
    ensures DayStats(ps, day, dist).longestStop == 0
  {
    StopsIffStopped(ps, |ps|);
  }

  /** maxSpeed bounds 0 and every inspected speed, and is one of them. */
  lemma {:induction false} MaxSpeedIsMax(ps: seq<TrackingPoint>, k: int)
    requires 1 <= k <= |ps|
    ensures MaxSpeed(ps, k) >= 0.0
    ensures forall j :: 1 <= j < k ==> ps[j].speed <= MaxSpeed(ps, k)
    ensures MaxSpeed(ps, k) == 0.0 || exists j :: 1 <= j < k && ps[j].speed == MaxSpeed(ps, k)
  {
    if k > 1 {
      MaxSpeedIsMax(ps, k - 1);
    }
  }

  /** The moving speeds lie between the stop threshold and maxSpeed. */
  lemma {:induction false} MovingSpeedBounds(ps: seq<TrackingPoint>, k: int)
    requires 1 <= k <= |ps|
    ensures STOP_SPEED * MovingCount(ps, k) as real <= MovingSpeedSum(ps, k)
    ensures MovingSpeedSum(ps, k) <= MovingCount(ps, k) as real * MaxSpeed(ps, |ps|)
  {
    MaxSpeedIsMax(ps, |ps|);
    if k > 1 {
      MovingSpeedBounds(ps, k - 1);
    }
  }

  /** avgSpeed is 0 on a day without motion and otherwise lies between the
      stop threshold and maxSpeed. */
  lemma AvgSpeedBounds(ps: seq<TrackingPoint>, day: int, dist: Distance)
    requires |ps| >= 1
    ensures var r := DayStats(ps, day, dist);
      (MovingCount(ps, |ps|) == 0 ==> r.avgSpeed == 0.0)
      && (MovingCount(ps, |ps|) > 0 ==> STOP_SPEED <= r.avgSpeed <= r.maxSpeed)
  {
    var n := MovingCount(ps, |ps|);
    if n > 0 {
      MovingSpeedBounds(ps, |ps|);
      var sum := MovingSpeedSum(ps, |ps|);
      var m := MaxSpeed(ps, |ps|);
      DivBounds(sum, n as real, STOP_SPEED, m);
    }
  }

  lemma DivBounds(sum: real, n: real, lo: real, hi: real)
    requires n > 0.0 && lo * n <= sum <= n * hi
    ensures lo <= sum / n <= hi
  {
    var q := sum / n;
    assert q * n == sum;
  }

  function At(hour: int, minute: int, speed: real): TrackingPoint
  {
    TrackingPoint(1, 30.0, 31.0, speed, 100, AtTime(0, hour, minute, 0, 0))
  }

  /** Samples at 08:00 (40 km/h), 08:10 (42), 08:22 (0.2), 08:38 (48) and
      08:55 (0): the two dips each open a stop; the average is taken over
      the moving points after the first (42 and 48), not over 40, 42 and 48;
      the stop open at 08:55 runs to the end of the day. */
  lemma DipsScenario(dist: Distance)
    ensures var r := DayStats([At(8, 0, 40.0), At(8, 10, 42.0), At(8, 22, 0.2), At(8, 38, 48.0),
                               At(8, 55, 0.0)], 0, dist);
      && r.numberOfStops == 2 && r.maxSpeed == 48.0 && r.avgSpeed == 45.0
      && r.totalDuration == 55 && r.totalStoppedTime == 29 && r.totalMovingTime == 26
      && r.longestStop == 904
  {
    var ps := [At(8, 0, 40.0), At(8, 10, 42.0), At(8, 22, 0.2), At(8, 38, 48.0), At(8, 55, 0.0)];
    assert RunStart(ps, 4) == 4;
    assert RunStart(ps, 2) == 2;
    assert StopCount(ps, 2) == 0 && StopCount(ps, 3) == 1 && StopCount(ps, 4) == 1;
    assert MaxSpeed(ps, 2) == 42.0 && MaxSpeed(ps, 3) == 42.0 && MaxSpeed(ps, 4) == 48.0;
    assert MovingCount(ps, 2) == 1 && MovingCount(ps, 3) == 1 && MovingCount(ps, 4) == 2;
    assert MovingSpeedSum(ps, 4) == 90.0;
    assert StoppedMs(ps, 3) == 12 * MS_PER_MINUTE && StoppedMs(ps, 4) == 12 * MS_PER_MINUTE;
    assert MovingMs(ps, 3) == 10 * MS_PER_MINUTE && MovingMs(ps, 4) == 26 * MS_PER_MINUTE;
    assert LongestClosedMs(ps, 4) == 16 * MS_PER_MINUTE;
  }

  // ---------------------------------------------------------------------
  // Fetching and storing

  /** The vehicle's points of the day, from 00:00:00.000 to 23:59:59.999,
      in ascending time order. */
  function DayPoints(points: seq<TrackingPoint>, vid: int, day: int): (ps: seq<TrackingPoint>)
    ensures Sorted(ps, (p: TrackingPoint) => p.timestamp)
    ensures forall i :: 0 <= i < |ps| ==>
      ps[i].vehicleId == vid && DayStart(day) <= ps[i].timestamp <= EndOfDay(day)
    ensures multiset(ps) == multiset(Filter(points, (p: TrackingPoint) =>
      p.vehicleId == vid && DayStart(day) <= p.timestamp <= EndOfDay(day)))
  {
    var inDay := Filter(points, (p: TrackingPoint) =>
      p.vehicleId == vid && DayStart(day) <= p.timestamp <= EndOfDay(day));
    var ps := SortBy(inDay, (p: TrackingPoint) => p.timestamp);
    assert forall i :: 0 <= i < |ps| ==> ps[i] in multiset(inDay);
    ps
  }

  /** The report columns `generateDailyReport` computes, or `None` (the
      handler's `null`) for a day without points. */
  function DayReport(points: seq<TrackingPoint>, vid: int, day: int, dist: Distance): Option<DailyStats>
  {
    var ps := DayPoints(points, vid, day);
    if |ps| == 0 then None else Some(DayStats(ps, day, dist))
  }

  predicate HasKey(r: DailyReport, vid: int, day: int)
  {
    r.vehicleId == vid && r.day == day
  }

  /** The reports table and id counter after `upsert` on (vid, day): an
      existing row keeps its id and takes the new columns; otherwise a row
      is appended with the next id. */
  function Upsert(reports: seq<DailyReport>, nextId: int, vid: int, day: int, stats: DailyStats)
    : (r: (seq<DailyReport>, int))
    requires ReportsValid(reports, nextId)
    ensures ReportsValid(r.0, r.1)
    ensures exists i :: 0 <= i < |r.0| && r.0[i] == DailyReport(r.0[i].id, vid, day, stats)
    ensures forall i :: 0 <= i < |r.0| && !HasKey(r.0[i], vid, day) ==> r.0[i] in reports
    ensures forall i :: 0 <= i < |reports| && !HasKey(reports[i], vid, day) ==> reports[i] in r.0
    ensures |r.0| == |reports| || |r.0| == |reports| + 1
    ensures |r.0| == |reports| + 1 <==> forall i :: 0 <= i < |reports| ==> !HasKey(reports[i], vid, day)
  {
    var found := IndexOf(reports, (x: DailyReport) => HasKey(x, vid, day));
    if found.Some? then
      var i := found.value;
      var rows := reports[i := reports[i].(stats := stats)];
      assert HasKey(reports[i], vid, day);
      assert rows[i] == DailyReport(rows[i].id, vid, day, stats);
      assert forall j :: 0 <= j < |rows| && j != i ==> rows[j] == reports[j];
      (rows, nextId)
    else
      var rows := reports + [DailyReport(nextId, vid, day, stats)];
      assert rows[|reports|] == DailyReport(nextId, vid, day, stats);
      assert forall j :: 0 <= j < |reports| ==> rows[j] == reports[j];
      (rows, nextId + 1)
  }

  /** Repeating an upsert with the same columns changes nothing, so it never
      creates a second row for the key. */
  lemma UpsertIdempotent(reports: seq<DailyReport>, nextId: int, vid: int, day: int, stats: DailyStats)
    requires ReportsValid(reports, nextId)
    ensures var r := Upsert(reports, nextId, vid, day, stats);
      Upsert(r.0, r.1, vid, day, stats) == r
  {
    var r := Upsert(reports, nextId, vid, day, stats);
    var i :| 0 <= i < |r.0| && r.0[i] == DailyReport(r.0[i].id, vid, day, stats);
    var found := IndexOf(r.0, (x: DailyReport) => HasKey(x, vid, day));
    assert HasKey(r.0[i], vid, day);
    assert found == Some(i);
    assert r.0[i := r.0[i].(stats := stats)] == r.0;
  }

  /** `generateDailyReport(vid, day)`: `None` and no write for a day without
      points; otherwise the report upserted under (vid, day). */
  method GenerateDailyReport(db: Database, vid: int, day: int, dist: Distance)
    returns (r: Option<DailyReport>)
    requires db.Valid()
    modifies db
    ensures db.Valid()
    ensures r.None? <==> DayReport(old(db.points), vid, day, dist).None?
    ensures r.None? ==> db.reports == old(db.reports) && db.nextReportId == old(db.nextReportId)
    ensures r.Some? ==>
      var u := Upsert(old(db.reports), old(db.nextReportId), vid, day,
                      DayReport(old(db.points), vid, day, dist).value);
      db.reports == u.0 && db.nextReportId == u.1 && r.value in db.reports
      && r.value.vehicleId == vid && r.value.day == day
      && r.value.stats == DayReport(old(db.points), vid, day, dist).value
    ensures db.vehicles == old(db.vehicles) && db.points == old(db.points)
    ensures db.trips == old(db.trips) && db.drivers == old(db.drivers)
    ensures db.nextVehicleId == old(db.nextVehicleId) && db.nextTripId == old(db.nextTripId)
    ensures db.nextDriverId == old(db.nextDriverId)
  {
    var ps := DayPoints(db.points, vid, day);
    if |ps| == 0 {
      return None;
    }
    var stats := AggregateDay(ps, day, dist);
    var u := Upsert(db.reports, db.nextReportId, vid, day, stats);
    var i :| 0 <= i < |u.0| && u.0[i] == DailyReport(u.0[i].id, vid, day, stats);
    r := Some(u.0[i]);
    WriteReports(db, u.0, u.1);
  }

  /** The write of an upsert: the reports table and its counter take their
      new values and nothing else changes. */
  method WriteReports(db: Database, rows: seq<DailyReport>, nextId: int)
    requires db.Valid() && ReportsValid(rows, nextId)
    modifies db
    ensures db.Valid()
    ensures db.reports == rows && db.nextReportId == nextId
    ensures db.vehicles == old(db.vehicles) && db.points == old(db.points)
    ensures db.trips == old(db.trips) && db.drivers == old(db.drivers)
    ensures db.nextVehicleId == old(db.nextVehicleId) && db.nextTripId == old(db.nextTripId)
    ensures db.nextDriverId == old(db.nextDriverId)
  {
    db.reports, db.nextReportId := rows, nextId;
  }
}
