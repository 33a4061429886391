/** The seed script's own daily aggregator, which deliberately differs from
    the report endpoint's: the stored points are grouped by (vehicle, day),
    and each group of at least two points is folded pair by pair into a
    report whose values are rounded with `Math.round`.

    A pair (prev, curr) is classified by `curr` alone: moving iff
    `curr.speed > 5`. A stop opens at `prev` of the first non-moving pair and
    closes at the next moving point; a stop still open at the last point is
    closed at that point. Times are fractional minutes, kept exact as reals. */
module SeedReports {
  import opened Values
  import opened Lists
  import opened Time
  import opened Telemetry
  import opened DailyReports

  const MOVING_SPEED: real := 5.0

  predicate Moves(p: TrackingPoint)
  {
    p.speed > MOVING_SPEED
  }

  /** A millisecond span in fractional minutes. */
  function Minutes(ms: int): real
  {
    ms as real / MS_PER_MINUTE as real
  }

  // Each function below describes the pairs (ps[j-1], ps[j]) with 1 <= j < k.

  /** Minutes of the gaps ending at a moving point. */
  function SeedMovingMin(ps: seq<TrackingPoint>, k: int): real
    requires 1 <= k <= |ps|
  {
    if k == 1 then 0.0
    else SeedMovingMin(ps, k - 1) + (if Moves(ps[k - 1]) then Minutes(Gap(ps, k - 1)) else 0.0)
  }

  /** Minutes of the gaps ending at a non-moving point. */
  function SeedStoppedMin(ps: seq<TrackingPoint>, k: int): real
    requires 1 <= k <= |ps|
  {
    if k == 1 then 0.0
    else SeedStoppedMin(ps, k - 1) + (if Moves(ps[k - 1]) then 0.0 else Minutes(Gap(ps, k - 1)))
  }

  /** The sum of the speeds of ps[1..k], moving or not. */
  function SpeedSum(ps: seq<TrackingPoint>, k: int): real
    requires 1 <= k <= |ps|
  {
    if k == 1 then 0.0 else SpeedSum(ps, k - 1) + ps[k - 1].speed
  }

  /** Pair j opens a stop: its `curr` is not moving and no stop is open,
      that is, it is the first pair or the pair before it ended moving. */
  predicate SeedOpensStop(ps: seq<TrackingPoint>, j: int)
    requires 1 <= j < |ps|
  {
    !Moves(ps[j]) && (j == 1 || Moves(ps[j - 1]))
  }

  function SeedStopCount(ps: seq<TrackingPoint>, k: int): nat
    requires 1 <= k <= |ps|
  {
    if k == 1 then 0 else SeedStopCount(ps, k - 1) + (if SeedOpensStop(ps, k - 1) then 1 else 0)
  }

  /** The pair that opened the stop containing non-moving point j. */
  function SeedRunStart(ps: seq<TrackingPoint>, j: int): (s: int)
    requires 1 <= j < |ps| && !Moves(ps[j])
    ensures 1 <= s <= j && SeedOpensStop(ps, s)
  {
    if j > 1 && !Moves(ps[j - 1]) then SeedRunStart(ps, j - 1) else j
  }

  /** The start of the stop open after ps[..k]: the `prev` of its first pair. */
  function SeedOpenStop(ps: seq<TrackingPoint>, k: int): Option<int>
    requires 1 <= k <= |ps|
  {
    if k >= 2 && !Moves(ps[k - 1]) then Some(ps[SeedRunStart(ps, k - 1) - 1].timestamp) else None
  }

  predicate SeedClosesStop(ps: seq<TrackingPoint>, j: int)
    requires 1 <= j < |ps|
  {
    Moves(ps[j]) && j >= 2 && !Moves(ps[j - 1])
  }

  /** The longest stop, in minutes, closed by a moving point among ps[1..k]. */
  function SeedLongestClosed(ps: seq<TrackingPoint>, k: int): real
    requires 1 <= k <= |ps|
  {
    if k == 1 then 0.0
    else if SeedClosesStop(ps, k - 1) then
      MaxReal(SeedLongestClosed(ps, k - 1),
              Minutes(ps[k - 1].timestamp - ps[SeedRunStart(ps, k - 2) - 1].timestamp))
    else SeedLongestClosed(ps, k - 1)
  }

  /** The longest stop after ps[..k]; once the last point is reached, a stop
      still open is closed at it. */
  function SeedLongest(ps: seq<TrackingPoint>, k: int): real
    requires 1 <= k <= |ps|
  {
    var closed := SeedLongestClosed(ps, k);
    var open := SeedOpenStop(ps, k);
    if k == |ps| && open.Some? then MaxReal(closed, Minutes(ps[k - 1].timestamp - open.value))
    else closed
  }

  /** The average the seed stores before rounding: the speeds of ps[1..]
      over all n points. */
  function SeedAvg(ps: seq<TrackingPoint>): real
    requires |ps| >= 1
  {
    SpeedSum(ps, |ps|) / |ps| as real
  }

  /** The report columns the seed stores for one group in time order. */
  function SeedStats(ps: seq<TrackingPoint>, dist: Distance): DailyStats
    requires |ps| >= 2
  {
    var n := |ps|;
    DailyStats(
      totalDistance := Round2(PathDistance(ps, n, dist)),
      totalDuration := Round(Minutes(ps[n - 1].timestamp - ps[0].timestamp)),
      totalStoppedTime := Round(SeedStoppedMin(ps, n)),
      totalMovingTime := Round(SeedMovingMin(ps, n)),
      maxSpeed := Round2(MaxSpeed(ps, n)),
      avgSpeed := Round2(SeedAvg(ps)),
      numberOfStops := SeedStopCount(ps, n),
      longestStop := Round(SeedLongest(ps, n)),
      firstMovement := Some(ps[0].timestamp),
      lastMovement := Some(ps[n - 1].timestamp),
      startLat := ps[0].latitude,
      startLng := ps[0].longitude,
      endLat := ps[n - 1].latitude,
      endLng := ps[n - 1].longitude)
  }

  /** The seed's aggregation loop over one group in time order. */
  method AggregateSeed(ps: seq<TrackingPoint>, dist: Distance) returns (r: DailyStats)
    requires |ps| >= 2
    ensures r == SeedStats(ps, dist)
  {
    var totalDistance := 0.0;
    var maxSpeed := 0.0;
    var totalSpeed := 0.0;
    var movingTime := 0.0;
    var stoppedTime := 0.0;
    var numberOfStops := 0;
    var longestStop := 0.0;
    var currentStopStart: Option<int> := None;
    var n := |ps|;
    for i := 1 to n
      invariant totalDistance == PathDistance(ps, i, dist)
      invariant maxSpeed == MaxSpeed(ps, i)
      invariant totalSpeed == SpeedSum(ps, i)
      invariant movingTime == SeedMovingMin(ps, i)
      invariant stoppedTime == SeedStoppedMin(ps, i)
      invariant numberOfStops == SeedStopCount(ps, i)
      invariant currentStopStart == SeedOpenStop(ps, i)
      invariant longestStop == SeedLongest(ps, i)
    {
      var prev := ps[i - 1];
      var curr := ps[i];
      totalDistance := totalDistance + dist(prev.latitude, prev.longitude, curr.latitude, curr.longitude);
      if curr.speed > maxSpeed {
        maxSpeed := curr.speed;
      }
      totalSpeed := totalSpeed + curr.speed;
      var timeDiff := Minutes(curr.timestamp - prev.timestamp);
      var isCurrentlyMoving := curr.speed > MOVING_SPEED;
      if isCurrentlyMoving {
        movingTime := movingTime + timeDiff;
        if currentStopStart.Some? {
          var stopDuration := Minutes(curr.timestamp - currentStopStart.value);
          if stopDuration > longestStop {
            longestStop := stopDuration;
          }
          currentStopStart := None;
        }
      } else {
        stoppedTime := stoppedTime + timeDiff;
        if currentStopStart.None? {
          currentStopStart := Some(prev.timestamp);
          numberOfStops := numberOfStops + 1;
        }
      }
      if i == n - 1 && currentStopStart.Some? && !isCurrentlyMoving {
        var stopDuration := Minutes(curr.timestamp - currentStopStart.value);
        if stopDuration > longestStop {
          longestStop := stopDuration;
        }
      }
    }
    r := DailyStats(
      totalDistance := Round2(totalDistance),
      totalDuration := Round(Minutes(ps[n - 1].timestamp - ps[0].timestamp)),
      totalStoppedTime := Round(stoppedTime),
      totalMovingTime := Round(movingTime),
      maxSpeed := Round2(maxSpeed),
      avgSpeed := Round2(totalSpeed / n as real),
      numberOfStops := numberOfStops,
      longestStop := Round(longestStop),
      firstMovement := Some(ps[0].timestamp),
      lastMovement := Some(ps[n - 1].timestamp),
      startLat := ps[0].latitude,
      startLng := ps[0].longitude,
      endLat := ps[n - 1].latitude,
      endLng := ps[n - 1].longitude);
  }

  // ---------------------------------------------------------------------
  // Properties of the seed's aggregation

  /** Every gap lands in exactly one bucket, so moving and stopped minutes
      together span the first to the last point exactly. */
  lemma {:induction false} SeedGapsPartition(ps: seq<TrackingPoint>, k: int)
    requires 1 <= k <= |ps|
    ensures SeedMovingMin(ps, k) + SeedStoppedMin(ps, k) == Minutes(ps[k - 1].timestamp - ps[0].timestamp)
  {
    if k > 1 {
      SeedGapsPartition(ps, k - 1);
    }
  }

  /** Rounding the two buckets separately: together they are within one
      minute of the rounded duration, on either side. */
  lemma SeedMinutesAddUp(ps: seq<TrackingPoint>, dist: Distance)
    requires |ps| >= 2
    ensures var r := SeedStats(ps, dist);
      r.totalDuration - 1 <= r.totalStoppedTime + r.totalMovingTime <= r.totalDuration + 1
  {
    SeedGapsPartition(ps, |ps|);
  }

  predicate AnyHalt(ps: seq<TrackingPoint>, k: int)
    requires 1 <= k <= |ps|
  {
    exists j :: 1 <= j < k && !Moves(ps[j])
  }

  /** A stop is counted iff some point after the first is not moving;
      without one there is no stopped time, no closed stop and no open one. */
  lemma {:induction false} SeedStopsIffHalted(ps: seq<TrackingPoint>, k: int)
    requires 1 <= k <= |ps|
    ensures SeedStopCount(ps, k) > 0 <==> AnyHalt(ps, k)
    ensures !AnyHalt(ps, k) ==> SeedStoppedMin(ps, k) == 0.0 && SeedLongestClosed(ps, k) == 0.0
    ensures !AnyHalt(ps, k) ==> SeedOpenStop(ps, k).None?
  {
    if k > 1 {
      SeedStopsIffHalted(ps, k - 1);
      if !Moves(ps[k - 1]) {
        if !SeedOpensStop(ps, k - 1) {
          assert !Moves(ps[k - 2]) && k - 2 >= 1;
        }
      } else {
        assert AnyHalt(ps, k) <==> AnyHalt(ps, k - 1);
      }
    }
  }

  /** Two stops are separated by at least one moving point, so at most
      half of the pairs (rounded up) open a stop. */
  lemma {:induction false} SeedStopsBounded(ps: seq<TrackingPoint>, k: int)
    requires 1 <= k <= |ps|
    ensures 2 * SeedStopCount(ps, k) <= k
    ensures k >= 2 && Moves(ps[k - 1]) ==> 2 * SeedStopCount(ps, k) <= k - 1
  {
    if k > 2 {
      SeedStopsBounded(ps, k - 1);
    }
  }

  /** With non-negative speeds the stored average is at least 0 and at most
      maxSpeed times (n - 1) / n: the first point's speed is left out of the
      sum but counted in the divisor. */
  lemma SeedAvgBounds(ps: seq<TrackingPoint>)
    requires |ps| >= 2
    requires forall i :: 0 <= i < |ps| ==> ps[i].speed >= 0.0
    ensures 0.0 <= SeedAvg(ps)
    ensures SeedAvg(ps) * |ps| as real <= MaxSpeed(ps, |ps|) * (|ps| - 1) as real
  {
    SpeedSumBounds(ps, |ps|);
    var n := |ps| as real;
    assert SeedAvg(ps) * n == SpeedSum(ps, |ps|);
  }

  lemma {:induction false} SpeedSumBounds(ps: seq<TrackingPoint>, k: int)
    requires 1 <= k <= |ps|
    requires forall i :: 0 <= i < |ps| ==> ps[i].speed >= 0.0
    ensures 0.0 <= SpeedSum(ps, k) <= MaxSpeed(ps, |ps|) * (k - 1) as real
  {
    MaxSpeedIsMax(ps, |ps|);
    if k > 1 {
      SpeedSumBounds(ps, k - 1);
    }
  }

  lemma {:induction false} ConstantSums(ps: seq<TrackingPoint>, k: int, v: real)
    requires 1 <= k <= |ps|
    requires v >= STOP_SPEED
    requires forall i :: 0 <= i < |ps| ==> ps[i].speed == v
    ensures SpeedSum(ps, k) == v * (k - 1) as real
    ensures MovingSpeedSum(ps, k) == v * (k - 1) as real
    ensures MovingCount(ps, k) == k - 1
  {
    if k > 1 {
      ConstantSums(ps, k - 1, v);
    }
  }

  /** At a constant cruising speed v the report endpoint averages v, while
      the seed stores v * (n - 1) / n before rounding. */
  lemma ConstantSpeedAverages(ps: seq<TrackingPoint>, v: real)
    requires |ps| >= 2
    requires v >= STOP_SPEED
    requires forall i :: 0 <= i < |ps| ==> ps[i].speed == v
    ensures AvgSpeed(ps) == v
    ensures SeedAvg(ps) == v * (|ps| - 1) as real / |ps| as real
  {
    ConstantSums(ps, |ps|, v);
  }

  // ---------------------------------------------------------------------
  // The demo route

  /** One stop of `buildRoute`: a position, a speed and the minutes after
      midnight at which it is recorded. */
  datatype RouteStop = RouteStop(lat: real, lng: real, speed: real, minutes: int)

  /** `buildRoute`: ten samples over 130 minutes from `startMinute`, with
      three slow samples (0.2, 0 and 0.5 km/h) between moving ones. */
  function BuildRoute(baseLat: real, baseLng: real, startMinute: int): (r: seq<RouteStop>)
    ensures |r| == 10
    ensures r[0].minutes == startMinute && r[9].minutes == startMinute + 130
    ensures forall i, j :: 0 <= i < j < |r| ==> r[i].minutes < r[j].minutes
  {
    [RouteStop(baseLat, baseLng, 40.0, startMinute + 0),
     RouteStop(baseLat + 0.004, baseLng + 0.003, 42.0, startMinute + 10),
     RouteStop(baseLat + 0.006, baseLng + 0.007, 0.2, startMinute + 22),
     RouteStop(baseLat + 0.010, baseLng + 0.012, 48.0, startMinute + 38),
     RouteStop(baseLat + 0.013, baseLng + 0.016, 0.0, startMinute + 55),
     RouteStop(baseLat + 0.017, baseLng + 0.018, 50.0, startMinute + 70),
     RouteStop(baseLat + 0.019, baseLng + 0.014, 32.0, startMinute + 85),
     RouteStop(baseLat + 0.021, baseLng + 0.009, 0.5, startMinute + 100),
     RouteStop(baseLat + 0.022, baseLng + 0.003, 37.0, startMinute + 115),
     RouteStop(baseLat + 0.023, baseLng - 0.002, 44.0, startMinute + 130)]
  }

  /** The points a route records on `day`: `setMinutes(minutes)` on the
      day's midnight, which carries minutes past 59 into the hours. */
  function RoutePoints(vid: int, day: int, route: seq<RouteStop>, battery: int): (ps: seq<TrackingPoint>)
    ensures |ps| == |route|
    ensures forall i :: 0 <= i < |ps| ==>
      ps[i].timestamp == DayStart(day) + route[i].minutes * MS_PER_MINUTE
      && ps[i].speed == route[i].speed && ps[i].vehicleId == vid
  {
    seq(|route|, i requires 0 <= i < |route| =>
      TrackingPoint(vid, route[i].lat, route[i].lng, route[i].speed, battery,
                    DayStart(day) + route[i].minutes * MS_PER_MINUTE))
  }

  /** The seed's report for one demo route: three stops, the longest
      32 minutes (48 to 80 minutes from midnight), 44 minutes stopped, 86
      moving, 130 in all, a top speed of 50 and an average of 253.7 / 10. */
  lemma DemoRouteReport(vid: int, day: int, baseLat: real, baseLng: real, startMinute: int,
                        battery: int, dist: Distance)
    ensures var r := SeedStats(RoutePoints(vid, day, BuildRoute(baseLat, baseLng, startMinute), battery), dist);
      && r.numberOfStops == 3 && r.longestStop == 32
      && r.totalStoppedTime == 44 && r.totalMovingTime == 86 && r.totalDuration == 130
      && r.maxSpeed == 50.0 && r.avgSpeed == 25.37
  {
    var ps := RoutePoints(vid, day, BuildRoute(baseLat, baseLng, startMinute), battery);
    DemoShaped(vid, day, baseLat, baseLng, startMinute, battery);
    DemoStops(ps);
    DemoMinutes(ps);
    DemoSpeeds(ps);
  }

  /** The demo route's points: which of them move, the minutes between
      consecutive ones, and their speeds. */
  ghost predicate DemoShape(ps: seq<TrackingPoint>)
  {
    && |ps| == 10
    && Moves(ps[1]) && !Moves(ps[2]) && Moves(ps[3]) && !Moves(ps[4]) && Moves(ps[5])
    && Moves(ps[6]) && !Moves(ps[7]) && Moves(ps[8]) && Moves(ps[9])
    && Minutes(Gap(ps, 1)) == 10.0 && Minutes(Gap(ps, 2)) == 12.0 && Minutes(Gap(ps, 3)) == 16.0
    && Minutes(Gap(ps, 4)) == 17.0 && Minutes(Gap(ps, 5)) == 15.0 && Minutes(Gap(ps, 6)) == 15.0
    && Minutes(Gap(ps, 7)) == 15.0 && Minutes(Gap(ps, 8)) == 15.0 && Minutes(Gap(ps, 9)) == 15.0
    && Minutes(ps[9].timestamp - ps[0].timestamp) == 130.0
    && Minutes(ps[3].timestamp - ps[1].timestamp) == 28.0
    && Minutes(ps[5].timestamp - ps[3].timestamp) == 32.0
    && Minutes(ps[8].timestamp - ps[6].timestamp) == 30.0
    && ps[1].speed == 42.0 && ps[2].speed == 0.2 && ps[3].speed == 48.0 && ps[4].speed == 0.0
    && ps[5].speed == 50.0 && ps[6].speed == 32.0 && ps[7].speed == 0.5 && ps[8].speed == 37.0
    && ps[9].speed == 44.0
  }

  lemma DemoShaped(vid: int, day: int, baseLat: real, baseLng: real, startMinute: int, battery: int)
    ensures DemoShape(RoutePoints(vid, day, BuildRoute(baseLat, baseLng, startMinute), battery))
  {
    var ps := RoutePoints(vid, day, BuildRoute(baseLat, baseLng, startMinute), battery);
    var route := BuildRoute(baseLat, baseLng, startMinute);
    assert forall i :: 0 <= i < 10 ==> ps[i].timestamp == DayStart(day) + route[i].minutes * MS_PER_MINUTE;
    assert Gap(ps, 1) == 10 * MS_PER_MINUTE && Gap(ps, 2) == 12 * MS_PER_MINUTE;
    assert Gap(ps, 3) == 16 * MS_PER_MINUTE && Gap(ps, 4) == 17 * MS_PER_MINUTE;
    assert Gap(ps, 5) == 15 * MS_PER_MINUTE && Gap(ps, 6) == 15 * MS_PER_MINUTE;
    assert Gap(ps, 7) == 15 * MS_PER_MINUTE && Gap(ps, 8) == 15 * MS_PER_MINUTE;
    assert Gap(ps, 9) == 15 * MS_PER_MINUTE;
    assert ps[9].timestamp - ps[0].timestamp == 130 * MS_PER_MINUTE;
    assert ps[3].timestamp - ps[1].timestamp == 28 * MS_PER_MINUTE;
    assert ps[5].timestamp - ps[3].timestamp == 32 * MS_PER_MINUTE;
    assert ps[8].timestamp - ps[6].timestamp == 30 * MS_PER_MINUTE;
    MinutesOf(10);
    MinutesOf(12);
    MinutesOf(15);
    MinutesOf(16);
    MinutesOf(17);
    MinutesOf(28);
    MinutesOf(30);
    MinutesOf(32);
    MinutesOf(130);
  }

  /** A whole number of minutes in milliseconds reads back as that number. */
  lemma MinutesOf(m: int)
    ensures Minutes(m * MS_PER_MINUTE) == m as real
  {
  }

  lemma DemoStops(ps: seq<TrackingPoint>)
    requires DemoShape(ps)
    ensures SeedStopCount(ps, 10) == 3 && SeedLongest(ps, 10) == 32.0
  {
    assert SeedRunStart(ps, 2) == 2 && SeedRunStart(ps, 4) == 4 && SeedRunStart(ps, 7) == 7;
    assert SeedStopCount(ps, 2) == 0 && SeedStopCount(ps, 3) == 1 && SeedStopCount(ps, 4) == 1;
    assert SeedStopCount(ps, 5) == 2 && SeedStopCount(ps, 6) == 2 && SeedStopCount(ps, 7) == 2;
    assert SeedStopCount(ps, 8) == 3 && SeedStopCount(ps, 9) == 3;
    assert SeedLongestClosed(ps, 2) == 0.0 && SeedLongestClosed(ps, 3) == 0.0;
    assert SeedLongestClosed(ps, 4) == 28.0;
    assert SeedLongestClosed(ps, 5) == 28.0 && SeedLongestClosed(ps, 6) == 32.0;
    assert SeedLongestClosed(ps, 7) == 32.0 && SeedLongestClosed(ps, 8) == 32.0;
    assert SeedLongestClosed(ps, 9) == 32.0 && SeedLongestClosed(ps, 10) == 32.0;
    assert SeedOpenStop(ps, 10).None?;
  }

  lemma DemoMinutes(ps: seq<TrackingPoint>)
    requires DemoShape(ps)
    ensures SeedStoppedMin(ps, 10) == 44.0 && SeedMovingMin(ps, 10) == 86.0
  {
    assert SeedStoppedMin(ps, 2) == 0.0 && SeedStoppedMin(ps, 3) == 12.0;
    assert SeedStoppedMin(ps, 4) == 12.0 && SeedStoppedMin(ps, 5) == 29.0;
    assert SeedStoppedMin(ps, 6) == 29.0 && SeedStoppedMin(ps, 7) == 29.0;
    assert SeedStoppedMin(ps, 8) == 44.0 && SeedStoppedMin(ps, 9) == 44.0;
    assert SeedMovingMin(ps, 2) == 10.0 && SeedMovingMin(ps, 4) == 26.0;
    assert SeedMovingMin(ps, 6) == 41.0 && SeedMovingMin(ps, 7) == 56.0;
    assert SeedMovingMin(ps, 9) == 71.0;
  }

  lemma DemoSpeeds(ps: seq<TrackingPoint>)
    requires DemoShape(ps)
    ensures MaxSpeed(ps, 10) == 50.0 && SpeedSum(ps, 10) == 253.7
  {
    assert MaxSpeed(ps, 2) == 42.0 && MaxSpeed(ps, 4) == 48.0;
    assert MaxSpeed(ps, 6) == 50.0 && MaxSpeed(ps, 8) == 50.0;
    assert SpeedSum(ps, 2) == 42.0 && SpeedSum(ps, 3) == 42.2;
    assert SpeedSum(ps, 4) == 90.2 && SpeedSum(ps, 5) == 90.2;
    assert SpeedSum(ps, 6) == 140.2 && SpeedSum(ps, 7) == 172.2;
    assert SpeedSum(ps, 8) == 172.7 && SpeedSum(ps, 9) == 209.7;
  }

  // ---------------------------------------------------------------------
  // Grouping and storing

  /** The grouping key `${vehicleId}_${date}`: the vehicle and the day of
      the sample. */
  function KeyOf(p: TrackingPoint): (int, int)
  {
    (p.vehicleId, DayOf(p.timestamp))
  }

  function InGroup(key: (int, int)): TrackingPoint -> bool
  {
    (p: TrackingPoint) => KeyOf(p) == key
  }

  /** The points of one key in their order in `s`, as the grouping
      `forEach` pushes them. */
  function GroupOf(s: seq<TrackingPoint>, key: (int, int)): seq<TrackingPoint>
  {
    if s == [] then []
    else GroupOf(s[..|s| - 1], key) + (if KeyOf(s[|s| - 1]) == key then [s[|s| - 1]] else [])
  }

  /** Pushing one more point extends exactly the group of its key. */
  lemma GroupOfSnoc(s: seq<TrackingPoint>, p: TrackingPoint)
    ensures forall k :: GroupOf(s + [p], k) == GroupOf(s, k) + (if KeyOf(p) == k then [p] else [])
  {
    assert (s + [p])[..|s|] == s;
  }

  /** Pushing point by point selects exactly the points of the key, in order. */
  lemma {:induction false} GroupOfIsFilter(s: seq<TrackingPoint>, key: (int, int))
    ensures GroupOf(s, key) == Filter(s, InGroup(key))
  {
    if s != [] {
      var n := |s| - 1;
      GroupOfIsFilter(s[..n], key);
      assert s == s[..n] + [s[n]];
      FilterSnoc(s[..n], s[n], InGroup(key));
    }
  }

  /** The points of one key, taken from all points in ascending time order. */
  function SeedGroup(points: seq<TrackingPoint>, key: (int, int)): seq<TrackingPoint>
  {
    GroupOf(SortBy(points, Timestamp), key)
  }

  /** Every point of a group has the group's key, and every point of the
      key is in its group. */
  lemma SeedGroupMembers(points: seq<TrackingPoint>, key: (int, int))
    ensures forall i :: 0 <= i < |SeedGroup(points, key)| ==> KeyOf(SeedGroup(points, key)[i]) == key
    ensures forall p :: p in points && KeyOf(p) == key ==> p in SeedGroup(points, key)
    ensures |SeedGroup(points, key)| <= |points|
  {
    var sorted := SortBy(points, Timestamp);
    GroupOfIsFilter(sorted, key);
    forall p | p in points && KeyOf(p) == key
      ensures p in SeedGroup(points, key)
    {
      assert p in multiset(sorted);
    }
  }

  /** What the grouping `forEach` has built after the points `s`: each key
      once, in order of first appearance, mapped to its points in order, and
      every point's key present. */
  ghost predicate Grouped(s: seq<TrackingPoint>, keys: seq<(int, int)>, groups: map<(int, int), seq<TrackingPoint>>)
  {
    && (forall a, b :: 0 <= a < b < |keys| ==> keys[a] != keys[b])
    && (forall k :: k in groups <==> k in keys)
    && (forall k :: k in groups ==> groups[k] == GroupOf(s, k))
    && (forall k :: k !in groups ==> GroupOf(s, k) == [])
    && (forall j :: 0 <= j < |s| ==> KeyOf(s[j]) in groups)
  }

  /** One push of the grouping `forEach` keeps `Grouped`. */
  lemma GroupedSnoc(s: seq<TrackingPoint>, p: TrackingPoint,
                    keys: seq<(int, int)>, groups: map<(int, int), seq<TrackingPoint>>,
                    keys': seq<(int, int)>, groups': map<(int, int), seq<TrackingPoint>>)
    requires Grouped(s, keys, groups)
    requires KeyOf(p) !in groups ==> keys' == keys + [KeyOf(p)] && groups' == groups[KeyOf(p) := [p]]
    requires KeyOf(p) in groups ==> keys' == keys && groups' == groups[KeyOf(p) := groups[KeyOf(p)] + [p]]
    ensures Grouped(s + [p], keys', groups')
  {
    GroupOfSnoc(s, p);
    if KeyOf(p) in groups {
      GroupedPushOld(s, p, keys, groups);
    } else {
      GroupedPushNew(s, p, keys, groups);
    }
  }

  /** Pushing a point whose key is not yet grouped adds the key last. */
  lemma GroupedPushNew(s: seq<TrackingPoint>, p: TrackingPoint,
                       keys: seq<(int, int)>, groups: map<(int, int), seq<TrackingPoint>>)
    requires Grouped(s, keys, groups) && KeyOf(p) !in groups
    requires forall k :: GroupOf(s + [p], k) == GroupOf(s, k) + (if KeyOf(p) == k then [p] else [])
    ensures Grouped(s + [p], keys + [KeyOf(p)], groups[KeyOf(p) := [p]])
  {
    var groups' := groups[KeyOf(p) := [p]];
    forall j | 0 <= j < |s| + 1
      ensures KeyOf((s + [p])[j]) in groups'
    {
      if j < |s| {
        assert (s + [p])[j] == s[j];
      }
    }
  }

  /** Pushing a point whose key is grouped appends it to that key's group. */
  lemma GroupedPushOld(s: seq<TrackingPoint>, p: TrackingPoint,
                       keys: seq<(int, int)>, groups: map<(int, int), seq<TrackingPoint>>)
    requires Grouped(s, keys, groups) && KeyOf(p) in groups
    requires forall k :: GroupOf(s + [p], k) == GroupOf(s, k) + (if KeyOf(p) == k then [p] else [])
    ensures Grouped(s + [p], keys, groups[KeyOf(p) := groups[KeyOf(p)] + [p]])
  {
    var groups' := groups[KeyOf(p) := groups[KeyOf(p)] + [p]];
    forall j | 0 <= j < |s| + 1
      ensures KeyOf((s + [p])[j]) in groups'
    {
      if j < |s| {
        assert (s + [p])[j] == s[j];
      }
    }
  }

  /** The `Map` built by the `forEach`: every key once, in order of first
      appearance, mapped to its points in their original order. */
  method GroupByKey(points: seq<TrackingPoint>)
    returns (keys: seq<(int, int)>, groups: map<(int, int), seq<TrackingPoint>>)
    ensures forall i, j :: 0 <= i < j < |keys| ==> keys[i] != keys[j]
    ensures forall k :: k in groups <==> k in keys
    ensures forall k :: k in groups ==> groups[k] == GroupOf(points, k)
    ensures forall i :: 0 <= i < |points| ==> KeyOf(points[i]) in groups
  {
    keys := [];
    groups := map[];
    for i := 0 to |points|
      invariant Grouped(points[..i], keys, groups)
    {
      var p := points[i];
      var key := KeyOf(p);
      ghost var keys0, groups0 := keys, groups;
      if key !in groups {
        keys := keys + [key];
        groups := groups[key := [p]];
      } else {
        groups := groups[key := groups[key] + [p]];
      }
      GroupedSnoc(points[..i], p, keys0, groups0, keys, groups);
      PrefixSnoc(points, i);
    }
    assert points[..|points|] == points;
  }

  /** The report a group of points yields: none for fewer than two points,
      else the seed's statistics of the group in time order. */
  function GroupReport(g: seq<TrackingPoint>, dist: Distance): (r: Option<DailyStats>)
    ensures r.Some? <==> |g| >= 2
    ensures r.Some? ==> r.value.firstMovement.Some? && r.value.lastMovement.Some?
    ensures r.Some? ==> r.value.firstMovement.value <= r.value.lastMovement.value
  {
    if |g| < 2 then None
    else
      var ps := SortBy(g, Timestamp);
      assert Sorted(ps, Timestamp);
      Some(SeedStats(ps, dist))
  }

  /** The report of each key, as the loop computes it. */
  type KeyReport = ((int, int)) -> Option<DailyStats>

  /** What the report phase has stored after handling keys[..j]: reports
      numbered from 1 in order, one per handled key that yields a report,
      holding that report. */
  ghost predicate SeedProgress(reports: seq<DailyReport>, report: KeyReport,
                               keys: seq<(int, int)>, j: int)
    requires 0 <= j <= |keys|
  {
    && ReportsValid(reports, |reports| + 1)
    && (forall i :: 0 <= i < |reports| ==> reports[i].id == i + 1)
    && (forall i :: 0 <= i < |reports| ==> (reports[i].vehicleId, reports[i].day) in keys[..j])
    && (forall i :: 0 <= i < |reports| ==>
          report((reports[i].vehicleId, reports[i].day)) == Some(reports[i].stats))
    && (forall a :: 0 <= a < j && report(keys[a]).Some? ==>
          exists i :: 0 <= i < |reports| && HasKey(reports[i], keys[a].0, keys[a].1))
  }

  /** One turn of the report loop keeps `SeedProgress`: a key without a
      report is skipped, any other is appended with the next id. */
  lemma {:induction false} SeedProgressStep(reports: seq<DailyReport>, report: KeyReport,
                                            keys: seq<(int, int)>, j: int)
    requires 0 <= j < |keys|
    requires forall a, b :: 0 <= a < b < |keys| ==> keys[a] != keys[b]
    requires SeedProgress(reports, report, keys, j)
    ensures report(keys[j]).None? ==> SeedProgress(reports, report, keys, j + 1)
    ensures report(keys[j]).Some? ==> SeedProgress(
      reports + [DailyReport(|reports| + 1, keys[j].0, keys[j].1, report(keys[j]).value)],
      report, keys, j + 1)
  {
    PrefixSnoc(keys, j);
    if report(keys[j]).Some? {
      var r := DailyReport(|reports| + 1, keys[j].0, keys[j].1, report(keys[j]).value);
      var reports' := reports + [r];
      assert reports'[|reports|] == r;
      forall i | 0 <= i < |reports|
        ensures (reports[i].vehicleId, reports[i].day) != keys[j]
      {
        var a :| 0 <= a < j && keys[a] == (reports[i].vehicleId, reports[i].day);
      }
      forall a | 0 <= a < j + 1 && report(keys[a]).Some?
        ensures exists i :: 0 <= i < |reports'| && HasKey(reports'[i], keys[a].0, keys[a].1)
      {
        if a < j {
          var i :| 0 <= i < |reports| && HasKey(reports[i], keys[a].0, keys[a].1);
          assert reports'[i] == reports[i];
        } else {
          assert HasKey(reports'[|reports|], keys[a].0, keys[a].1);
        }
      }
    }
  }

  /** The columns the seed computes for a group of at least two points:
      its points in time order, aggregated. */
  method GroupStats(group: seq<TrackingPoint>, dist: Distance) returns (stats: DailyStats)
    requires |group| >= 2
    ensures GroupReport(group, dist) == Some(stats)
  {
    var ps := SortBy(group, Timestamp);
    stats := AggregateSeed(ps, dist);
  }

  /** The report table after the group of `key` is handled: unchanged for
      fewer than two points, else with the group's report appended under
      the next id. */
  function AfterGroup(reports: seq<DailyReport>, key: (int, int), group: seq<TrackingPoint>,
                      dist: Distance): (r: seq<DailyReport>)
    ensures |group| < 2 ==> r == reports
    ensures |group| >= 2 ==>
      && |r| == |reports| + 1 && r[..|reports|] == reports
      && r[|reports|] == DailyReport(|reports| + 1, key.0, key.1, GroupReport(group, dist).value)
  {
    if |group| < 2 then reports
    else reports + [DailyReport(|reports| + 1, key.0, key.1, GroupReport(group, dist).value)]
  }

  /** `SeedProgressStep` for the group of keys[j]: skipped when it has
      fewer than two points, else stored with the seed's columns. */
  lemma GroupStep(reports: seq<DailyReport>, report: KeyReport, keys: seq<(int, int)>, j: int,
                  group: seq<TrackingPoint>, dist: Distance)
    requires 0 <= j < |keys|
    requires forall a, b :: 0 <= a < b < |keys| ==> keys[a] != keys[b]
    requires report(keys[j]) == GroupReport(group, dist)
    requires SeedProgress(reports, report, keys, j)
    ensures SeedProgress(AfterGroup(reports, keys[j], group, dist), report, keys, j + 1)
  {
    SeedProgressStep(reports, report, keys, j);
  }

  /** One turn of the loop over the groups: a group of fewer than two
      points is skipped, any other is aggregated and stored with the next
      id. */
  method StoreGroup(db: Database, key: (int, int), group: seq<TrackingPoint>, dist: Distance)
    requires db.nextReportId == |db.reports| + 1
    modifies db
    ensures db.reports == AfterGroup(old(db.reports), key, group, dist)
    ensures db.nextReportId == |db.reports| + 1
    ensures db.vehicles == old(db.vehicles) && db.points == old(db.points)
    ensures db.trips == old(db.trips) && db.drivers == old(db.drivers)
    ensures db.nextVehicleId == old(db.nextVehicleId) && db.nextTripId == old(db.nextTripId)
    ensures db.nextDriverId == old(db.nextDriverId)
  {
    if |group| < 2 {
      return;
    }
    var stats := GroupStats(group, dist);
    db.reports := db.reports + [DailyReport(db.nextReportId, key.0, key.1, stats)];
    db.nextReportId := db.nextReportId + 1;
  }

  /** The `for ... of` loop over the groups: each key with at least two
      points gets a report with the next id. `report` is what each key
      yields. */
  method StoreReports(db: Database, keys: seq<(int, int)>, groups: map<(int, int), seq<TrackingPoint>>,
                      dist: Distance, ghost report: KeyReport, ghost sorted: seq<TrackingPoint>,
                      ghost points: seq<TrackingPoint>)
    requires db.Valid() && db.reports == [] && db.nextReportId == 1
    requires forall a, b :: 0 <= a < b < |keys| ==> keys[a] != keys[b]
    requires forall k :: k in groups <==> k in keys
    requires forall k :: k in groups ==> report(k) == GroupReport(groups[k], dist)
    requires multiset(sorted) == multiset(points)
    requires forall i :: 0 <= i < |sorted| ==> KeyOf(sorted[i]) in groups
    requires forall k {:trigger SeedGroup(points, k)} :: report(k) == GroupReport(SeedGroup(points, k), dist)
    modifies db
    ensures db.Valid()
    ensures db.nextReportId == |db.reports| + 1
    ensures SeedStored(db.reports, points, dist)
    ensures db.vehicles == old(db.vehicles) && db.points == old(db.points)
    ensures db.trips == old(db.trips) && db.drivers == old(db.drivers)
    ensures db.nextVehicleId == old(db.nextVehicleId) && db.nextTripId == old(db.nextTripId)
    ensures db.nextDriverId == old(db.nextDriverId)
  {
    for j := 0 to |keys|
      invariant db.vehicles == old(db.vehicles) && db.points == old(db.points)
      invariant db.trips == old(db.trips) && db.drivers == old(db.drivers)
      invariant db.nextVehicleId == old(db.nextVehicleId) && db.nextTripId == old(db.nextTripId)
      invariant db.nextDriverId == old(db.nextDriverId)
      invariant db.nextReportId == |db.reports| + 1
      invariant SeedProgress(db.reports, report, keys, j)
      invariant db.Valid()
    {
      GroupStep(db.reports, report, keys, j, groups[keys[j]], dist);
      StoreGroup(db, keys[j], groups[keys[j]], dist);
    }
    StoredReports(db.reports, report, keys, groups, sorted, points, dist);
  }

  /** The report each key yields from `points`, as a value the loop can
      carry. */
  lemma ReportOf(points: seq<TrackingPoint>, dist: Distance) returns (report: KeyReport)
    ensures forall k {:trigger SeedGroup(points, k)} :: report(k) == GroupReport(SeedGroup(points, k), dist)
  {
    report := k => GroupReport(SeedGroup(points, k), dist);
  }

  /** The report table the seed leaves: reports numbered from 1, each
      holding the report of its (vehicle, day) group, and one for every
      point whose group has at least two points. */
  ghost predicate SeedStored(reports: seq<DailyReport>, points: seq<TrackingPoint>, dist: Distance)
  {
    && (forall i :: 0 <= i < |reports| ==> reports[i].id == i + 1)
    && (forall i :: 0 <= i < |reports| ==>
          GroupReport(SeedGroup(points, (reports[i].vehicleId, reports[i].day)), dist) == Some(reports[i].stats))
    && (forall p :: p in points && |SeedGroup(points, KeyOf(p))| >= 2 ==>
          exists i :: 0 <= i < |reports| && HasKey(reports[i], p.vehicleId, DayOf(p.timestamp)))
  }

  /** What the finished loop means in terms of the points: every stored
      report is its key's report, and every point whose key yields a
      report has one stored. */
  lemma StoredReports(reports: seq<DailyReport>, report: KeyReport, keys: seq<(int, int)>,
                      groups: map<(int, int), seq<TrackingPoint>>, sorted: seq<TrackingPoint>,
                      points: seq<TrackingPoint>, dist: Distance)
    requires SeedProgress(reports, report, keys, |keys|)
    requires multiset(sorted) == multiset(points)
    requires forall k :: k in groups <==> k in keys
    requires forall i :: 0 <= i < |sorted| ==> KeyOf(sorted[i]) in groups
    requires forall k {:trigger SeedGroup(points, k)} :: report(k) == GroupReport(SeedGroup(points, k), dist)
    ensures SeedStored(reports, points, dist)
  {
    forall p | p in points && |SeedGroup(points, KeyOf(p))| >= 2
      ensures exists i :: 0 <= i < |reports| && HasKey(reports[i], p.vehicleId, DayOf(p.timestamp))
    {
      assert p in multiset(sorted);
      var x :| 0 <= x < |sorted| && sorted[x] == p;
      assert KeyOf(p) in groups;
      var a :| 0 <= a < |keys| && keys[a] == KeyOf(p);
      assert report(keys[a]).Some?;
    }
  }

  /** The points fetched in ascending time order and grouped by key, with
      the report each key yields. */
  method GroupPoints(points: seq<TrackingPoint>, dist: Distance)
    returns (keys: seq<(int, int)>, groups: map<(int, int), seq<TrackingPoint>>,
             ghost sorted: seq<TrackingPoint>, ghost report: KeyReport)
    ensures forall a, b :: 0 <= a < b < |keys| ==> keys[a] != keys[b]
    ensures forall k :: k in groups <==> k in keys
    ensures forall k :: k in groups ==> report(k) == GroupReport(groups[k], dist)
    ensures multiset(sorted) == multiset(points)
    ensures forall i :: 0 <= i < |sorted| ==> KeyOf(sorted[i]) in groups
    ensures forall k {:trigger SeedGroup(points, k)} :: report(k) == GroupReport(SeedGroup(points, k), dist)
  {
    var ordered := SortBy(points, Timestamp);
    keys, groups := GroupByKey(ordered);
    sorted := ordered;
    report := ReportOf(points, dist);
    forall k | k in groups
      ensures report(k) == GroupReport(groups[k], dist)
    {
      assert groups[k] == SeedGroup(points, k);
    }
  }

  /** The report phase of the seed script: the report table is emptied and
      its id sequence restarted; every (vehicle, day) with at least two
      points gets one report computed by `AggregateSeed`, in order of the
      group's first point. */
  method SeedDailyReports(db: Database, dist: Distance)
    requires db.Valid()
    modifies db
    ensures db.Valid()
    ensures db.nextReportId == |db.reports| + 1
    ensures SeedStored(db.reports, db.points, dist)
    ensures db.vehicles == old(db.vehicles) && db.points == old(db.points)
    ensures db.trips == old(db.trips) && db.drivers == old(db.drivers)
    ensures db.nextVehicleId == old(db.nextVehicleId) && db.nextTripId == old(db.nextTripId)
    ensures db.nextDriverId == old(db.nextDriverId)
  {
    db.reports := [];
    db.nextReportId := 1;
    var keys, groups, sorted, report := GroupPoints(db.points, dist);
    StoreReports(db, keys, groups, dist, report, sorted, db.points);
  }
}
