/** `GET /api/reports/trips`: the trips the query selects (the same filter
    and order as `GET /api/trips`) and their totals. */
module TripReports {
  import opened Values
  import opened Lists
  import opened Telemetry
  import opened Trips

  /** The `stats` object of the response. */
  datatype TripStats = TripStats(totalDistance: real, totalTrips: int, avgSpeed: real, totalStops: int)

  function Distance(t: Trip): real
  {
    t.distance
  }

  function AvgSpeedOf(t: Trip): real
  {
    t.avgSpeed
  }

  function Stops(t: Trip): int
  {
    t.stops
  }

  /** The `reduce`s over the listed trips: sums of distance and stops, the
      number of trips and the mean of the trips' average speeds (0 without
      trips). */
  function StatsOf(trips: seq<Trip>): (s: TripStats)
    ensures s.totalTrips == |trips|
    ensures |trips| == 0 ==> s == TripStats(0.0, 0, 0.0, 0)
  {
    TripStats(
      if |trips| > 0 then SumBy(trips, Distance) else 0.0,
      |trips|,
      if |trips| > 0 then SumBy(trips, AvgSpeedOf) / |trips| as real else 0.0,
      SumIntBy(trips, Stops))
  }

  datatype TripReport = TripReport(trips: seq<Trip>, stats: TripStats)

  function TripReportOf(trips: seq<Trip>, q: TripQuery): TripReport
  {
    var listed := ListTrips(trips, q);
    TripReport(listed, StatsOf(listed))
  }

  /** The totals do not depend on the listing order: they are the totals of
      the matching trips in table order. */
  lemma StatsIgnoreOrder(trips: seq<Trip>, q: TripQuery)
    ensures TripReportOf(trips, q).stats == StatsOf(Filter(trips, t => TripMatches(q, t)))
  {
    var matching := Filter(trips, t => TripMatches(q, t));
    var listed := ListTrips(trips, q);
    SumByPermutation(listed, matching, Distance);
    SumByPermutation(listed, matching, AvgSpeedOf);
    var stopsReal := (t: Trip) => t.stops as real;
    SumIntByAsReal(listed, Stops, stopsReal);
    SumIntByAsReal(matching, Stops, stopsReal);
    SumByPermutation(listed, matching, stopsReal);
  }

  /** The average speed lies between the smallest and the largest of the
      listed trips' average speeds, and the total distance between their
      count times the smallest and times the largest distance. */
  lemma StatsBounds(trips: seq<Trip>, lo: real, hi: real, dlo: real, dhi: real)
    requires |trips| > 0
    requires forall i :: 0 <= i < |trips| ==> lo <= trips[i].avgSpeed <= hi
    requires forall i :: 0 <= i < |trips| ==> dlo <= trips[i].distance <= dhi
    ensures lo <= StatsOf(trips).avgSpeed <= hi
    ensures dlo * |trips| as real <= StatsOf(trips).totalDistance <= dhi * |trips| as real
  {
    MeanByBounds(trips, AvgSpeedOf, lo, hi);
    SumByBounds(trips, Distance, dlo, dhi);
  }

  /** Adding a trip to a listing adds its distance and stops to the totals. */
  lemma {:induction false} StatsSnoc(trips: seq<Trip>, t: Trip)
    ensures StatsOf(trips + [t]).totalDistance == StatsOf(trips).totalDistance + t.distance
    ensures StatsOf(trips + [t]).totalStops == StatsOf(trips).totalStops + t.stops
    ensures StatsOf(trips + [t]).totalTrips == StatsOf(trips).totalTrips + 1
  {
    assert (trips + [t])[..|trips|] == trips;
  }
}
