/** `GET /api/tracking`: the stored samples, optionally restricted to one
    vehicle and to an inclusive time range, newest first, at most `limit` of
    them. */
module TrackingQuery {
  import opened Values
  import opened Lists
  import opened Telemetry

  /** The query string, already read. `startDate`/`endDate` hold the instants
      `new Date(...)` gives, and `limit` the `parseInt` value when given. */
  datatype PointQuery = PointQuery(
    vehicleId: Option<int>,
    startDate: Option<int>,
    endDate: Option<int>,
    limit: Option<nat>)

  const DEFAULT_LIMIT: nat := 100

  function Limit(q: PointQuery): (n: nat)
    ensures q.limit.None? ==> n == 100
    ensures q.limit.Some? ==> n == q.limit.value
  {
    if q.limit.Some? then q.limit.value else DEFAULT_LIMIT
  }

  /** The `whereClause`: the vehicle only when given, the time range only
      when both of its ends are given. */
  predicate Matches(q: PointQuery, p: TrackingPoint)
  {
    && (q.vehicleId.Some? ==> p.vehicleId == q.vehicleId.value)
    && (q.startDate.Some? && q.endDate.Some? ==>
          q.startDate.value <= p.timestamp <= q.endDate.value)
  }

  /** The `whereClause` as a filter. */
  function Matching(q: PointQuery): TrackingPoint -> bool
  {
    p => Matches(q, p)
  }

  function NewestFirst(p: TrackingPoint): int
  {
    -p.timestamp
  }

  /** The `findMany`: the matching samples, newest first, cut to `limit`. */
  function ListPoints(points: seq<TrackingPoint>, q: PointQuery): (r: seq<TrackingPoint>)
    ensures var matching := |Filter(points, Matching(q))|;
      |r| == if Limit(q) < matching then Limit(q) else matching
    ensures multiset(r) <= multiset(Filter(points, Matching(q)))
    ensures forall i :: 0 <= i < |r| ==> r[i] in points && Matches(q, r[i])
    ensures forall i, j :: 0 <= i < j < |r| ==> r[i].timestamp >= r[j].timestamp
  {
    var r := Take(Select(points, Matching(q), NewestFirst), Limit(q));
    SelectTake(points, Matching(q), NewestFirst, Limit(q));
    TakeOfSelect(points, Matching(q), NewestFirst, Limit(q));
    NewestOrder(r);
    r
  }

  lemma NewestOrder(r: seq<TrackingPoint>)
    requires Sorted(r, NewestFirst)
    ensures forall i, j :: 0 <= i < j < |r| ==> r[i].timestamp >= r[j].timestamp
  {
    forall i, j | 0 <= i < j < |r|
      ensures r[i].timestamp >= r[j].timestamp
    {
      assert NewestFirst(r[i]) <= NewestFirst(r[j]);
    }
  }

  /** Below the limit nothing matching is dropped: a stored sample is
      returned exactly when it matches. */
  lemma ListAllBelowLimit(points: seq<TrackingPoint>, q: PointQuery)
    requires |Filter(points, Matching(q))| <= Limit(q)
    ensures forall p :: p in ListPoints(points, q) <==> p in points && Matches(q, p)
  {
    var ordered := Select(points, Matching(q), NewestFirst);
    assert ListPoints(points, q) == ordered;
    SelectExact(points, Matching(q), NewestFirst);
  }

  /** The limit keeps the newest samples: a matching sample that is left out
      is no newer than any returned one. */
  lemma ListNewest(points: seq<TrackingPoint>, q: PointQuery, p: TrackingPoint)
    requires p in points && Matches(q, p)
    requires p !in ListPoints(points, q)
    ensures forall i :: 0 <= i < |ListPoints(points, q)| ==> ListPoints(points, q)[i].timestamp >= p.timestamp
  {
    var ordered := Select(points, Matching(q), NewestFirst);
    assert ListPoints(points, q) == Take(ordered, Limit(q));
    SelectExact(points, Matching(q), NewestFirst);
    TakeLeavesLater(ordered, Limit(q), NewestFirst, p);
  }

  /** Without filters and below the limit, every stored sample is listed. */
  lemma ListUnfiltered(points: seq<TrackingPoint>, n: nat)
    requires |points| <= n
    ensures multiset(ListPoints(points, PointQuery(None, None, None, Some(n)))) == multiset(points)
  {
    var q := PointQuery(None, None, None, Some(n));
    FilterAll(points, Matching(q));
  }
}
