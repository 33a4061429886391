/** `GET /api/tracking/summary`: the days on which a vehicle sent samples in
    a recent window, with each day's first and last sample time, the number of
    samples and how many of them had a non-zero speed, newest day first. */
module TrackingSummary {
  import opened Values
  import opened Lists
  import opened Time
  import opened Telemetry

  /** The query string, already read: `vehicleId` is `None` when missing or
      empty, and `days`/`limit` hold their `parseInt` values when given. */
  datatype SummaryQuery = SummaryQuery(vehicleId: Option<int>, days: Option<int>, limit: Option<nat>)

  /** The accumulator `byDate[key]` of one day. */
  datatype DayInfo = DayInfo(start: int, end: int, count: int, movingCount: int)

  /** One element of the `days` array of the response; `date` is the day
      whose ISO form `YYYY-MM-DD` the handler uses as the key. */
  datatype DayEntry = DayEntry(date: int, start: int, end: int, count: int, movingCount: int)

  datatype SummaryResponse = BadRequest | Days(days: seq<DayEntry>)

  const DEFAULT_DAYS: int := 14
  const DEFAULT_LIMIT: nat := 5000

  // ---------------------------------------------------------------------
  // The window and the fetched points

  /** `since`: local midnight of today moved back `days - 1` days. */
  function Since(q: SummaryQuery, today: int): (t: int)
    ensures q.days.None? ==> t == DayStart(today - 13)
    ensures q.days.Some? ==> t == DayStart(today - (q.days.value - 1))
  {
    var days := if q.days.Some? then q.days.value else DEFAULT_DAYS;
    DayStart(today - (days - 1))
  }

  function MaxPoints(q: SummaryQuery): nat
  {
    if q.limit.Some? then q.limit.value else DEFAULT_LIMIT
  }

  /** The `findMany`: the vehicle's samples from `since` on, oldest first,
      at most `maxPoints` of them. */
  function Fetched(points: seq<TrackingPoint>, vid: int, since: int, maxPoints: nat): (r: seq<TrackingPoint>)
    ensures var matching := |Filter(points, Window(vid, since))|;
      |r| == if maxPoints < matching then maxPoints else matching
    ensures multiset(r) <= multiset(Filter(points, Window(vid, since)))
    ensures forall i :: 0 <= i < |r| ==> r[i].vehicleId == vid && r[i].timestamp >= since
    ensures forall i :: 0 <= i < |r| ==> r[i] in points
    ensures Sorted(r, Timestamp)
  {
    SelectTake(points, Window(vid, since), Timestamp, maxPoints);
    TakeOfSelect(points, Window(vid, since), Timestamp, maxPoints);
    Take(Select(points, Window(vid, since), Timestamp), maxPoints)
  }

  /** The `where` of the fetch: the vehicle's samples from `since` on. */
  function Window(vid: int, since: int): TrackingPoint -> bool
  {
    (p: TrackingPoint) => p.vehicleId == vid && p.timestamp >= since
  }

  /** The limit keeps the oldest samples: a sample of the window that is
      left out is no older than any returned one. */
  lemma FetchedOldest(points: seq<TrackingPoint>, vid: int, since: int, maxPoints: nat, p: TrackingPoint)
    requires p in points && p.vehicleId == vid && p.timestamp >= since
    requires p !in Fetched(points, vid, since, maxPoints)
    ensures forall i :: 0 <= i < |Fetched(points, vid, since, maxPoints)| ==>
      Fetched(points, vid, since, maxPoints)[i].timestamp <= p.timestamp
  {
    var ordered := Select(points, Window(vid, since), Timestamp);
    assert Fetched(points, vid, since, maxPoints) == Take(ordered, maxPoints);
    SelectExact(points, Window(vid, since), Timestamp);
    TakeLeavesLater(ordered, maxPoints, Timestamp, p);
  }

  // ---------------------------------------------------------------------
  // What the summary of one day is

  /** The samples of `ps` that fall on day `d`, in order. */
  function OnDay(ps: seq<TrackingPoint>, d: int): (g: seq<TrackingPoint>)
    ensures |g| <= |ps|
  {
    if |ps| == 0 then []
    else
      var n := |ps| - 1;
      OnDay(ps[..n], d) + if DayOf(ps[n].timestamp) == d then [ps[n]] else []
  }

  /** The number of samples with a non-zero speed (`p.speed > 0`). */
  function MovingIn(g: seq<TrackingPoint>): (c: nat)
    ensures c <= |g|
  {
    if |g| == 0 then 0
    else MovingIn(g[..|g| - 1]) + if g[|g| - 1].speed > 0.0 then 1 else 0
  }

  /** The earliest sample time of a non-empty group. */
  function MinTime(g: seq<TrackingPoint>): (t: int)
    requires |g| > 0
    ensures forall i :: 0 <= i < |g| ==> t <= g[i].timestamp
    ensures exists i :: 0 <= i < |g| && t == g[i].timestamp
  {
    var n := |g| - 1;
    if n == 0 then g[0].timestamp
    else
      var t := MinTime(g[..n]);
      assert forall i :: 0 <= i < n ==> g[..n][i] == g[i];
      if g[n].timestamp < t then g[n].timestamp else t
  }

  /** The latest sample time of a non-empty group. */
  function MaxTime(g: seq<TrackingPoint>): (t: int)
    requires |g| > 0
    ensures forall i :: 0 <= i < |g| ==> g[i].timestamp <= t
    ensures exists i :: 0 <= i < |g| && t == g[i].timestamp
  {
    var n := |g| - 1;
    if n == 0 then g[0].timestamp
    else
      var t := MaxTime(g[..n]);
      assert forall i :: 0 <= i < n ==> g[..n][i] == g[i];
      if g[n].timestamp > t then g[n].timestamp else t
  }

  /** What `byDate[key]` holds once every sample of the day was seen. */
  function InfoOf(g: seq<TrackingPoint>): DayInfo
    requires |g| > 0
  {
    DayInfo(MinTime(g), MaxTime(g), |g|, MovingIn(g))
  }

  /** A day's entry: its first and last sample are its earliest and latest,
      `count` is the number of its samples and `movingCount <= count`. */
  lemma EntryBounds(ps: seq<TrackingPoint>, d: int)
    requires |OnDay(ps, d)| > 0
    ensures var e := InfoOf(OnDay(ps, d));
      && e.start <= e.end
      && 0 <= e.movingCount <= e.count
      && (forall i :: 0 <= i < |ps| && DayOf(ps[i].timestamp) == d ==>
            e.start <= ps[i].timestamp <= e.end)
  {
    var g := OnDay(ps, d);
    forall i | 0 <= i < |ps| && DayOf(ps[i].timestamp) == d
      ensures MinTime(g) <= ps[i].timestamp <= MaxTime(g)
    {
      OnDayMember(ps, d, i);
    }
  }

  /** Every sample of day `d` is in the day's group. */
  lemma {:induction false} OnDayMember(ps: seq<TrackingPoint>, d: int, i: nat)
    requires i < |ps| && DayOf(ps[i].timestamp) == d
    ensures exists j :: 0 <= j < |OnDay(ps, d)| && OnDay(ps, d)[j] == ps[i]
  {
    var n := |ps| - 1;
    if i < n {
      OnDayMember(ps[..n], d, i);
      var j :| 0 <= j < |OnDay(ps[..n], d)| && OnDay(ps[..n], d)[j] == ps[..n][i];
      assert OnDay(ps, d)[j] == ps[i];
    } else {
      assert OnDay(ps, d)[|OnDay(ps, d)| - 1] == ps[i];
    }
  }

  /** Scanning one more sample extends exactly its own day's group. */
  lemma OnDaySnoc(ps: seq<TrackingPoint>, i: nat, d: int)
    requires i < |ps|
    ensures OnDay(ps[..i + 1], d) ==
      OnDay(ps[..i], d) + if DayOf(ps[i].timestamp) == d then [ps[i]] else []
  {
    assert ps[..i + 1][..i] == ps[..i];
  }

  // ---------------------------------------------------------------------
  // The `forEach` over the fetched samples

  predicate Distinct(keys: seq<int>)
  {
    forall i, j :: 0 <= i < j < |keys| ==> keys[i] != keys[j]
  }

  /** What the `forEach` has built after taking in the samples `ps`: one
      accumulator per day met, each equal to the summary of that day's
      samples, and `keys` listing those days once each. */
  ghost predicate Summarized(ps: seq<TrackingPoint>, keys: seq<int>, byDate: map<int, DayInfo>)
  {
    KeysListed(keys, byDate) && InfosMatch(ps, byDate) && DaysCovered(ps, byDate)
  }

  /** `keys` lists the days of `byDate` once each. */
  ghost predicate KeysListed(keys: seq<int>, byDate: map<int, DayInfo>)
  {
    Distinct(keys) && forall d :: d in byDate <==> d in keys
  }

  /** Each accumulator summarizes its day's samples, and days without an
      accumulator have no samples. */
  ghost predicate InfosMatch(ps: seq<TrackingPoint>, byDate: map<int, DayInfo>)
  {
    && (forall d :: d in byDate ==> |OnDay(ps, d)| > 0 && byDate[d] == InfoOf(OnDay(ps, d)))
    && (forall d :: d !in byDate ==> OnDay(ps, d) == [])
  }

  /** Every sample's day has an accumulator. */
  ghost predicate DaysCovered(ps: seq<TrackingPoint>, byDate: map<int, DayInfo>)
  {
    forall j :: 0 <= j < |ps| ==> DayOf(ps[j].timestamp) in byDate
  }

  /** `points.forEach`: one accumulator per day, created with `count: 0` on
      the day's first sample and then updated by every sample of that day.
      `keys` lists the days in the order they were first met (the insertion
      order `Object.entries` returns). */
  method SummarizeDays(points: seq<TrackingPoint>) returns (keys: seq<int>, byDate: map<int, DayInfo>)
    ensures Distinct(keys)
    ensures forall d :: d in byDate <==> d in keys
    ensures forall d :: d in byDate ==> |OnDay(points, d)| > 0 && byDate[d] == InfoOf(OnDay(points, d))
    ensures forall i :: 0 <= i < |points| ==> DayOf(points[i].timestamp) in byDate
  {
    keys := [];
    byDate := map[];
    for i := 0 to |points|
      invariant Summarized(points[..i], keys, byDate)
    {
      var p := points[i];
      var key := DayOf(p.timestamp);
      var info := if key in byDate then byDate[key] else DayInfo(p.timestamp, p.timestamp, 0, 0);
      ghost var before := info;
      ghost var keys0 := keys;
      if key !in byDate {
        keys := keys + [key];
      }
      info := info.(count := info.count + 1);
      if p.speed > 0.0 {
        info := info.(movingCount := info.movingCount + 1);
      }
      if p.timestamp < info.start {
        info := info.(start := p.timestamp);
      }
      if p.timestamp > info.end {
        info := info.(end := p.timestamp);
      }
      ghost var g := OnDay(points[..i], key);
      InfoUpdate(g, p, before, info);
      SummarizedStep(points[..i], p, keys0, byDate, info);
      PrefixSnoc(points, i);
      byDate := byDate[key := info];
    }
    assert points[..|points|] == points;
  }

  /** One step of the `forEach` on a day's accumulator `before` (the fresh
      `{start: d, end: d, count: 0, movingCount: 0}` when the day is new):
      the first or last time moves out to the sample when it lies beyond
      them, and the counts grow by one. The result summarizes the day's
      samples so far plus the new one. */
  lemma InfoUpdate(g: seq<TrackingPoint>, p: TrackingPoint, before: DayInfo, after: DayInfo)
    requires g == [] ==> before == DayInfo(p.timestamp, p.timestamp, 0, 0)
    requires g != [] ==> before == InfoOf(g)
    requires after.count == before.count + 1
    requires after.movingCount == before.movingCount + if p.speed > 0.0 then 1 else 0
    requires after.start == if p.timestamp < before.start then p.timestamp else before.start
    requires after.end == if p.timestamp > before.end then p.timestamp else before.end
    ensures after == InfoOf(g + [p])
  {
    var g' := g + [p];
    assert g'[..|g|] == g;
    if g == [] {
      assert g' == [p];
    }
  }

  /** Taking in one more sample keeps `Summarized`. */
  lemma {:induction false} SummarizedStep(ps: seq<TrackingPoint>, p: TrackingPoint, keys: seq<int>,
                                          byDate: map<int, DayInfo>, info: DayInfo)
    requires Summarized(ps, keys, byDate)
    requires info == InfoOf(OnDay(ps, DayOf(p.timestamp)) + [p])
    ensures var key := DayOf(p.timestamp);
      Summarized(ps + [p], if key in byDate then keys else keys + [key], byDate[key := info])
  {
    var key := DayOf(p.timestamp);
    StepKeys(keys, byDate, key, info);
    StepInfo(ps, p, byDate, info);
    StepCovers(ps, p, byDate, info);
  }

  lemma StepKeys(keys: seq<int>, byDate: map<int, DayInfo>, key: int, info: DayInfo)
    requires KeysListed(keys, byDate)
    ensures KeysListed(if key in byDate then keys else keys + [key], byDate[key := info])
  {
    var keys' := if key in byDate then keys else keys + [key];
    forall d
      ensures d in byDate[key := info] <==> d in keys'
    {
      assert d in keys' <==> d in keys || d == key;
    }
    if key !in byDate {
      assert key !in keys;
    }
  }

  lemma {:induction false} OnDayAppend(ps: seq<TrackingPoint>, p: TrackingPoint, d: int)
    ensures d == DayOf(p.timestamp) ==> OnDay(ps + [p], d) == OnDay(ps, d) + [p]
    ensures d != DayOf(p.timestamp) ==> OnDay(ps + [p], d) == OnDay(ps, d)
  {
    assert (ps + [p])[..|ps|] == ps;
    assert OnDay(ps, d) + [] == OnDay(ps, d);
  }

  lemma StepInfo(ps: seq<TrackingPoint>, p: TrackingPoint, byDate: map<int, DayInfo>, info: DayInfo)
    requires InfosMatch(ps, byDate)
    requires info == InfoOf(OnDay(ps, DayOf(p.timestamp)) + [p])
    ensures InfosMatch(ps + [p], byDate[DayOf(p.timestamp) := info])
  {
    var byDate' := byDate[DayOf(p.timestamp) := info];
    forall d
      ensures d in byDate' ==> |OnDay(ps + [p], d)| > 0 && byDate'[d] == InfoOf(OnDay(ps + [p], d))
      ensures d !in byDate' ==> OnDay(ps + [p], d) == []
    {
      StepInfoAt(ps, p, byDate, info, d);
    }
  }

  /** `StepInfo` for one day `d`. */
  lemma StepInfoAt(ps: seq<TrackingPoint>, p: TrackingPoint, byDate: map<int, DayInfo>, info: DayInfo, d: int)
    requires d in byDate ==> |OnDay(ps, d)| > 0 && byDate[d] == InfoOf(OnDay(ps, d))
    requires d !in byDate ==> OnDay(ps, d) == []
    requires info == InfoOf(OnDay(ps, DayOf(p.timestamp)) + [p])
    ensures var byDate' := byDate[DayOf(p.timestamp) := info];
      && (d in byDate' ==> |OnDay(ps + [p], d)| > 0 && byDate'[d] == InfoOf(OnDay(ps + [p], d)))
      && (d !in byDate' ==> OnDay(ps + [p], d) == [])
  {
    OnDayAppend(ps, p, d);
  }

  lemma StepCovers(ps: seq<TrackingPoint>, p: TrackingPoint, byDate: map<int, DayInfo>, info: DayInfo)
    requires DaysCovered(ps, byDate)
    ensures DaysCovered(ps + [p], byDate[DayOf(p.timestamp) := info])
  {
    forall j | 0 <= j < |ps + [p]|
      ensures DayOf((ps + [p])[j].timestamp) in byDate[DayOf(p.timestamp) := info]
    {
      if j < |ps| {
        assert (ps + [p])[j] == ps[j];
      }
    }
  }

  // ---------------------------------------------------------------------
  // The `map` and `sort`

  function Entry(d: int, info: DayInfo): DayEntry
  {
    DayEntry(d, info.start, info.end, info.count, info.movingCount)
  }

  /** `Object.entries(byDate).map(...)`. */
  function Entries(keys: seq<int>, byDate: map<int, DayInfo>): (r: seq<DayEntry>)
    requires forall k :: k in keys ==> k in byDate
    ensures |r| == |keys|
    ensures forall i :: 0 <= i < |r| ==> r[i] == Entry(keys[i], byDate[keys[i]])
  {
    if |keys| == 0 then []
    else
      var n := |keys| - 1;
      Entries(keys[..n], byDate) + [Entry(keys[n], byDate[keys[n]])]
  }

  function Count(e: DayEntry): int
  {
    e.count
  }

  function NewestFirst(e: DayEntry): int
  {
    -e.date
  }

  /** The number of samples the days of `keys` hold between them. */
  function CountSum(ps: seq<TrackingPoint>, keys: seq<int>): nat
  {
    if |keys| == 0 then 0
    else CountSum(ps, keys[..|keys| - 1]) + |OnDay(ps, keys[|keys| - 1])|
  }

  /** One more sample adds one to the count of its day, if that day is
      among the (distinct) keys, and nothing otherwise. */
  lemma {:induction false} CountSumSnoc(ps: seq<TrackingPoint>, x: TrackingPoint, keys: seq<int>)
    requires Distinct(keys)
    ensures CountSum(ps + [x], keys) ==
      CountSum(ps, keys) + if DayOf(x.timestamp) in keys then 1 else 0
  {
    if |keys| > 0 {
      var n := |keys| - 1;
      assert (ps + [x])[..|ps|] == ps;
      CountSumSnoc(ps, x, keys[..n]);
      assert DayOf(x.timestamp) in keys <==> DayOf(x.timestamp) in keys[..n] || DayOf(x.timestamp) == keys[n];
    }
  }

  /** Distinct keys covering every sample's day split the samples between
      them: their counts add up to the number of samples. */
  lemma {:induction false} CountsAddUp(ps: seq<TrackingPoint>, keys: seq<int>)
    requires Distinct(keys)
    requires forall i :: 0 <= i < |ps| ==> DayOf(ps[i].timestamp) in keys
    ensures CountSum(ps, keys) == |ps|
  {
    if |ps| == 0 {
      CountSumEmpty(keys);
    } else {
      var n := |ps| - 1;
      CountsAddUp(ps[..n], keys);
      assert ps == ps[..n] + [ps[n]];
      CountSumSnoc(ps[..n], ps[n], keys);
    }
  }

  lemma {:induction false} CountSumEmpty(keys: seq<int>)
    ensures CountSum([], keys) == 0
  {
    if |keys| > 0 {
      CountSumEmpty(keys[..|keys| - 1]);
    }
  }

  lemma {:induction false} EntriesCount(ps: seq<TrackingPoint>, keys: seq<int>, byDate: map<int, DayInfo>)
    requires forall k :: k in keys ==> k in byDate && |OnDay(ps, k)| > 0 && byDate[k] == InfoOf(OnDay(ps, k))
    ensures SumIntBy(Entries(keys, byDate), Count) == CountSum(ps, keys)
  {
    if |keys| > 0 {
      var n := |keys| - 1;
      EntriesCount(ps, keys[..n], byDate);
      assert Entries(keys, byDate)[..n] == Entries(keys[..n], byDate);
    }
  }

  /** `GET`: 400 without a vehicle id; otherwise one entry per day that has
      fetched samples, newest day first, each entry holding the day's
      earliest and latest sample time, its sample count and its count of
      samples with a non-zero speed, the counts adding up to the number of
      fetched samples. */
  method Summary(db: Database, q: SummaryQuery, today: int) returns (r: SummaryResponse)
    ensures q.vehicleId.None? <==> r == BadRequest
    ensures r.Days? ==>
      var ps := Fetched(db.points, q.vehicleId.value, Since(q, today), MaxPoints(q));
      && (forall i, j :: 0 <= i < j < |r.days| ==> r.days[i].date > r.days[j].date)
      && (forall i :: 0 <= i < |r.days| ==>
            |OnDay(ps, r.days[i].date)| > 0
            && r.days[i] == Entry(r.days[i].date, InfoOf(OnDay(ps, r.days[i].date))))
      && (forall i :: 0 <= i < |ps| ==> Listed(r.days, DayOf(ps[i].timestamp)))
      && SumIntBy(r.days, Count) == |ps|
  {
    if q.vehicleId.None? {
      return BadRequest;
    }
    var ps := Fetched(db.points, q.vehicleId.value, Since(q, today), MaxPoints(q));
    var keys, byDate := SummarizeDays(ps);
    var entries := Entries(keys, byDate);
    var days := SortBy(entries, NewestFirst);
    SortedEntries(ps, keys, byDate, entries, days);
    r := Days(days);
  }

  /** Reordering keeps distinct dates distinct. */
  lemma PermutedDates(entries: seq<DayEntry>, days: seq<DayEntry>)
    requires multiset(entries) == multiset(days)
    requires forall i, j :: 0 <= i < j < |entries| ==> entries[i].date != entries[j].date
    ensures forall i, j :: 0 <= i < j < |days| ==> days[i].date != days[j].date
  {
    PermutationNoRepeats(entries, days);
    forall i, j | 0 <= i < j < |days|
      ensures days[i].date != days[j].date
    {
      assert days[i] in multiset(entries) && days[j] in multiset(entries);
      var a :| 0 <= a < |entries| && days[i] == entries[a];
      var b :| 0 <= b < |entries| && days[j] == entries[b];
    }
  }

  /** The facts `Summary` promises, about the entries before and after the
      sort. */
  lemma SortedEntries(ps: seq<TrackingPoint>, keys: seq<int>, byDate: map<int, DayInfo>,
                      entries: seq<DayEntry>, days: seq<DayEntry>)
    requires Distinct(keys)
    requires forall d :: d in byDate <==> d in keys
    requires forall d :: d in byDate ==> |OnDay(ps, d)| > 0 && byDate[d] == InfoOf(OnDay(ps, d))
    requires forall i :: 0 <= i < |ps| ==> DayOf(ps[i].timestamp) in byDate
    requires entries == Entries(keys, byDate)
    requires days == SortBy(entries, NewestFirst)
    ensures forall i, j :: 0 <= i < j < |days| ==> days[i].date > days[j].date
    ensures forall i :: 0 <= i < |days| ==>
      |OnDay(ps, days[i].date)| > 0 && days[i] == Entry(days[i].date, InfoOf(OnDay(ps, days[i].date)))
    ensures forall i :: 0 <= i < |ps| ==> Listed(days, DayOf(ps[i].timestamp))
    ensures SumIntBy(days, Count) == |ps|
  {
    NewestFirstStrict(entries, days);
    SortedEntryValues(ps, keys, byDate, entries, days);
    SortedCover(ps, keys, byDate, entries, days);
    SortedCounts(ps, keys, byDate, entries, days);
  }

  /** Sorting entries with distinct dates newest first orders them strictly
      by date, descending. */
  lemma NewestFirstStrict(entries: seq<DayEntry>, days: seq<DayEntry>)
    requires forall i, j :: 0 <= i < j < |entries| ==> entries[i].date != entries[j].date
    requires days == SortBy(entries, NewestFirst)
    ensures forall i, j :: 0 <= i < j < |days| ==> days[i].date > days[j].date
  {
    PermutedDates(entries, days);
    forall i, j | 0 <= i < j < |days|
      ensures days[i].date > days[j].date
    {
      assert NewestFirst(days[i]) <= NewestFirst(days[j]);
    }
  }

  lemma SortedEntryValues(ps: seq<TrackingPoint>, keys: seq<int>, byDate: map<int, DayInfo>,
                          entries: seq<DayEntry>, days: seq<DayEntry>)
    requires forall d :: d in keys ==> d in byDate && |OnDay(ps, d)| > 0 && byDate[d] == InfoOf(OnDay(ps, d))
    requires entries == Entries(keys, byDate)
    requires multiset(days) == multiset(entries)
    ensures forall i :: 0 <= i < |days| ==>
      |OnDay(ps, days[i].date)| > 0 && days[i] == Entry(days[i].date, InfoOf(OnDay(ps, days[i].date)))
  {
    forall i | 0 <= i < |days|
      ensures |OnDay(ps, days[i].date)| > 0 && days[i] == Entry(days[i].date, InfoOf(OnDay(ps, days[i].date)))
    {
      assert days[i] in multiset(entries);
    }
  }

  /** Some entry is for day `d`. */
  predicate Listed(days: seq<DayEntry>, d: int)
  {
    exists j :: 0 <= j < |days| && days[j].date == d
  }

  lemma SortedCover(ps: seq<TrackingPoint>, keys: seq<int>, byDate: map<int, DayInfo>,
                    entries: seq<DayEntry>, days: seq<DayEntry>)
    requires forall d :: d in keys ==> d in byDate
    requires forall i :: 0 <= i < |ps| ==> DayOf(ps[i].timestamp) in keys
    requires entries == Entries(keys, byDate)
    requires multiset(days) == multiset(entries)
    ensures forall i :: 0 <= i < |ps| ==> Listed(days, DayOf(ps[i].timestamp))
  {
    forall i | 0 <= i < |ps|
      ensures Listed(days, DayOf(ps[i].timestamp))
    {
      var d := DayOf(ps[i].timestamp);
      assert d in keys;
      var k :| 0 <= k < |keys| && keys[k] == d;
      assert entries[k].date == d;
      assert entries[k] in multiset(days);
      var j :| 0 <= j < |days| && days[j] == entries[k];
      assert days[j].date == d;
    }
  }

  /** The counts add up to the number of samples, before and after the sort. */
  lemma SortedCounts(ps: seq<TrackingPoint>, keys: seq<int>, byDate: map<int, DayInfo>,
                     entries: seq<DayEntry>, days: seq<DayEntry>)
    requires Distinct(keys)
    requires forall d :: d in byDate ==> d in keys
    requires forall d :: d in keys ==> d in byDate && |OnDay(ps, d)| > 0 && byDate[d] == InfoOf(OnDay(ps, d))
    requires forall i :: 0 <= i < |ps| ==> DayOf(ps[i].timestamp) in keys
    requires entries == Entries(keys, byDate)
    requires multiset(days) == multiset(entries)
    ensures SumIntBy(days, Count) == |ps|
  {
    CountsAddUp(ps, keys);
    EntriesCount(ps, keys, byDate);
    var realCount := (e: DayEntry) => e.count as real;
    SumIntByAsReal(entries, Count, realCount);
    SumIntByAsReal(days, Count, realCount);
    SumByPermutation(entries, days, realCount);
  }
}
