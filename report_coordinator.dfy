/** `GET /api/reports`: the stored reports matching the query, completed by a
    day-by-day backfill that generates a report only for (vehicle, day) pairs
    the answer does not hold yet, then narrowed by a time-of-day window and
    summarised. */
module ReportCoordinator {
  import opened Values
  import opened Lists
  import opened Time
  import opened Text
  import opened Telemetry
  import opened DailyReports

  /** The query parameters. `vehicleId` is `None` when absent, empty or
      `'all'`; a date parameter is the instant `new Date(...)` reads from it;
      an absent time parameter is `""`. */
  datatype ReportQuery = ReportQuery(
    vehicleId: Option<int>,
    startDate: Option<int>,
    endDate: Option<int>,
    startTime: string,
    endTime: string)

  /** The stored-report filter (`whereClause`). */
  predicate Matches(r: DailyReport, q: ReportQuery)
  {
    && (q.vehicleId.None? || r.vehicleId == q.vehicleId.value)
    && (q.startDate.None? || DayStart(r.day) >= q.startDate.value)
    && (q.endDate.None? || DayStart(r.day) <= q.endDate.value)
  }

  /** `Matches` as the filter of a query. */
  function Matching(q: ReportQuery): DailyReport -> bool
  {
    r => Matches(r, q)
  }

  function NewestFirst(r: DailyReport): int
  {
    -r.day
  }

  /** The stored reports matching `q`, each as often as it is stored,
      newest day first. */
  function Fetched(reports: seq<DailyReport>, q: ReportQuery): (rs: seq<DailyReport>)
    ensures Sorted(rs, NewestFirst)
    ensures forall i :: 0 <= i < |rs| ==> rs[i] in reports && Matches(rs[i], q)
    ensures forall i :: 0 <= i < |reports| && Matches(reports[i], q) ==> reports[i] in rs
    ensures forall x :: multiset(rs)[x] == if Matches(x, q) then multiset(reports)[x] else 0
  {
    var rs := Select(reports, Matching(q), NewestFirst);
    SelectExact(reports, Matching(q), NewestFirst);
    FilterCount(reports, Matching(q));
    rs
  }

  /** The first backfilled day: the start date's day, or 2000-01-01. */
  function FirstDay(q: ReportQuery): int
  {
    DayOf(if q.startDate.Some? then q.startDate.value else DayStart(DAY_2000_01_01))
  }

  /** The last backfilled day: the end date's day, or 2100-12-31. */
  function LastDay(q: ReportQuery): int
  {
    DayOf(if q.endDate.Some? then q.endDate.value else DayStart(DAY_2100_12_31))
  }

  predicate Covered(rs: seq<DailyReport>, vid: int, day: int)
  {
    exists i :: 0 <= i < |rs| && HasKey(rs[i], vid, day)
  }

  /** A report's unique key. */
  function Key(r: DailyReport): (int, int)
  {
    (r.vehicleId, r.day)
  }

  /** No two reports of `rs` share a (vehicle, day) key. */
  predicate DistinctKeys(rs: seq<DailyReport>)
  {
    forall i, j :: 0 <= i < j < |rs| ==> Key(rs[i]) != Key(rs[j])
  }

  /** Each report appended to `reports` to give `out` has a key that no
      report before it in `out` has. */
  predicate FreshTail(reports: seq<DailyReport>, out: seq<DailyReport>)
  {
    forall i, j :: 0 <= i < j < |out| && |reports| <= j ==> Key(out[i]) != Key(out[j])
  }

  lemma FreshTailTrans(a: seq<DailyReport>, b: seq<DailyReport>, c: seq<DailyReport>)
    requires a <= b <= c && FreshTail(a, b) && FreshTail(b, c)
    ensures FreshTail(a, c)
  {
    forall i, j | 0 <= i < j < |c| && |a| <= j
      ensures Key(c[i]) != Key(c[j])
    {
      if j < |b| {
        assert c[i] == b[i] && c[j] == b[j];
      }
    }
  }

  /** Appending fresh keys to reports with distinct keys keeps them distinct. */
  lemma FreshTailDistinct(a: seq<DailyReport>, b: seq<DailyReport>)
    requires a <= b && DistinctKeys(a) && FreshTail(a, b)
    ensures DistinctKeys(b)
  {
    forall i, j | 0 <= i < j < |b|
      ensures Key(b[i]) != Key(b[j])
    {
      if j < |a| {
        assert b[i] == a[i] && b[j] == a[j];
      }
    }
  }

  /** The fetch of a table with unique keys has unique keys. */
  lemma FetchedDistinct(reports: seq<DailyReport>, q: ReportQuery)
    requires DistinctKeys(reports)
    ensures DistinctKeys(Fetched(reports, q))
  {
    var rs := Fetched(reports, q);
    forall x
      ensures multiset(rs)[x] <= multiset(reports)[x]
    {
    }
    SubMultisetDistinctKeys(reports, rs, Key);
  }

  /** Appending a report whose key `out` does not cover keeps the tail
      fresh. */
  lemma FreshSnoc(out: seq<DailyReport>, r: DailyReport)
    requires !Covered(out, r.vehicleId, r.day)
    ensures FreshTail(out, out + [r])
  {
    forall i, j | 0 <= i < j < |out| + 1 && |out| <= j
      ensures Key((out + [r])[i]) != Key((out + [r])[j])
    {
      assert (out + [r])[i] == out[i] && (out + [r])[j] == r;
      assert !HasKey(out[i], r.vehicleId, r.day);
    }
  }

  lemma CoveredGrows(s: seq<DailyReport>, t: seq<DailyReport>, vid: int, day: int)
    requires s <= t && Covered(s, vid, day)
    ensures Covered(t, vid, day)
  {
    var i :| 0 <= i < |s| && HasKey(s[i], vid, day);
    assert t[i] == s[i];
  }

  /** The facts every backfill step keeps: the database is consistent and
      only its reports table changes, every report in the answer is stored,
      and the answer only grows by appending. */
  twostate predicate BackfillFrame(db: Database, reports: seq<DailyReport>, out: seq<DailyReport>)
    reads db
  {
    && db.Valid()
    && db.vehicles == old(db.vehicles) && db.points == old(db.points)
    && db.trips == old(db.trips) && db.drivers == old(db.drivers)
    && db.nextVehicleId == old(db.nextVehicleId) && db.nextTripId == old(db.nextTripId)
    && db.nextDriverId == old(db.nextDriverId)
    && reports <= out
    && (forall x :: x in out ==> x in db.reports)
  }

  /** The report a (vehicle, day) key generates, as a function. */
  type DayGenerator = (int, int) -> Option<DailyStats>

  /** `gen` is `DayReport` over `points`. */
  ghost predicate Generates(gen: DayGenerator, points: seq<TrackingPoint>, dist: Distance)
  {
    forall v, e {:trigger DayReport(points, v, e, dist)} :: gen(v, e) == DayReport(points, v, e, dist)
  }

  /** `DayReport` over `points`, as a generator. */
  function DayGen(points: seq<TrackingPoint>, dist: Distance): (gen: DayGenerator)
    ensures Generates(gen, points, dist)
  {
    (v: int, e: int) => DayReport(points, v, e, dist)
  }

  /** One day of the backfill loop: when the answer `out` holds no report for
      (vid, day), the day's report is generated (and upserted) and, if the day
      has points, appended to the answer. */
  method BackfillDay(db: Database, vid: int, day: int, out: seq<DailyReport>, dist: Distance, ghost points: seq<TrackingPoint>,
                         ghost gen: DayGenerator)
    returns (out': seq<DailyReport>, ghost wrote: bool)
    requires db.Valid() && db.points == points && Generates(gen, points, dist)
    requires forall x :: x in out ==> x in db.reports
    modifies db
    ensures db.Valid()
    ensures db.vehicles == old(db.vehicles) && db.points == old(db.points)
    ensures db.trips == old(db.trips) && db.drivers == old(db.drivers)
    ensures db.nextVehicleId == old(db.nextVehicleId) && db.nextTripId == old(db.nextTripId)
    ensures db.nextDriverId == old(db.nextDriverId)
    ensures out <= out' && forall x :: x in out' ==> x in db.reports
    ensures FreshTail(out, out')
    ensures !wrote ==>
      out' == out && db.reports == old(db.reports) && db.nextReportId == old(db.nextReportId)
    ensures wrote ==> !Covered(out, vid, day) && gen(vid, day).Some?
    ensures forall i :: |out| <= i < |out'| ==>
      HasKey(out'[i], vid, day) && gen(vid, day) == Some(out'[i].stats)
    ensures forall x :: x in old(db.reports) ==> x in db.reports || HasKey(x, vid, day)
    ensures gen(vid, day).Some? ==> Covered(out', vid, day)
  {
    var existing := IndexOf(out, (x: DailyReport) => HasKey(x, vid, day));
    if existing.Some? {
      assert HasKey(out[existing.value], vid, day);
      return out, false;
    }
    ghost var before := db.reports;
    var report := GenerateDailyReport(db, vid, day, dist);
    if report.None? {
      return out, false;
    }
    UpsertKeepsOthers(before, db.reports, out, vid, day);
    assert !Covered(out, vid, day);
    FreshSnoc(out, report.value);
    out' := out + [report.value];
    wrote := true;
    assert HasKey(out'[|out|], vid, day);
  }

  /** An upsert on (vid, day) keeps every row of another key, so an answer
      without that key stays stored. */
  lemma UpsertKeepsOthers(before: seq<DailyReport>, after: seq<DailyReport>, out: seq<DailyReport>,
                          vid: int, day: int)
    requires forall x :: x in out ==> x in before
    requires forall j :: 0 <= j < |out| ==> !HasKey(out[j], vid, day)
    requires forall i :: 0 <= i < |before| && !HasKey(before[i], vid, day) ==> before[i] in after
    ensures forall x :: x in out ==> x in after
    ensures forall x :: x in before ==> x in after || HasKey(x, vid, day)
  {
    forall x | x in out
      ensures x in after
    {
      var j :| 0 <= j < |out| && out[j] == x;
      var k :| 0 <= k < |before| && before[k] == x;
    }
    forall x | x in before && x !in after
      ensures HasKey(x, vid, day)
    {
      var k :| 0 <= k < |before| && before[k] == x;
    }
  }

  /** What the backfill of vehicle `vid` has established once the days
      `first..d-1` are done, starting from the answer `reports` and the
      table `stored0`: the answer grew by appending stored reports; the keys
      `written` were generated because the answer lacked them and their day
      has points; the rows of `stored0` survive unless their key was
      written; each appended report holds its day's columns; nothing was
      written if no key was; and every day done that has points is covered. */
  ghost predicate Progress(stored0: seq<DailyReport>, nextId0: int, stored: seq<DailyReport>, nextId: int,
                           reports: seq<DailyReport>, out: seq<DailyReport>, written: set<(int, int)>,
                           vid: int, first: int, d: int, gen: DayGenerator)
  {
    && reports <= out
    && FreshTail(reports, out)
    && (forall x :: x in out ==> x in stored)
    && (forall k :: k in written ==>
          k.0 == vid && first <= k.1 < d && !Covered(reports, vid, k.1)
          && gen(vid, k.1).Some?)
    && (forall x :: x in stored0 ==> x in stored || (x.vehicleId, x.day) in written)
    && (forall i :: |reports| <= i < |out| ==>
          (out[i].vehicleId, out[i].day) in written
          && gen(out[i].vehicleId, out[i].day) == Some(out[i].stats))
    && (written == {} ==> out == reports && stored == stored0 && nextId == nextId0)
    && (forall e :: first <= e < d && gen(vid, e).Some? ==> Covered(out, vid, e))
  }

  /** One `BackfillDay` step, described by its postcondition, advances
      `Progress` by one day. */
  lemma ProgressStep(stored0: seq<DailyReport>, nextId0: int, stored: seq<DailyReport>, nextId: int,
                     stored': seq<DailyReport>, nextId': int,
                     reports: seq<DailyReport>, out: seq<DailyReport>, out': seq<DailyReport>,
                     written: set<(int, int)>, wrote: bool,
                     vid: int, first: int, d: int, gen: DayGenerator)
    requires first <= d
    requires Progress(stored0, nextId0, stored, nextId, reports, out, written, vid, first, d, gen)
    requires out <= out' && forall x :: x in out' ==> x in stored'
    requires FreshTail(out, out')
    requires !wrote ==> out' == out && stored' == stored && nextId' == nextId
    requires wrote ==> !Covered(out, vid, d) && gen(vid, d).Some?
    requires forall i :: |out| <= i < |out'| ==>
      HasKey(out'[i], vid, d) && gen(vid, d) == Some(out'[i].stats)
    requires forall x :: x in stored ==> x in stored' || HasKey(x, vid, d)
    requires gen(vid, d).Some? ==> Covered(out', vid, d)
    ensures Progress(stored0, nextId0, stored', nextId', reports, out',
                     if wrote then written + {(vid, d)} else written, vid, first, d + 1, gen)
  {
    var written' := if wrote then written + {(vid, d)} else written;
    FreshTailTrans(reports, out, out');
    if wrote {
      assert !Covered(reports, vid, d) by {
        if Covered(reports, vid, d) {
          CoveredGrows(reports, out, vid, d);
        }
      }
    }
    forall e | first <= e < d && gen(vid, e).Some?
      ensures Covered(out', vid, e)
    {
      CoveredGrows(out, out', vid, e);
    }
    forall x | x in stored0
      ensures x in stored' || (x.vehicleId, x.day) in written'
    {
      if x !in stored' && x in stored {
        assert HasKey(x, vid, d);
      }
    }
  }

  /** The backfill of one vehicle over days `first..last`. A day the answer
      already covers is skipped; any other day is generated, and its report
      appended when the day has points. `written` is the set of keys upserted. */
  method BackfillVehicle(db: Database, vid: int, first: int, last: int,
                         reports: seq<DailyReport>, dist: Distance, ghost points: seq<TrackingPoint>,
                         ghost gen: DayGenerator)
    returns (out: seq<DailyReport>, ghost written: set<(int, int)>)
    requires db.Valid() && db.points == points && Generates(gen, points, dist)
    requires forall x :: x in reports ==> x in db.reports
    modifies db
    ensures BackfillFrame(db, reports, out)
    ensures FreshTail(reports, out)
    ensures forall k :: k in written ==>
      k.0 == vid && first <= k.1 <= last && !Covered(reports, vid, k.1)
      && gen(vid, k.1).Some?
    ensures forall x :: x in old(db.reports) ==> x in db.reports || (x.vehicleId, x.day) in written
    ensures forall i :: |reports| <= i < |out| ==>
      (out[i].vehicleId, out[i].day) in written
      && gen(out[i].vehicleId, out[i].day) == Some(out[i].stats)
    ensures written == {} ==>
      out == reports && db.reports == old(db.reports) && db.nextReportId == old(db.nextReportId)
    ensures forall d :: first <= d <= last && gen(vid, d).Some? ==>
      Covered(out, vid, d)
  {
    out := reports;
    written := {};
    var d := first;
    while d <= last
      invariant first <= d && (d <= last + 1 || d == first)
      invariant db.Valid() && db.points == points
      invariant db.vehicles == old(db.vehicles) && db.trips == old(db.trips) && db.drivers == old(db.drivers)
      invariant db.nextVehicleId == old(db.nextVehicleId) && db.nextTripId == old(db.nextTripId)
      invariant db.nextDriverId == old(db.nextDriverId)
      invariant Progress(old(db.reports), old(db.nextReportId), db.reports, db.nextReportId,
                         reports, out, written, vid, first, d, gen)
      decreases last - d
    {
      ghost var stored, nextId, prevOut := db.reports, db.nextReportId, out;
      ghost var wrote;
      out, wrote := BackfillDay(db, vid, d, out, dist, points, gen);
      ProgressStep(old(db.reports), old(db.nextReportId), stored, nextId, db.reports, db.nextReportId,
                   reports, prevOut, out, written, wrote, vid, first, d, gen);
      written := if wrote then written + {(vid, d)} else written;
      d := d + 1;
    }
  }

  /** The backfill over every vehicle of `vids` in turn, each seeing the
      answer as the vehicles before it left it. */
  method Backfill(db: Database, vids: seq<int>, first: int, last: int,
                  reports: seq<DailyReport>, dist: Distance, ghost points: seq<TrackingPoint>,
                         ghost gen: DayGenerator)
    returns (out: seq<DailyReport>, ghost written: set<(int, int)>)
    requires db.Valid() && db.points == points && Generates(gen, points, dist)
    requires forall x :: x in reports ==> x in db.reports
    modifies db
    ensures BackfillFrame(db, reports, out)
    ensures FreshTail(reports, out)
    ensures forall k :: k in written ==>
      k.0 in vids && first <= k.1 <= last && !Covered(reports, k.0, k.1)
      && gen(k.0, k.1).Some?
    ensures forall x :: x in old(db.reports) ==> x in db.reports || (x.vehicleId, x.day) in written
    ensures forall i :: |reports| <= i < |out| ==>
      (out[i].vehicleId, out[i].day) in written
      && gen(out[i].vehicleId, out[i].day) == Some(out[i].stats)
    ensures written == {} ==>
      out == reports && db.reports == old(db.reports) && db.nextReportId == old(db.nextReportId)
    ensures forall k, d :: (0 <= k < |vids| && first <= d <= last
      && gen(vids[k], d).Some?) ==> Covered(out, vids[k], d)
  {
    out := reports;
    written := {};
    for j := 0 to |vids|
      invariant BackfillFrame(db, reports, out)
      invariant FleetProgress(old(db.reports), old(db.nextReportId), db.reports, db.nextReportId,
                              reports, out, written, vids, j, first, last, gen)
    {
      ghost var stored, nextId, prevOut := db.reports, db.nextReportId, out;
      ghost var w;
      out, w := BackfillVehicle(db, vids[j], first, last, out, dist, points, gen);
      FleetStep(old(db.reports), old(db.nextReportId), stored, nextId, db.reports, db.nextReportId,
                reports, prevOut, out, written, w, vids, j, first, last, gen);
      written := written + w;
    }
    assert vids[..|vids|] == vids;
  }

  /** What the backfill has done after the vehicles `vids[..j]`: each key
      written is one of theirs, in the range, not covered by the answer it
      started from and generating a report; every stored report survives
      unless its key was written; each appended report is a written key's
      generated report; nothing changed while nothing was written; and every
      day of theirs that generates a report is covered. */
  ghost predicate FleetProgress(stored0: seq<DailyReport>, nextId0: int, stored: seq<DailyReport>, nextId: int,
                                reports: seq<DailyReport>, out: seq<DailyReport>, written: set<(int, int)>,
                                vids: seq<int>, j: nat, first: int, last: int, gen: DayGenerator)
  {
    && j <= |vids|
    && reports <= out
    && FreshTail(reports, out)
    && (forall k :: k in written ==>
          k.0 in vids[..j] && first <= k.1 <= last && !Covered(reports, k.0, k.1)
          && gen(k.0, k.1).Some?)
    && (forall x :: x in stored0 ==> x in stored || (x.vehicleId, x.day) in written)
    && (forall i :: |reports| <= i < |out| ==>
          (out[i].vehicleId, out[i].day) in written
          && gen(out[i].vehicleId, out[i].day) == Some(out[i].stats))
    && (written == {} ==> out == reports && stored == stored0 && nextId == nextId0)
    && (forall k, d :: (0 <= k < j && first <= d <= last
          && gen(vids[k], d).Some?) ==> Covered(out, vids[k], d))
  }

  /** The backfill of vehicle `vids[j]`, as `BackfillVehicle` promises it,
      extends `FleetProgress` to `vids[..j + 1]`. */
  lemma FleetStep(stored0: seq<DailyReport>, nextId0: int, stored: seq<DailyReport>, nextId: int,
                  stored': seq<DailyReport>, nextId': int,
                  reports: seq<DailyReport>, out: seq<DailyReport>, out': seq<DailyReport>,
                  written: set<(int, int)>, w: set<(int, int)>,
                  vids: seq<int>, j: nat, first: int, last: int, gen: DayGenerator)
    requires j < |vids|
    requires FleetProgress(stored0, nextId0, stored, nextId, reports, out, written, vids, j, first, last, gen)
    requires out <= out' && FreshTail(out, out')
    requires forall k :: k in w ==>
      k.0 == vids[j] && first <= k.1 <= last && !Covered(out, vids[j], k.1)
      && gen(vids[j], k.1).Some?
    requires forall x :: x in stored ==> x in stored' || (x.vehicleId, x.day) in w
    requires forall i :: |out| <= i < |out'| ==>
      (out'[i].vehicleId, out'[i].day) in w
      && gen(out'[i].vehicleId, out'[i].day) == Some(out'[i].stats)
    requires w == {} ==> out' == out && stored' == stored && nextId' == nextId
    requires forall d :: first <= d <= last && gen(vids[j], d).Some? ==> Covered(out', vids[j], d)
    ensures FleetProgress(stored0, nextId0, stored', nextId', reports, out', written + w,
                          vids, j + 1, first, last, gen)
  {
    PrefixSnoc(vids, j);
    FreshTailTrans(reports, out, out');
    forall k | k in w
      ensures !Covered(reports, k.0, k.1)
    {
      if Covered(reports, k.0, k.1) {
        CoveredGrows(reports, out, k.0, k.1);
      }
    }
    forall k, d | 0 <= k < j && first <= d <= last && gen(vids[k], d).Some?
      ensures Covered(out', vids[k], d)
    {
      CoveredGrows(out, out', vids[k], d);
    }
  }

  /** Covering a key does not depend on the order of the reports. */
  lemma CoveredPermutation(s: seq<DailyReport>, t: seq<DailyReport>, vid: int, day: int)
    requires multiset(s) == multiset(t) && Covered(s, vid, day)
    ensures Covered(t, vid, day)
  {
    var i :| 0 <= i < |s| && HasKey(s[i], vid, day);
    assert s[i] in multiset(t);
    var j :| 0 <= j < |t| && t[j] == s[i];
  }

  /** The ids of all vehicles, in table order. */
  function VehicleIds(vehicles: seq<Vehicle>): (ids: seq<int>)
    ensures |ids| == |vehicles|
    ensures forall i :: 0 <= i < |ids| ==> ids[i] == vehicles[i].id
  {
    seq(|vehicles|, i requires 0 <= i < |vehicles| => vehicles[i].id)
  }

  /** The vehicles the backfill visits: the queried one, or all of them. */
  function BackfillVehicles(vehicles: seq<Vehicle>, q: ReportQuery): seq<int>
  {
    if q.vehicleId.Some? then [q.vehicleId.value] else VehicleIds(vehicles)
  }

  predicate HasDates(q: ReportQuery)
  {
    q.startDate.Some? || q.endDate.Some?
  }

  /** The reports `GET /api/reports` holds before the time-of-day filter.
      Without a date the stored matching reports are answered as they are.
      With a date, every (vehicle, day) of the range whose day has points
      is in the answer, newest day first; each answered report is stored,
      and each one not fetched was generated from the day's points (`gen`
      stands for `DayReport` over the points table). A stored
      report is replaced only for a backfilled key the fetch did not hold. */
  method CollectReports(db: Database, q: ReportQuery, dist: Distance, ghost gen: DayGenerator)
    returns (rs: seq<DailyReport>)
    requires db.Valid() && Generates(gen, db.points, dist)
    modifies db
    ensures db.Valid()
    ensures db.vehicles == old(db.vehicles) && db.points == old(db.points)
    ensures db.trips == old(db.trips) && db.drivers == old(db.drivers)
    ensures db.nextVehicleId == old(db.nextVehicleId) && db.nextTripId == old(db.nextTripId)
    ensures db.nextDriverId == old(db.nextDriverId)
    ensures !HasDates(q) ==>
      rs == Fetched(old(db.reports), q) && db.reports == old(db.reports)
      && db.nextReportId == old(db.nextReportId)
    ensures HasDates(q) ==> Sorted(rs, NewestFirst)
    ensures HasDates(q) ==>
      Answered(old(db.reports), old(db.nextReportId), db.reports, db.nextReportId, Fetched(old(db.reports), q),
               rs, BackfillVehicles(db.vehicles, q), FirstDay(q), LastDay(q), gen)
  {
    var fetched := Fetched(db.reports, q);
    if !HasDates(q) {
      return fetched;
    }
    var vids := BackfillVehicles(db.vehicles, q);
    FetchedDistinct(db.reports, q);
    ghost var written;
    var out;
    out, written := Backfill(db, vids, FirstDay(q), LastDay(q), fetched, dist, db.points, gen);
    assert BackfillVehicles(db.vehicles, q) == vids;
    rs := SortBy(out, NewestFirst);
    SortedAnswer(old(db.reports), old(db.nextReportId), db.reports, db.nextReportId,
                 fetched, out, rs, written, vids, FirstDay(q), LastDay(q), gen);
  }

  /** What the collected answer `rs` guarantees, given the reports `fetched`
      from the store `stored0` and the backfill over `vids` and days
      `first..last` that left the store `stored`: every answered report is
      stored and every fetched one answered; no two share a key; an answered
      report not fetched belongs to a vehicle and day of the range the fetch
      did not cover and holds that day's generated columns; every (vehicle,
      day) of the range with points is covered; nothing is written when the fetch already
      covered the range; and a stored report survives unless its key lies
      in the range and the fetch did not cover it. */
  ghost predicate Answered(stored0: seq<DailyReport>, nextId0: int, stored: seq<DailyReport>, nextId: int,
                           fetched: seq<DailyReport>, rs: seq<DailyReport>,
                           vids: seq<int>, first: int, last: int, gen: DayGenerator)
  {
    && (forall i :: 0 <= i < |rs| ==> rs[i] in stored)
    && (forall x :: x in fetched ==> x in rs)
    && DistinctKeys(rs)
    && (forall i :: 0 <= i < |rs| && rs[i] !in fetched ==>
      rs[i].vehicleId in vids && first <= rs[i].day <= last
      && !Covered(fetched, rs[i].vehicleId, rs[i].day)
      && gen(rs[i].vehicleId, rs[i].day) == Some(rs[i].stats))
    && (forall k, d :: (0 <= k < |vids| && first <= d <= last && gen(vids[k], d).Some?) ==>
      Covered(rs, vids[k], d))
    && ((forall k, d :: (0 <= k < |vids| && first <= d <= last && gen(vids[k], d).Some?) ==>
        Covered(fetched, vids[k], d)) ==>
      stored == stored0 && nextId == nextId0)
    && (forall x :: x in stored0 ==> (x in stored
      || (x.vehicleId in vids && first <= x.day <= last && !Covered(fetched, x.vehicleId, x.day))))
  }

  /** The facts the backfill leaves about the answer `out` carry over to its
      reordering `rs`. */
  lemma SortedAnswer(stored0: seq<DailyReport>, nextId0: int, stored: seq<DailyReport>, nextId: int,
                     fetched: seq<DailyReport>, out: seq<DailyReport>, rs: seq<DailyReport>,
                     written: set<(int, int)>, vids: seq<int>, first: int, last: int, gen: DayGenerator)
    requires multiset(rs) == multiset(out)
    requires fetched <= out && forall x :: x in out ==> x in stored
    requires DistinctKeys(fetched) && FreshTail(fetched, out)
    requires forall k :: k in written ==>
      k.0 in vids && first <= k.1 <= last && !Covered(fetched, k.0, k.1) && gen(k.0, k.1).Some?
    requires forall x :: x in stored0 ==> x in stored || (x.vehicleId, x.day) in written
    requires forall i :: |fetched| <= i < |out| ==>
      (out[i].vehicleId, out[i].day) in written && gen(out[i].vehicleId, out[i].day) == Some(out[i].stats)
    requires written == {} ==> out == fetched && stored == stored0 && nextId == nextId0
    requires forall k, d :: (0 <= k < |vids| && first <= d <= last && gen(vids[k], d).Some?) ==>
      Covered(out, vids[k], d)
    ensures Answered(stored0, nextId0, stored, nextId, fetched, rs, vids, first, last, gen)
  {
    forall i | 0 <= i < |rs|
      ensures rs[i] in out
    {
      assert rs[i] in multiset(out);
    }
    forall x | x in fetched
      ensures x in rs
    {
      assert x in multiset(rs);
    }
    FreshTailDistinct(fetched, out);
    PermutationDistinctKeys(out, rs, Key);
    forall i | 0 <= i < |rs| && rs[i] !in fetched
      ensures rs[i].vehicleId in vids && first <= rs[i].day <= last
      ensures !Covered(fetched, rs[i].vehicleId, rs[i].day)
      ensures gen(rs[i].vehicleId, rs[i].day) == Some(rs[i].stats)
    {
      assert rs[i] in out;
      var j :| 0 <= j < |out| && out[j] == rs[i];
      assert (out[j].vehicleId, out[j].day) in written;
    }
    forall k, d | 0 <= k < |vids| && first <= d <= last && gen(vids[k], d).Some?
      ensures Covered(rs, vids[k], d)
    {
      CoveredPermutation(out, rs, vids[k], d);
    }
  }

  /** A report one admitted answer holds, another holds too: a fetched one
      is in every answer, and any other is the stored report of a key the
      other answer must cover, which the store holds only once. */
  lemma AnsweredMember(stored0: seq<DailyReport>, nextId0: int, stored: seq<DailyReport>, nextId: int,
                       fetched: seq<DailyReport>, rs: seq<DailyReport>, rs': seq<DailyReport>,
                       vids: seq<int>, first: int, last: int, gen: DayGenerator, x: DailyReport)
    requires DistinctKeys(stored)
    requires Answered(stored0, nextId0, stored, nextId, fetched, rs, vids, first, last, gen)
    requires Answered(stored0, nextId0, stored, nextId, fetched, rs', vids, first, last, gen)
    requires x in rs
    ensures x in rs'
  {
    if x !in fetched {
      var i :| 0 <= i < |rs| && rs[i] == x;
      var k :| 0 <= k < |vids| && vids[k] == x.vehicleId;
      assert Covered(rs', vids[k], x.day);
      var j :| 0 <= j < |rs'| && HasKey(rs'[j], x.vehicleId, x.day);
      var a :| 0 <= a < |stored| && stored[a] == x;
      var b :| 0 <= b < |stored| && stored[b] == rs'[j];
      assert Key(stored[a]) == Key(stored[b]);
    }
  }

  /** Over a store with unique keys, `Answered` fixes the answer up to its
      order: any two answers it admits are permutations of each other, so
      the totals computed from them agree. */
  lemma AnsweredDetermined(stored0: seq<DailyReport>, nextId0: int, stored: seq<DailyReport>, nextId: int,
                           fetched: seq<DailyReport>, rs: seq<DailyReport>, rs': seq<DailyReport>,
                           vids: seq<int>, first: int, last: int, gen: DayGenerator)
    requires DistinctKeys(stored)
    requires Answered(stored0, nextId0, stored, nextId, fetched, rs, vids, first, last, gen)
    requires Answered(stored0, nextId0, stored, nextId, fetched, rs', vids, first, last, gen)
    ensures multiset(rs) == multiset(rs')
  {
    forall x
      ensures x in rs <==> x in rs'
    {
      if x in rs {
        AnsweredMember(stored0, nextId0, stored, nextId, fetched, rs, rs', vids, first, last, gen, x);
      }
      if x in rs' {
        AnsweredMember(stored0, nextId0, stored, nextId, fetched, rs', rs, vids, first, last, gen, x);
      }
    }
    assert NoRepeats(rs) && NoRepeats(rs');
    SameMembersNoRepeats(rs, rs');
  }

  // ---------------------------------------------------------------------
  // The time-of-day window

  /** `setHours(h || 0, m || 0, 0, 0)` on the report's day, from `startTime`. */
  function StartBound(day: int, startTime: string): int
  {
    var hm := HourMinute(startTime);
    AtTime(day, NumberOr(hm.0, 0), NumberOr(hm.1, 0), 0, 0)
  }

  /** `setHours(h || 23, m || 59, 59, 999)` on the report's day, from `endTime`. */
  function EndBound(day: int, endTime: string): int
  {
    var hm := HourMinute(endTime);
    AtTime(day, NumberOr(hm.0, 23), NumberOr(hm.1, 59), 59, 999)
  }

  /** A report survives the window when it has movement, its last movement
      is not before the start bound and its first movement not after the
      end bound. */
  predicate Kept(r: DailyReport, q: ReportQuery)
  {
    && r.stats.firstMovement.Some? && r.stats.lastMovement.Some?
    && (q.startTime == "" || r.stats.lastMovement.value >= StartBound(r.day, q.startTime))
    && (q.endTime == "" || r.stats.firstMovement.value <= EndBound(r.day, q.endTime))
  }

  /** The reports the answer shows: all of them without a time parameter,
      else those `Kept`, in their order. */
  function Shown(rs: seq<DailyReport>, q: ReportQuery): (shown: seq<DailyReport>)
    ensures q.startTime == "" && q.endTime == "" ==> shown == rs
    ensures forall i :: 0 <= i < |shown| ==> shown[i] in rs
    ensures (q.startTime != "" || q.endTime != "") ==>
      (forall i :: 0 <= i < |shown| ==> Kept(shown[i], q))
      && (forall i :: 0 <= i < |rs| && Kept(rs[i], q) ==> rs[i] in shown)
  {
    if q.startTime == "" && q.endTime == "" then rs
    else Filter(rs, (r: DailyReport) => Kept(r, q))
  }

  /** The window keeps the newest-first order. */
  lemma ShownSorted(rs: seq<DailyReport>, q: ReportQuery)
    requires Sorted(rs, NewestFirst)
    ensures Sorted(Shown(rs, q), NewestFirst)
  {
    if q.startTime != "" || q.endTime != "" {
      FilterSorted(rs, (r: DailyReport) => Kept(r, q), NewestFirst);
    }
  }

  /** On an `HH:mm` clock the bounds are that minute of the day, except that
      the `||` fallbacks read an hour or minute of 00 as 23 or 59 at the end
      bound. */
  lemma ClockBounds(day: int, h: nat, m: nat)
    requires h < 24 && m < 60
    ensures StartBound(day, Pad2(h) + ":" + Pad2(m)) == AtTime(day, h, m, 0, 0)
    ensures EndBound(day, Pad2(h) + ":" + Pad2(m))
      == AtTime(day, if h == 0 then 23 else h, if m == 0 then 59 else m, 59, 999)
  {
    HourMinuteOfClock(h, m);
  }

  /** The clock `"00:00"`: the start of the day, and at the end bound the
      last minute of the day. */
  lemma MidnightClock(day: int)
    ensures StartBound(day, "00:00") == AtTime(day, 0, 0, 0, 0)
    ensures EndBound(day, "00:00") == AtTime(day, 23, 59, 59, 999)
  {
    ClockBounds(day, 0, 0);
    assert Pad2(0) == "00";
    assert Pad2(0) + ":" + Pad2(0) == "00:00";
  }

  /** The clock `"23:59"`: the last minute of the day at either bound. */
  lemma LastMinuteClock(day: int)
    ensures StartBound(day, "23:59") == AtTime(day, 23, 59, 0, 0)
    ensures EndBound(day, "23:59") == AtTime(day, 23, 59, 59, 999)
  {
    ClockBounds(day, 23, 59);
    assert Pad2(23) == "23" && Pad2(59) == "59";
    assert Pad2(23) + ":" + Pad2(59) == "23:59";
  }

  /** A generated report's movement lies within its day, first before last. */
  lemma MovementWithinDay(points: seq<TrackingPoint>, vid: int, day: int, dist: Distance)
    requires DayReport(points, vid, day, dist).Some?
    ensures var st := DayReport(points, vid, day, dist).value;
      && st.firstMovement.Some? && st.lastMovement.Some?
      && DayStart(day) <= st.firstMovement.value <= st.lastMovement.value <= EndOfDay(day)
  {
    var ps := DayPoints(points, vid, day);
    assert ps[0].timestamp <= ps[|ps| - 1].timestamp;
  }

  /** The whole-day window 00:00 to 23:59 keeps every generated report. */
  lemma WholeDayKeepsGenerated(points: seq<TrackingPoint>, r: DailyReport, q: ReportQuery, dist: Distance)
    requires DayReport(points, r.vehicleId, r.day, dist) == Some(r.stats)
    requires q.startTime == Pad2(0) + ":" + Pad2(0) && q.endTime == Pad2(23) + ":" + Pad2(59)
    ensures Kept(r, q)
  {
    MovementWithinDay(points, r.vehicleId, r.day, dist);
    ClockBounds(r.day, 0, 0);
    ClockBounds(r.day, 23, 59);
  }

  // ---------------------------------------------------------------------
  // The answer

  /** A row of the answer. The times are the first and last movement (shown
      as `'-'` when absent); the duration is shown as hours and minutes. */
  datatype ReportRow = ReportRow(
    id: int,
    vehicleId: int,
    day: int,
    startTime: Option<int>,
    endTime: Option<int>,
    distance: real,
    durationHours: int,
    durationMinutes: int,
    stops: int,
    avgSpeed: real,
    maxSpeed: real)

  function Row(r: DailyReport): (row: ReportRow)
    ensures row.id == r.id && row.vehicleId == r.vehicleId && row.day == r.day
    ensures row.startTime == r.stats.firstMovement && row.endTime == r.stats.lastMovement
    ensures row.distance == r.stats.totalDistance && row.stops == r.stats.numberOfStops
    ensures row.avgSpeed == r.stats.avgSpeed && row.maxSpeed == r.stats.maxSpeed
    ensures r.stats.totalDuration >= 0 ==>
      0 <= row.durationMinutes < 60
      && row.durationHours * 60 + row.durationMinutes == r.stats.totalDuration
  {
    var st := r.stats;
    ReportRow(r.id, r.vehicleId, r.day, st.firstMovement, st.lastMovement, st.totalDistance,
              st.totalDuration / 60, JsRem(st.totalDuration, 60),
              st.numberOfStops, st.avgSpeed, st.maxSpeed)
  }

  function Rows(rs: seq<DailyReport>): (rows: seq<ReportRow>)
    ensures |rows| == |rs|
    ensures forall i :: 0 <= i < |rs| ==> rows[i] == Row(rs[i])
  {
    seq(|rs|, i requires 0 <= i < |rs| => Row(rs[i]))
  }

  /** The answer's `stats`. */
  datatype Totals = Totals(totalDistance: real, totalTrips: int, avgSpeed: real, totalStops: int)

  function DistanceOf(r: DailyReport): real { r.stats.totalDistance }
  function AvgSpeedOf(r: DailyReport): real { r.stats.avgSpeed }
  function StopsOf(r: DailyReport): int { r.stats.numberOfStops }
  function StopsAsReal(r: DailyReport): real { r.stats.numberOfStops as real }

  function Summary(rs: seq<DailyReport>): (t: Totals)
    ensures t.totalTrips == |rs|
    ensures |rs| == 0 ==> t == Totals(0.0, 0, 0.0, 0)
  {
    Totals(SumBy(rs, DistanceOf), |rs|, MeanBy(rs, AvgSpeedOf), SumIntBy(rs, StopsOf))
  }

  /** The totals do not depend on the order of the reports, so sorting the
      answer after the backfill leaves them as they were. */
  lemma SummaryOrderFree(a: seq<DailyReport>, b: seq<DailyReport>)
    requires multiset(a) == multiset(b)
    ensures Summary(a) == Summary(b)
  {
    assert |a| == |multiset(a)| == |multiset(b)| == |b|;
    SumByPermutation(a, b, DistanceOf);
    SumByPermutation(a, b, AvgSpeedOf);
    SumIntByAsReal(a, StopsOf, StopsAsReal);
    SumIntByAsReal(b, StopsOf, StopsAsReal);
    SumByPermutation(a, b, StopsAsReal);
  }

  /** The overall average speed lies between the smallest and the largest
      per-day average. */
  lemma SummaryAvgBounds(rs: seq<DailyReport>, lo: real, hi: real)
    requires |rs| > 0
    requires forall i :: 0 <= i < |rs| ==> lo <= rs[i].stats.avgSpeed <= hi
    ensures lo <= Summary(rs).avgSpeed <= hi
  {
    MeanByBounds(rs, AvgSpeedOf, lo, hi);
  }

  /** `GET /api/reports`: the collected reports narrowed by the window,
      formatted, and summed. `rs` names the collected reports. */
  method GetReports(db: Database, q: ReportQuery, dist: Distance)
    returns (rows: seq<ReportRow>, totals: Totals, ghost rs: seq<DailyReport>)
    requires db.Valid()
    modifies db
    ensures db.Valid()
    ensures db.vehicles == old(db.vehicles) && db.points == old(db.points)
    ensures db.trips == old(db.trips) && db.drivers == old(db.drivers)
    ensures db.nextVehicleId == old(db.nextVehicleId) && db.nextTripId == old(db.nextTripId)
    ensures db.nextDriverId == old(db.nextDriverId)
    ensures !HasDates(q) ==>
      rs == Fetched(old(db.reports), q) && db.reports == old(db.reports)
      && db.nextReportId == old(db.nextReportId)
    ensures HasDates(q) ==> Sorted(rs, NewestFirst) && Sorted(rows, (row: ReportRow) => -row.day)
    ensures HasDates(q) ==>
      Answered(old(db.reports), old(db.nextReportId), db.reports, db.nextReportId, Fetched(old(db.reports), q),
               rs, BackfillVehicles(db.vehicles, q), FirstDay(q), LastDay(q), DayGen(db.points, dist))
    ensures forall i :: 0 <= i < |rs| ==> rs[i] in db.reports
    ensures rows == Rows(Shown(rs, q)) && totals == Summary(Shown(rs, q))
  {
    ghost var gen := DayGen(db.points, dist);
    var collected := CollectReports(db, q, dist, gen);
    rs := collected;
    var shown := Shown(collected, q);
    rows := Rows(shown);
    totals := Summary(shown);
    if HasDates(q) {
      ShownSorted(rs, q);
    }
  }

  /** The query a report row's "regenerate" action sends: the row's vehicle
      with start and end date both the row's date (midnight UTC). */
  function RegenerateQuery(vid: int, day: int): (q: ReportQuery)
    ensures FirstDay(q) == day && LastDay(q) == day
    ensures forall r :: Matches(r, q) <==> HasKey(r, vid, day)
  {
    DayOfDayStart(day);
    ReportQuery(Some(vid), Some(DayStart(day)), Some(DayStart(day)), "", "")
  }

  /** The "regenerate" action. A day that already has a stored report is
      answered from the store: the report is not recomputed and nothing is
      written. A day without one gets its report generated, when it has
      points. */
  method Regenerate(db: Database, vid: int, day: int, dist: Distance)
    requires db.Valid()
    modifies db
    ensures db.Valid()
    ensures db.vehicles == old(db.vehicles) && db.points == old(db.points)
    ensures db.trips == old(db.trips) && db.drivers == old(db.drivers)
    ensures db.nextVehicleId == old(db.nextVehicleId) && db.nextTripId == old(db.nextTripId)
    ensures db.nextDriverId == old(db.nextDriverId)
    ensures forall x :: x in old(db.reports) && !HasKey(x, vid, day) ==> x in db.reports
    ensures Covered(old(db.reports), vid, day) ==> db.reports == old(db.reports)
    ensures DayReport(db.points, vid, day, dist).None? ==> db.reports == old(db.reports)
    ensures !Covered(old(db.reports), vid, day) && DayReport(db.points, vid, day, dist).Some? ==>
      exists i :: 0 <= i < |db.reports| && HasKey(db.reports[i], vid, day)
        && db.reports[i].stats == DayReport(db.points, vid, day, dist).value
  {
    var q := RegenerateQuery(vid, day);
    ghost var gen := DayGen(db.points, dist);
    var rs := CollectReports(db, q, dist, gen);
    assert BackfillVehicles(db.vehicles, q) == [vid];
    RegenerateFetched(old(db.reports), vid, day);
    RegenerateAnswer(old(db.reports), old(db.nextReportId), db.reports, db.nextReportId,
                     Fetched(old(db.reports), q), rs, vid, day, gen);
    assert gen(vid, day) == DayReport(db.points, vid, day, dist);
  }

  /** The fetch of the regenerate query holds exactly the stored reports of
      the row's key. */
  lemma RegenerateFetched(reports: seq<DailyReport>, vid: int, day: int)
    ensures var fetched := Fetched(reports, RegenerateQuery(vid, day));
      && (forall x :: x in fetched ==> x in reports && HasKey(x, vid, day))
      && (forall i :: 0 <= i < |reports| && HasKey(reports[i], vid, day) ==> reports[i] in fetched)
  {
    var q := RegenerateQuery(vid, day);
    var fetched := Fetched(reports, q);
    forall x | x in fetched
      ensures x in reports && HasKey(x, vid, day)
    {
      var i :| 0 <= i < |fetched| && fetched[i] == x;
    }
  }

  /** The answer to a one-day, one-vehicle collection: its key is covered
      when the day has points, and nothing is written when the fetch already
      held the key or the day has no points. */
  lemma RegenerateAnswer(stored0: seq<DailyReport>, nextId0: int, stored: seq<DailyReport>, nextId: int,
                         fetched: seq<DailyReport>, rs: seq<DailyReport>,
                         vid: int, day: int, gen: DayGenerator)
    requires Answered(stored0, nextId0, stored, nextId, fetched, rs, [vid], day, day, gen)
    requires forall x :: x in fetched ==> x in stored0 && HasKey(x, vid, day)
    requires forall i :: 0 <= i < |stored0| && HasKey(stored0[i], vid, day) ==> stored0[i] in fetched
    ensures Covered(stored0, vid, day) ==> stored == stored0
    ensures gen(vid, day).None? ==> stored == stored0
    ensures !Covered(stored0, vid, day) && gen(vid, day).Some? ==>
      exists i :: 0 <= i < |stored| && HasKey(stored[i], vid, day) && stored[i].stats == gen(vid, day).value
    ensures forall x :: x in stored0 && !HasKey(x, vid, day) ==> x in stored
  {
    var vids := [vid];
    assert gen(vid, day).Some? ==> Covered(rs, vid, day) by {
      if gen(vid, day).Some? {
        assert 0 <= 0 < |vids| && day <= day <= day && gen(vids[0], day).Some?;
      }
    }
    assert (gen(vid, day).Some? ==> Covered(fetched, vid, day)) ==> stored == stored0 by {
      if gen(vid, day).Some? ==> Covered(fetched, vid, day) {
        forall k, d | 0 <= k < |vids| && day <= d <= day && gen(vids[k], d).Some?
          ensures Covered(fetched, vids[k], d)
        {
          assert k == 0 && d == day;
        }
      }
    }
    RegenerateOutcome(stored0, stored, fetched, rs, vid, day, gen);
  }

  lemma RegenerateOutcome(stored0: seq<DailyReport>, stored: seq<DailyReport>,
                          fetched: seq<DailyReport>, rs: seq<DailyReport>,
                          vid: int, day: int, gen: DayGenerator)
    requires forall x :: x in fetched ==> x in stored0 && HasKey(x, vid, day)
    requires forall i :: 0 <= i < |stored0| && HasKey(stored0[i], vid, day) ==> stored0[i] in fetched
    requires forall i :: 0 <= i < |rs| ==> rs[i] in stored
    requires forall i :: 0 <= i < |rs| && rs[i] !in fetched ==>
      gen(rs[i].vehicleId, rs[i].day) == Some(rs[i].stats)
    requires gen(vid, day).Some? ==> Covered(rs, vid, day)
    requires (gen(vid, day).Some? ==> Covered(fetched, vid, day)) ==> stored == stored0
    ensures Covered(stored0, vid, day) ==> stored == stored0
    ensures gen(vid, day).None? ==> stored == stored0
    ensures !Covered(stored0, vid, day) && gen(vid, day).Some? ==>
      exists i :: 0 <= i < |stored| && HasKey(stored[i], vid, day) && stored[i].stats == gen(vid, day).value
  {
    if Covered(stored0, vid, day) {
      var i :| 0 <= i < |stored0| && HasKey(stored0[i], vid, day);
      assert stored0[i] in fetched;
      var j :| 0 <= j < |fetched| && fetched[j] == stored0[i];
      assert HasKey(fetched[j], vid, day);
    }
    if !Covered(stored0, vid, day) && gen(vid, day).Some? {
      var i :| 0 <= i < |rs| && HasKey(rs[i], vid, day);
      var j :| 0 <= j < |stored| && stored[j] == rs[i];
      assert HasKey(stored[j], vid, day);
    }
  }
}
