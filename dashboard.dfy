/** The dashboard's view of a vehicle: the row from `GET /api/vehicles` turned
    into the card the map and the list show, the running stopped time, and its
    rendering in hours, minutes and seconds. `now` is the browser clock. */
module Dashboard {
  import opened Values
  import opened Text
  import opened Telemetry
  import Vehicles

  // ---------------------------------------------------------------------
  // formatStoppedTime

  datatype TimeUnit = Hour | Minute | Second

  /** One number of the rendered duration with its unit word. */
  datatype Part = Part(amount: int, unit: TimeUnit)

  /** The parts `formatStoppedTime(seconds)` shows: below a minute only the
      seconds (whatever their sign); below an hour the minutes, and the
      seconds when there are any; otherwise the hours, then the minutes and
      seconds unless both are zero, and the seconds unless they are zero. */
  function StoppedParts(seconds: int): (parts: seq<Part>)
    ensures 1 <= |parts| <= 3
    ensures seconds < 60 ==> parts == [Part(seconds, Second)]
    ensures 60 <= seconds < 3600 ==>
      parts[0] == Part(seconds / 60, Minute)
      && (|parts| == 2 <==> seconds % 60 > 0) && |parts| <= 2
    ensures seconds >= 3600 ==>
      parts[0] == Part(seconds / 3600, Hour)
      && (|parts| == 1 <==> seconds % 3600 == 0)
      && (|parts| == 3 <==> seconds % 60 != 0) && |parts| <= 3
  {
    if seconds < 60 then [Part(seconds, Second)]
    else if seconds < 3600 then
      var minutes := seconds / 60;
      var secs := seconds % 60;
      if secs > 0 then [Part(minutes, Minute), Part(secs, Second)] else [Part(minutes, Minute)]
    else
      var hours := seconds / 3600;
      var minutes := (seconds % 3600) / 60;
      var secs := seconds % 60;
      if minutes == 0 && secs == 0 then [Part(hours, Hour)]
      else if secs == 0 then [Part(hours, Hour), Part(minutes, Minute)]
      else [Part(hours, Hour), Part(minutes, Minute), Part(secs, Second)]
  }

  function UnitSeconds(u: TimeUnit): int
  {
    match u
    case Hour => 3600
    case Minute => 60
    case Second => 1
  }

  /** The number of seconds the parts stand for. */
  function Value(parts: seq<Part>): int
  {
    if |parts| == 0 then 0 else parts[0].amount * UnitSeconds(parts[0].unit) + Value(parts[1..])
  }

  /** The units appear largest first, each at most once. */
  predicate Descending(parts: seq<Part>)
  {
    forall i, j :: 0 <= i < j < |parts| ==> UnitSeconds(parts[i].unit) > UnitSeconds(parts[j].unit)
  }

  /** The shown parts add up to the duration, come largest unit first, and
      every part after the first is below 60. */
  lemma StoppedPartsValue(seconds: int)
    ensures Value(StoppedParts(seconds)) == seconds
    ensures Descending(StoppedParts(seconds))
    ensures forall i :: 1 <= i < |StoppedParts(seconds)| ==> 0 <= StoppedParts(seconds)[i].amount < 60
  {
    var parts := StoppedParts(seconds);
    ValueThree(parts);
    if seconds >= 3600 {
      var h, m, s := seconds / 3600, (seconds % 3600) / 60, seconds % 60;
      assert seconds % 3600 == m * 60 + s;
      assert seconds == h * 3600 + m * 60 + s;
    }
  }

  lemma ValueThree(parts: seq<Part>)
    requires 1 <= |parts| <= 3
    ensures |parts| == 1 ==> Value(parts) == parts[0].amount * UnitSeconds(parts[0].unit)
    ensures |parts| == 2 ==>
      Value(parts) == parts[0].amount * UnitSeconds(parts[0].unit) + parts[1].amount * UnitSeconds(parts[1].unit)
    ensures |parts| == 3 ==>
      Value(parts) == parts[0].amount * UnitSeconds(parts[0].unit) + parts[1].amount * UnitSeconds(parts[1].unit)
                      + parts[2].amount * UnitSeconds(parts[2].unit)
  {
    assert Value(parts[|parts|..]) == 0;
    if |parts| >= 2 {
      assert parts[1..][1..] == parts[2..];
    }
    if |parts| == 3 {
      assert parts[2..][1..] == parts[3..];
    }
  }

  /** Different durations are never shown alike. */
  lemma StoppedPartsInjective(s1: int, s2: int)
    requires StoppedParts(s1) == StoppedParts(s2)
    ensures s1 == s2
  {
    StoppedPartsValue(s1);
    StoppedPartsValue(s2);
  }

  /** The Arabic word shown after a count of this unit. */
  function UnitWord(u: TimeUnit): string
  {
    match u
    case Hour => "ساعة"
    case Minute => "دقيقة"
    case Second => "ثانية"
  }

  function Render(parts: seq<Part>): string
  {
    if |parts| == 0 then ""
    else
      var head := IntText(parts[0].amount) + " " + UnitWord(parts[0].unit);
      if |parts| == 1 then head else head + " " + Render(parts[1..])
  }

  /** `formatStoppedTime(seconds)`: the parts, each as its number and unit
      word, separated by spaces. */
  function FormatStoppedTime(seconds: int): string
  {
    Render(StoppedParts(seconds))
  }

  // ---------------------------------------------------------------------
  // formatVehicleData and getTotalStoppedTime

  /** The card the dashboard keeps for a vehicle. */
  datatype Card = Card(
    id: int,
    name: string,
    plate: string,
    deviceImei: string,
    lat: real,
    lng: real,
    speed: real,
    status: Status,
    lastUpdate: int,
    battery: int,
    stoppedAt: Option<int>,
    totalStoppedTime: int,
    currentStoppedTime: int)

  const DEFAULT_LAT: real := 30.0444
  const DEFAULT_LNG: real := 31.2357
  const DEFAULT_BATTERY: int := 100

  /** `x || d` for a nullable number column: null and 0 give `d`. */
  function RealOr(x: Option<real>, d: real): (r: real)
    ensures x.Some? && x.value != 0.0 ==> r == x.value
    ensures x.None? || x.value == 0.0 ==> r == d
  {
    if x.Some? && x.value != 0.0 then x.value else d
  }

  /** `Math.floor((now - stoppedAt) / 1000)`. */
  function ElapsedSeconds(now: int, since: int): int
  {
    (now - since) / 1000
  }

  /** Whether the card is in a stop still going on. */
  predicate InOpenStop(status: Status, stoppedAt: Option<int>)
  {
    status == Stopped && stoppedAt.Some?
  }

  /** `formatVehicleData(v)` on a listed vehicle with the `batteryLevel`
      found at `v.latestTrackingPoint` (`None` when that field is missing). */
  function CardOf(v: Vehicle, latestBattery: Option<int>, now: int): (c: Card)
    ensures c.lat == RealOr(v.lastLatitude, 30.0444) && c.lng == RealOr(v.lastLongitude, 31.2357)
    ensures c.speed == RealOr(v.lastSpeed, 0.0) && c.status == v.status
    ensures c.lastUpdate == (if v.lastUpdate.Some? then v.lastUpdate.value else now)
    ensures c.battery == (if latestBattery.Some? && latestBattery.value != 0 then latestBattery.value else 100)
    ensures c.totalStoppedTime == v.totalStoppedTime
    ensures !InOpenStop(v.status, v.stoppedAt) ==> c.currentStoppedTime == 0
    ensures InOpenStop(v.status, v.stoppedAt) ==>
      c.currentStoppedTime == ElapsedSeconds(now, v.stoppedAt.value)
  {
    var lastUpdate := if v.lastUpdate.Some? then v.lastUpdate.value else now;
    var current := if InOpenStop(v.status, v.stoppedAt) then ElapsedSeconds(now, v.stoppedAt.value) else 0;
    Card(
      v.id, v.name, v.plateNumber, v.deviceImei,
      RealOr(v.lastLatitude, DEFAULT_LAT),
      RealOr(v.lastLongitude, DEFAULT_LNG),
      RealOr(v.lastSpeed, 0.0),
      v.status,
      lastUpdate,
      if latestBattery.Some? && latestBattery.value != 0 then latestBattery.value else DEFAULT_BATTERY,
      v.stoppedAt,
      v.totalStoppedTime,
      current)
  }

  /** `formatVehicleData` as the dashboard applies it to the elements of
      `GET /api/vehicles`: it reads `v.latestTrackingPoint`, a field the
      listing does not have (the listing's field is `trackingPoints`). */
  function FormatVehicleData(l: Vehicles.ListedVehicle, now: int): Card
  {
    CardOf(l.vehicle, None, now)
  }

  /** As written, every card shows a battery of 100, whatever the vehicle's
      latest sample says. */
  lemma BatteryAlwaysFull(l: Vehicles.ListedVehicle, now: int)
    ensures FormatVehicleData(l, now).battery == 100
  {
  }

  /** A listed vehicle whose latest sample reports 40% is shown at 100%. */
  lemma BatteryMisreported(v: Vehicle, p: TrackingPoint, now: int)
    requires p.batteryLevel == 40
    ensures FormatVehicleData(Vehicles.ListedVehicle(v, [p]), now).battery != p.batteryLevel
  {
  }

  /** `formatVehicleData` reading the battery of the latest sample the
      listing carries. */
  function FormatListedVehicle(l: Vehicles.ListedVehicle, now: int): (c: Card)
    ensures |l.trackingPoints| > 0 && l.trackingPoints[0].batteryLevel != 0 ==>
      c.battery == l.trackingPoints[0].batteryLevel
    ensures |l.trackingPoints| == 0 ==> c.battery == 100
  {
    CardOf(l.vehicle, if |l.trackingPoints| > 0 then Some(l.trackingPoints[0].batteryLevel) else None, now)
  }

  /** The card of a listed vehicle shows the battery of that vehicle's latest
      stored sample, when it has one with a non-zero level. */
  lemma ListedBattery(db: Database, i: nat, now: int)
    requires db.Valid()
    requires i < |db.vehicles|
    ensures var l := Vehicles.ListVehicles(db.vehicles, db.points)[i];
      var latest := Vehicles.LatestPoint(db.points, l.vehicle.id);
      latest.Some? && latest.value.batteryLevel != 0 ==>
        FormatListedVehicle(l, now).battery == latest.value.batteryLevel
  {
  }

  /** `getTotalStoppedTime(card)` at the browser clock `now`: the stored
      total plus, during a stop, the whole seconds since it began. */
  function TotalStoppedTime(c: Card, now: int): (t: int)
    ensures !InOpenStop(c.status, c.stoppedAt) ==> t == c.totalStoppedTime
    ensures InOpenStop(c.status, c.stoppedAt) ==>
      t == c.totalStoppedTime + ElapsedSeconds(now, c.stoppedAt.value)
  {
    var total := c.totalStoppedTime;
    if InOpenStop(c.status, c.stoppedAt) then total + ElapsedSeconds(now, c.stoppedAt.value) else total
  }

  /** At the moment the card is made, the running total is the stored total
      plus the card's current stop. */
  lemma TotalAtFormatting(v: Vehicle, latestBattery: Option<int>, now: int)
    ensures TotalStoppedTime(CardOf(v, latestBattery, now), now)
      == v.totalStoppedTime + CardOf(v, latestBattery, now).currentStoppedTime
  {
  }

  /** During a stop the running total never falls as the clock advances, and
      it grows by at least the whole seconds elapsed, less one. */
  lemma TotalGrows(c: Card, t1: int, t2: int)
    requires InOpenStop(c.status, c.stoppedAt) && t1 <= t2
    ensures TotalStoppedTime(c, t1) <= TotalStoppedTime(c, t2)
    ensures TotalStoppedTime(c, t2) - TotalStoppedTime(c, t1) >= (t2 - t1) / 1000 - 1
  {
    var s := c.stoppedAt.value;
    DivMonotone(t1 - s, t2 - s);
  }

  lemma DivMonotone(a: int, b: int)
    requires a <= b
    ensures a / 1000 <= b / 1000
    ensures b / 1000 - a / 1000 >= (b - a) / 1000 - 1
  {
    var qa, qb, qd := a / 1000, b / 1000, (b - a) / 1000;
    assert a == qa * 1000 + a % 1000;
    assert b == qb * 1000 + b % 1000;
    assert b - a == qd * 1000 + (b - a) % 1000;
  }
}
