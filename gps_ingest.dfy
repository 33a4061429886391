/** Live ingestion of one GPS sample (`processGPSData`, shared by the POST and
    GET handlers of the GPS endpoint): alias and default resolution, the
    vehicle's status / stop-time state machine, the stored tracking point and
    the one-shot trip-arrival check. */
module GpsIngest {
  import opened Values
  import opened Lists
  import opened Telemetry

  /** The fields a device may send, under every alias the endpoint accepts.
      An IMEI alias that is absent or empty is `""`. */
  datatype GpsPayload = GpsPayload(
    deviceImei: string, imei: string, id: string,
    latitude: Raw, lat: Raw,
    longitude: Raw, lng: Raw, lon: Raw,
    speed: Raw, spd: Raw,
    batteryLevel: Raw, battery: Raw, bat: Raw,
    timestamp: Raw, time: Raw, date: Raw)

  /** A sample after aliases and defaults are resolved. */
  datatype Sample = Sample(
    imei: string, latitude: real, longitude: real, speed: real, batteryLevel: int, timestamp: int)

  datatype GpsResult = Ok(point: TrackingPoint, vehicle: Vehicle) | Failed(status: int)

  /** Speeds above 5 km/h count as motion. */
  const MOVING_SPEED: real := 5.0
  /** A vehicle within 0.1 km of its trip's destination has arrived. */
  const ARRIVAL_RADIUS_KM: real := 0.1

  predicate IsMoving(speed: real)
  {
    speed > MOVING_SPEED
  }

  /** Previous motion is judged from the stored `lastSpeed`, not the status. */
  predicate WasMoving(v: Vehicle)
  {
    OrZeroReal(v.lastSpeed) > MOVING_SPEED
  }

  function ImeiOf(data: GpsPayload): string
  {
    if data.deviceImei != "" then data.deviceImei else if data.imei != "" then data.imei else data.id
  }

  /** Alias resolution, defaults and the required-field check: `None` is the
      400 answer. `receivedAt` is the server clock. */
  function Resolve(data: GpsPayload, receivedAt: int): (r: Option<Sample>)
    ensures r.None? <==>
      ImeiOf(data) == "" || Or(data.latitude, data.lat).Absent?
      || Or(Or(data.longitude, data.lng), data.lon).Absent?
    ensures r.Some? ==> r.value.imei == ImeiOf(data) && r.value.imei != ""
    ensures r.Some? && !Truthy(data.speed) && !Truthy(data.spd) ==> r.value.speed == 0.0
    ensures r.Some? && Truthy(data.speed) ==> r.value.speed == data.speed.value
    ensures r.Some? && !Truthy(data.batteryLevel) && !Truthy(data.battery) && !Truthy(data.bat) ==>
      r.value.batteryLevel == 100
    ensures r.Some? && !Truthy(data.timestamp) && !Truthy(data.time) && !Truthy(data.date) ==>
      r.value.timestamp == receivedAt
    ensures r.Some? && Truthy(data.timestamp) ==> r.value.timestamp == Trunc(data.timestamp.value)
    // the first truthy alias wins; a falsy present value of the last alias is still read
    ensures r.Some? && Truthy(data.latitude) ==> r.value.latitude == data.latitude.value
    ensures r.Some? && !Truthy(data.latitude) ==> !data.lat.Absent? && r.value.latitude == data.lat.value
    ensures r.Some? && Truthy(data.longitude) ==> r.value.longitude == data.longitude.value
    ensures r.Some? && !Truthy(data.longitude) && Truthy(data.lng) ==> r.value.longitude == data.lng.value
    ensures r.Some? && !Truthy(data.longitude) && !Truthy(data.lng) ==>
      !data.lon.Absent? && r.value.longitude == data.lon.value
    ensures r.Some? && !Truthy(data.speed) && Truthy(data.spd) ==> r.value.speed == data.spd.value
    ensures r.Some? && Truthy(data.batteryLevel) ==> r.value.batteryLevel == Trunc(data.batteryLevel.value)
    ensures r.Some? && !Truthy(data.batteryLevel) && Truthy(data.battery) ==>
      r.value.batteryLevel == Trunc(data.battery.value)
    ensures r.Some? && !Truthy(data.batteryLevel) && !Truthy(data.battery) && Truthy(data.bat) ==>
      r.value.batteryLevel == Trunc(data.bat.value)
    ensures r.Some? && !Truthy(data.timestamp) && Truthy(data.time) ==>
      r.value.timestamp == Trunc(data.time.value)
    ensures r.Some? && !Truthy(data.timestamp) && !Truthy(data.time) && Truthy(data.date) ==>
      r.value.timestamp == Trunc(data.date.value)
  {
    var imei := ImeiOf(data);
    var latitude := Or(data.latitude, data.lat);
    var longitude := Or(Or(data.longitude, data.lng), data.lon);
    var speed := Or(Or(data.speed, data.spd), Number(0.0));
    var battery := Or(Or(Or(data.batteryLevel, data.battery), data.bat), Number(100.0));
    var timestamp := Or(Or(data.timestamp, data.time), data.date);
    if imei == "" || latitude.Absent? || longitude.Absent? then None
    else
      Some(Sample(
        imei,
        ParseFloat(latitude),
        ParseFloat(longitude),
        ParseFloat(speed),
        ParseInt(battery),
        if Truthy(timestamp) then Trunc(timestamp.value) else receivedAt))
  }

  /** The new status column. */
  function NextStatus(v: Vehicle, speed: real): (s: Status)
    ensures s == Moving <==> IsMoving(speed)
    ensures s == TurnOff <==> v.status == TurnOff && !IsMoving(speed)
    ensures s == Stopped <==> v.status != TurnOff && !IsMoving(speed)
  {
    if v.status == TurnOff && !IsMoving(speed) then TurnOff
    else if IsMoving(speed) then Moving
    else Stopped
  }

  /** `Math.floor((t - since) / 1000)`: whole seconds, rounded down, not clamped. */
  function GapSeconds(t: int, since: int): int
  {
    (t - since) / 1000
  }

  /** The vehicle row after the sample `s` (the `updateData` of the handler). */
  function NextVehicle(v: Vehicle, s: Sample): (r: Vehicle)
    ensures r.id == v.id && r.deviceImei == v.deviceImei && r.name == v.name
    ensures r.plateNumber == v.plateNumber
    ensures r.driverName == v.driverName && r.driverPhone == v.driverPhone
    ensures r.status == NextStatus(v, s.speed)
    ensures r.lastLatitude == Some(s.latitude) && r.lastLongitude == Some(s.longitude)
    ensures r.lastSpeed == Some(s.speed) && r.lastUpdate == Some(s.timestamp)
    // a moving sample closes any stop, adding the gap since the last update
    ensures IsMoving(s.speed) ==> r.stoppedAt.None?
    ensures IsMoving(s.speed) && !WasMoving(v) && v.stoppedAt.Some? && v.lastUpdate.Some? ==>
      r.totalStoppedTime == v.totalStoppedTime + GapSeconds(s.timestamp, v.lastUpdate.value)
    ensures IsMoving(s.speed) && !(!WasMoving(v) && v.stoppedAt.Some? && v.lastUpdate.Some?) ==>
      r.totalStoppedTime == v.totalStoppedTime
    // a stopped sample after motion opens a stop
    ensures !IsMoving(s.speed) && WasMoving(v) && v.lastUpdate.Some? ==>
      r.stoppedAt == Some(s.timestamp) && r.totalStoppedTime == v.totalStoppedTime
    // a stopped sample during a stop extends it
    ensures !IsMoving(s.speed) && !WasMoving(v) && v.stoppedAt.Some? && v.lastUpdate.Some? ==>
      r.stoppedAt == v.stoppedAt
      && r.totalStoppedTime == v.totalStoppedTime + GapSeconds(s.timestamp, v.lastUpdate.value)
    // a stopped sample with no stop open and no prior motion opens one
    ensures !IsMoving(s.speed) && !(WasMoving(v) && v.lastUpdate.Some?) && v.stoppedAt.None? ==>
      r.stoppedAt == Some(s.timestamp) && r.totalStoppedTime == v.totalStoppedTime
    // a stopped sample with a stop open but no previous update changes neither stop field
    ensures !IsMoving(s.speed) && v.stoppedAt.Some? && v.lastUpdate.None? ==>
      r.stoppedAt == v.stoppedAt && r.totalStoppedTime == v.totalStoppedTime
  {
    var base := v.(
      lastLatitude := Some(s.latitude),
      lastLongitude := Some(s.longitude),
      lastSpeed := Some(s.speed),
      status := NextStatus(v, s.speed),
      lastUpdate := Some(s.timestamp));
    if !IsMoving(s.speed) then
      if WasMoving(v) && v.lastUpdate.Some? then
        base.(stoppedAt := Some(s.timestamp))
      else if !WasMoving(v) && v.stoppedAt.Some? && v.lastUpdate.Some? then
        base.(totalStoppedTime := v.totalStoppedTime + GapSeconds(s.timestamp, v.lastUpdate.value))
      else if v.stoppedAt.None? then
        base.(stoppedAt := Some(s.timestamp))
      else
        base
    else if !WasMoving(v) && v.stoppedAt.Some? && v.lastUpdate.Some? then
      base.(totalStoppedTime := v.totalStoppedTime + GapSeconds(s.timestamp, v.lastUpdate.value),
            stoppedAt := None)
    else
      base.(stoppedAt := None)
  }

  /** The stored tracking point of sample `s` for vehicle `vehicleId`. */
  function PointOf(vehicleId: int, s: Sample): (p: TrackingPoint)
    ensures p.vehicleId == vehicleId && p.timestamp == s.timestamp && p.speed == s.speed
    ensures p.latitude == s.latitude && p.longitude == s.longitude
    ensures p.batteryLevel == s.batteryLevel
  {
    TrackingPoint(vehicleId, s.latitude, s.longitude, s.speed, s.batteryLevel, s.timestamp)
  }

  /** A destination coordinate is usable when it is set and not 0 (truthy). */
  predicate DestinationSet(c: Option<real>)
  {
    c.Some? && c.value != 0.0
  }

  /** The trips the arrival check considers for vehicle `vid`: open trips with
      a destination whose status is in progress, not set, or empty. */
  predicate Watched(trip: Trip, vid: int)
  {
    && trip.vehicleId == vid
    && trip.endTime.None?
    && DestinationSet(trip.destinationLat) && DestinationSet(trip.destinationLng)
    && (trip.arrivalStatus.None? || trip.arrivalStatus == Some(InProgress)
        || trip.arrivalStatus == Some(NotSet))
  }

  predicate Reached(trip: Trip, s: Sample, dist: Distance)
    requires trip.destinationLat.Some? && trip.destinationLng.Some?
  {
    dist(s.latitude, s.longitude, trip.destinationLat.value, trip.destinationLng.value)
      < ARRIVAL_RADIUS_KM
  }

  /** One step of the arrival loop for vehicle `vid` at sample `s`. */
  function Arrive(trip: Trip, vid: int, s: Sample, dist: Distance): (r: Trip)
    ensures Watched(trip, vid) && Reached(trip, s, dist) ==>
      r == trip.(arrivalStatus := Some(Arrived), arrivalTime := Some(s.timestamp))
    ensures !(Watched(trip, vid) && Reached(trip, s, dist)) ==> r == trip
    ensures trip.arrivalStatus == Some(Arrived) ==> r == trip
    ensures r.id == trip.id
  {
    if Watched(trip, vid) && Reached(trip, s, dist) && trip.arrivalStatus != Some(Arrived) then
      trip.(arrivalStatus := Some(Arrived), arrivalTime := Some(s.timestamp))
    else
      trip
  }

  /** The arrival check is one-shot: once a sample has marked a trip arrived,
      no later sample changes it, whatever its position and time. */
  lemma ArriveOnce(trip: Trip, vid: int, s1: Sample, s2: Sample, dist: Distance)
    requires Arrive(trip, vid, s1, dist) != trip
    ensures Arrive(trip, vid, s1, dist).arrivalStatus == Some(Arrived)
    ensures Arrive(Arrive(trip, vid, s1, dist), vid, s2, dist) == Arrive(trip, vid, s1, dist)
  {
  }

  function ArriveAll(trips: seq<Trip>, vid: int, s: Sample, dist: Distance): (r: seq<Trip>)
    ensures |r| == |trips|
    ensures forall i :: 0 <= i < |trips| ==> r[i] == Arrive(trips[i], vid, s, dist)
  {
    seq(|trips|, i requires 0 <= i < |trips| => Arrive(trips[i], vid, s, dist))
  }

  function VehicleByImei(vehicles: seq<Vehicle>, imei: string): (r: Option<nat>)
    ensures r.Some? ==> r.value < |vehicles| && vehicles[r.value].deviceImei == imei
    ensures r.None? ==> forall i :: 0 <= i < |vehicles| ==> vehicles[i].deviceImei != imei
  {
    IndexOf(vehicles, (v: Vehicle) => v.deviceImei == imei)
  }

  /** `processGPSData`. A missing IMEI or coordinate answers 400 and an unknown
      IMEI 404, writing nothing; otherwise the point is appended, the vehicle
      row replaced by its successor state, and every watched trip within the
      arrival radius marked arrived. */
  method ProcessGPSData(db: Database, data: GpsPayload, receivedAt: int, dist: Distance)
    returns (r: GpsResult)
    requires db.Valid()
    modifies db
    ensures db.Valid()
    ensures Resolve(data, receivedAt).None? ==> r == Failed(400)
    ensures (Resolve(data, receivedAt).Some?
      && VehicleByImei(old(db.vehicles), Resolve(data, receivedAt).value.imei).None?) ==>
        r == Failed(404)
    ensures r.Failed? ==>
      db.vehicles == old(db.vehicles) && db.points == old(db.points) && db.trips == old(db.trips)
    ensures r.Ok? ==>
      var s := Resolve(data, receivedAt).value;
      var i := VehicleByImei(old(db.vehicles), s.imei).value;
      var v := old(db.vehicles)[i];
      && r.vehicle == NextVehicle(v, s)
      && r.point == PointOf(v.id, s)
      && db.points == old(db.points) + [r.point]
      && db.vehicles == old(db.vehicles)[i := r.vehicle]
      && db.trips == ArriveAll(old(db.trips), v.id, s, dist)
    ensures r.Ok? <==> (Resolve(data, receivedAt).Some?
      && VehicleByImei(old(db.vehicles), Resolve(data, receivedAt).value.imei).Some?)
    ensures db.reports == old(db.reports) && db.drivers == old(db.drivers)
    ensures db.nextVehicleId == old(db.nextVehicleId) && db.nextTripId == old(db.nextTripId)
    ensures db.nextReportId == old(db.nextReportId) && db.nextDriverId == old(db.nextDriverId)
  {
    var sample := Resolve(data, receivedAt);
    if sample.None? {
      return Failed(400);
    }
    var s := sample.value;
    var found := VehicleByImei(db.vehicles, s.imei);
    if found.None? {
      return Failed(404);
    }
    var i := found.value;
    var point, updated := ApplySample(db, i, s, dist);
    r := Ok(point, updated);
  }

  /** The writes of `processGPSData` once the vehicle is found at row `i`:
      the point is appended, the row replaced by its successor state, and
      the open trips checked for arrival one by one. */
  method ApplySample(db: Database, i: nat, s: Sample, dist: Distance)
    returns (point: TrackingPoint, updated: Vehicle)
    requires db.Valid() && i < |db.vehicles|
    modifies db
    ensures db.Valid()
    ensures point == PointOf(old(db.vehicles)[i].id, s) && updated == NextVehicle(old(db.vehicles)[i], s)
    ensures db.points == old(db.points) + [point]
    ensures db.vehicles == old(db.vehicles)[i := updated]
    ensures db.trips == ArriveAll(old(db.trips), old(db.vehicles)[i].id, s, dist)
    ensures db.reports == old(db.reports) && db.drivers == old(db.drivers)
    ensures db.nextVehicleId == old(db.nextVehicleId) && db.nextTripId == old(db.nextTripId)
    ensures db.nextReportId == old(db.nextReportId) && db.nextDriverId == old(db.nextDriverId)
  {
    var vehicle := db.vehicles[i];
    point := PointOf(vehicle.id, s);
    updated := NextVehicle(vehicle, s);

    var trips := db.trips;
    var k := 0;
    while k < |trips|
      invariant 0 <= k <= |trips| == |db.trips|
      invariant forall j :: 0 <= j < k ==> trips[j] == Arrive(db.trips[j], vehicle.id, s, dist)
      invariant forall j :: k <= j < |trips| ==> trips[j] == db.trips[j]
    {
      trips := trips[k := Arrive(trips[k], vehicle.id, s, dist)];
      k := k + 1;
    }
    ReplaceVehicle(db.vehicles, db.nextVehicleId, i, updated);
    SameTripIds(db.trips, trips, db.nextTripId);
    db.points := db.points + [point];
    db.vehicles := db.vehicles[i := updated];
    db.trips := trips;
  }

  /** The vehicle row after a sequence of samples, in arrival order. */
  function Replay(v: Vehicle, ss: seq<Sample>): Vehicle
    decreases |ss|
  {
    if |ss| == 0 then v else Replay(NextVehicle(v, ss[0]), ss[1..])
  }

  function Times(ss: seq<Sample>): (ts: seq<int>)
    ensures |ts| == |ss|
  {
    if |ss| == 0 then [] else [ss[0].timestamp] + Times(ss[1..])
  }

  /** The sum of the floored one-second gaps between consecutive instants. */
  function FlooredGaps(ts: seq<int>): int
  {
    if |ts| < 2 then 0 else GapSeconds(ts[1], ts[0]) + FlooredGaps(ts[1..])
  }

  lemma {:induction false} ReplayAppend(v: Vehicle, a: seq<Sample>, b: seq<Sample>)
    ensures Replay(v, a + b) == Replay(Replay(v, a), b)
    decreases |a|
  {
    if |a| > 0 {
      ReplayAppend(NextVehicle(v, a[0]), a[1..], b);
      assert (a + b)[1..] == a[1..] + b;
    } else {
      assert a + b == b;
    }
  }

  /** During a stop every further stopped sample adds its floored gap to the
      stored stop time, and the stop keeps its start. */
  lemma {:induction false} StoppedRun(v: Vehicle, ss: seq<Sample>)
    requires !WasMoving(v) && v.stoppedAt.Some? && v.lastUpdate.Some?
    requires forall i :: 0 <= i < |ss| ==> !IsMoving(ss[i].speed)
    ensures Replay(v, ss).totalStoppedTime
      == v.totalStoppedTime + FlooredGaps([v.lastUpdate.value] + Times(ss))
    ensures Replay(v, ss).stoppedAt == v.stoppedAt
    ensures !WasMoving(Replay(v, ss)) && Replay(v, ss).lastUpdate.Some?
    ensures |ss| > 0 ==> Replay(v, ss).lastUpdate == Some(ss[|ss| - 1].timestamp)
    ensures |ss| == 0 ==> Replay(v, ss).lastUpdate == v.lastUpdate
    decreases |ss|
  {
    if |ss| > 0 {
      var w := NextVehicle(v, ss[0]);
      StoppedRun(w, ss[1..]);
      assert ([v.lastUpdate.value] + Times(ss))[1..] == Times(ss);
      if |ss| > 1 {
        assert ss[1..][|ss[1..]| - 1] == ss[|ss| - 1];
      }
    }
  }

  /** Moving, then k >= 1 stopped samples, then a moving sample: the stored
      stop time grows by the floored gaps from the first stopped sample to the
      moving one, and the stop is closed. */
  lemma StopThenMove(v: Vehicle, stopped: seq<Sample>, m: Sample)
    requires WasMoving(v) && v.lastUpdate.Some?
    requires |stopped| >= 1
    requires forall i :: 0 <= i < |stopped| ==> !IsMoving(stopped[i].speed)
    requires IsMoving(m.speed)
    ensures Replay(v, stopped + [m]).totalStoppedTime
      == v.totalStoppedTime + FlooredGaps(Times(stopped) + [m.timestamp])
    ensures Replay(v, stopped + [m]).stoppedAt.None?
    ensures Replay(v, stopped + [m]).status == Moving
  {
    var w := NextVehicle(v, stopped[0]);
    assert w.stoppedAt == Some(stopped[0].timestamp) && w.totalStoppedTime == v.totalStoppedTime;
    assert w.lastUpdate == Some(stopped[0].timestamp) && !WasMoving(w);
    StoppedRun(w, stopped[1..]);
    var u := Replay(w, stopped[1..]);
    assert Replay(v, stopped) == u;
    ReplayAppend(v, stopped, [m]);
    assert Replay(u, [m]) == NextVehicle(u, m);
    var ts := Times(stopped);
    assert ts == [w.lastUpdate.value] + Times(stopped[1..]);
    assert u.lastUpdate == Some(ts[|ts| - 1]) by {
      if |stopped| > 1 {
        assert stopped[|stopped| - 1].timestamp == ts[|ts| - 1] by { TimesLast(stopped); }
      }
    }
    GapsSnoc(ts, m.timestamp);
  }

  lemma {:induction false} TimesLast(ss: seq<Sample>)
    requires |ss| > 0
    ensures Times(ss)[|ss| - 1] == ss[|ss| - 1].timestamp
  {
    if |ss| > 1 {
      TimesLast(ss[1..]);
    }
  }

  lemma {:induction false} GapsSnoc(ts: seq<int>, t: int)
    requires |ts| >= 1
    ensures FlooredGaps(ts + [t]) == FlooredGaps(ts) + GapSeconds(t, ts[|ts| - 1])
  {
    if |ts| > 1 {
      GapsSnoc(ts[1..], t);
      assert (ts + [t])[1..] == ts[1..] + [t];
    }
  }
}
