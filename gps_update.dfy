/** The older, simpler ingestion endpoint (`POST /api/gps/update`): no field
    aliases, the vehicle lookup before the coordinate check, a two-valued status
    rule and no stop-time bookkeeping. */
module GpsUpdate {
  import opened Values
  import opened Lists
  import opened Telemetry

  /** The JSON body; `deviceImei` must be present (Prisma rejects a lookup by
      `undefined`, which is left out). */
  datatype UpdatePayload = UpdatePayload(
    deviceImei: string, latitude: Raw, longitude: Raw, speed: Raw, batteryLevel: Raw, timestamp: Raw)

  datatype UpdateResult = Updated(point: TrackingPoint, vehicle: Vehicle) | Rejected(status: int)

  /** `parseFloat(speed || 0)`. */
  function SpeedOf(data: UpdatePayload): (r: real)
    ensures !Truthy(data.speed) ==> r == 0.0
    ensures Truthy(data.speed) ==> r == data.speed.value
  {
    ParseFloat(Or(data.speed, Number(0.0)))
  }

  /** The stored point: the sample's own timestamp when given, else the
      server clock read at insertion. */
  function UpdatePoint(vehicleId: int, data: UpdatePayload, clockAtInsert: int): (p: TrackingPoint)
    requires !data.latitude.Absent? && !data.longitude.Absent?
    ensures p.vehicleId == vehicleId && p.speed == SpeedOf(data)
    ensures p.latitude == data.latitude.value && p.longitude == data.longitude.value
    ensures !Truthy(data.batteryLevel) ==> p.batteryLevel == 100
    ensures Truthy(data.batteryLevel) ==> p.batteryLevel == Trunc(data.batteryLevel.value)
    ensures Truthy(data.timestamp) ==> p.timestamp == Trunc(data.timestamp.value)
    ensures !Truthy(data.timestamp) ==> p.timestamp == clockAtInsert
  {
    TrackingPoint(
      vehicleId,
      ParseFloat(data.latitude),
      ParseFloat(data.longitude),
      SpeedOf(data),
      ParseInt(Or(data.batteryLevel, Number(100.0))),
      if Truthy(data.timestamp) then Trunc(data.timestamp.value) else clockAtInsert)
  }

  /** The vehicle row after the update: only the position, speed, status and
      `lastUpdate` (the server clock, never the sample's timestamp) change; a
      `'turnoff'` vehicle is not kept off. */
  function UpdatedVehicle(v: Vehicle, data: UpdatePayload, clockAtUpdate: int): (r: Vehicle)
    requires !data.latitude.Absent? && !data.longitude.Absent?
    ensures r.status == Moving <==> SpeedOf(data) > 5.0
    ensures r.status == Stopped <==> SpeedOf(data) <= 5.0
    ensures r.lastUpdate == Some(clockAtUpdate)
    ensures r.lastSpeed == Some(SpeedOf(data))
    ensures r.lastLatitude == Some(data.latitude.value) && r.lastLongitude == Some(data.longitude.value)
    ensures r.stoppedAt == v.stoppedAt && r.totalStoppedTime == v.totalStoppedTime
    ensures r.id == v.id && r.name == v.name && r.plateNumber == v.plateNumber
    ensures r.deviceImei == v.deviceImei
    ensures r.driverName == v.driverName && r.driverPhone == v.driverPhone
  {
    var speed := SpeedOf(data);
    v.(lastLatitude := Some(ParseFloat(data.latitude)),
       lastLongitude := Some(ParseFloat(data.longitude)),
       lastSpeed := Some(speed),
       status := if speed > 5.0 then Moving else Stopped,
       lastUpdate := Some(clockAtUpdate))
  }

  predicate Registered(vehicles: seq<Vehicle>, imei: string)
  {
    exists i :: 0 <= i < |vehicles| && vehicles[i].deviceImei == imei
  }

  /** `POST /api/gps/update`. An unknown IMEI answers 404 before the payload
      is checked; a known vehicle with a missing coordinate answers 400. Both
      write nothing. Otherwise one point is appended and the vehicle row
      replaced. */
  method UpdatePosition(db: Database, data: UpdatePayload, clockAtInsert: int, clockAtUpdate: int)
    returns (r: UpdateResult)
    requires db.Valid()
    modifies db
    ensures db.Valid()
    ensures !Registered(old(db.vehicles), data.deviceImei) ==> r == Rejected(404)
    ensures (Registered(old(db.vehicles), data.deviceImei)
      && (data.latitude.Absent? || data.longitude.Absent?)) ==> r == Rejected(400)
    ensures r.Updated? <==>
      Registered(old(db.vehicles), data.deviceImei) && !data.latitude.Absent? && !data.longitude.Absent?
    ensures r.Rejected? ==> db.vehicles == old(db.vehicles) && db.points == old(db.points)
    ensures r.Updated? ==>
      && !data.latitude.Absent? && !data.longitude.Absent?
      && (exists i :: 0 <= i < |old(db.vehicles)| && old(db.vehicles)[i].deviceImei == data.deviceImei
            && r.vehicle == UpdatedVehicle(old(db.vehicles)[i], data, clockAtUpdate)
            && r.point == UpdatePoint(old(db.vehicles)[i].id, data, clockAtInsert)
            && db.vehicles == old(db.vehicles)[i := r.vehicle])
      && db.points == old(db.points) + [r.point]
    ensures db.trips == old(db.trips) && db.reports == old(db.reports) && db.drivers == old(db.drivers)
    ensures db.nextVehicleId == old(db.nextVehicleId) && db.nextTripId == old(db.nextTripId)
    ensures db.nextReportId == old(db.nextReportId) && db.nextDriverId == old(db.nextDriverId)
  {
    var found := IndexOf(db.vehicles, (v: Vehicle) => v.deviceImei == data.deviceImei);
    if found.None? {
      return Rejected(404);
    }
    if data.latitude.Absent? || data.longitude.Absent? {
      return Rejected(400);
    }
    var i := found.value;
    var vehicle := db.vehicles[i];
    var point := UpdatePoint(vehicle.id, data, clockAtInsert);
    var updated := UpdatedVehicle(vehicle, data, clockAtUpdate);
    ReplaceVehicle(db.vehicles, db.nextVehicleId, i, updated);
    db.points := db.points + [point];
    db.vehicles := db.vehicles[i := updated];
    r := Updated(point, updated);
  }
}
