/** `/api/vehicles`: registering a vehicle, which always starts switched
    off, and listing the fleet by id with each vehicle's latest sample. */
module Vehicles {
  import opened Values
  import opened Lists
  import opened Telemetry
  import GpsIngest

  // ---------------------------------------------------------------------
  // POST

  /** The JSON body; a `status` sent by the client is ignored and not
      modelled. */
  datatype VehiclePayload = VehiclePayload(
    name: Option<string>,
    plateNumber: Option<string>,
    deviceImei: Option<string>,
    driverName: Option<string>,
    driverPhone: Option<string>)

  datatype CreateResult = Created(vehicle: Vehicle) | Failed(status: int)

  /** The row `prisma.vehicle.create` inserts: switched off, with no position,
      no stop and no stopped time yet. */
  function NewVehicle(id: int, name: string, plate: string, imei: string, data: VehiclePayload): (v: Vehicle)
    ensures v.id == id && v.name == name && v.plateNumber == plate && v.deviceImei == imei
    ensures v.status == TurnOff
    ensures v.driverName == TextOrNull(data.driverName) && v.driverPhone == TextOrNull(data.driverPhone)
    ensures v.lastLatitude.None? && v.lastLongitude.None? && v.lastSpeed.None? && v.lastUpdate.None?
    ensures v.stoppedAt.None? && v.totalStoppedTime == 0
  {
    Vehicle(id, name, plate, imei, TextOrNull(data.driverName), TextOrNull(data.driverPhone),
            TurnOff, None, None, None, None, None, 0)
  }

  predicate ImeiTaken(vehicles: seq<Vehicle>, imei: string)
  {
    exists i :: 0 <= i < |vehicles| && vehicles[i].deviceImei == imei
  }

  /** `POST /api/vehicles`: the store refuses (500) a body without a name,
      plate number or IMEI and an IMEI already registered; otherwise the
      vehicle is appended with the next id and returned (status 200). */
  method CreateVehicle(db: Database, data: VehiclePayload) returns (r: CreateResult)
    requires db.Valid()
    modifies db
    ensures db.Valid()
    ensures r.Failed? ==>
      r.status == 500 && db.vehicles == old(db.vehicles) && db.nextVehicleId == old(db.nextVehicleId)
    ensures r.Failed? <==>
      data.name.None? || data.plateNumber.None? || data.deviceImei.None?
      || ImeiTaken(old(db.vehicles), data.deviceImei.value)
    ensures r.Created? ==>
      && data.name.Some? && data.plateNumber.Some? && data.deviceImei.Some?
      && r.vehicle == NewVehicle(old(db.nextVehicleId), data.name.value, data.plateNumber.value,
                                 data.deviceImei.value, data)
      && db.vehicles == old(db.vehicles) + [r.vehicle]
      && db.nextVehicleId == old(db.nextVehicleId) + 1
    ensures db.points == old(db.points) && db.trips == old(db.trips)
    ensures db.reports == old(db.reports) && db.drivers == old(db.drivers)
    ensures db.nextTripId == old(db.nextTripId) && db.nextReportId == old(db.nextReportId)
    ensures db.nextDriverId == old(db.nextDriverId)
  {
    if data.name.None? || data.plateNumber.None? || data.deviceImei.None? {
      return Failed(500);
    }
    var imei := data.deviceImei.value;
    var taken := IndexOf(db.vehicles, (v: Vehicle) => v.deviceImei == imei);
    if taken.Some? {
      return Failed(500);
    }
    var vehicle := NewVehicle(db.nextVehicleId, data.name.value, data.plateNumber.value, imei, data);
    db.vehicles := db.vehicles + [vehicle];
    db.nextVehicleId := db.nextVehicleId + 1;
    r := Created(vehicle);
  }

  /** A newly registered vehicle stays `'turnoff'` under the ingest's status
      rule until a sample shows it moving. */
  lemma NewVehicleStaysOff(id: int, name: string, plate: string, imei: string, data: VehiclePayload, speed: real)
    ensures GpsIngest.NextStatus(NewVehicle(id, name, plate, imei, data), speed) == TurnOff
      <==> speed <= GpsIngest.MOVING_SPEED
  {
  }

  // ---------------------------------------------------------------------
  // GET

  /** A listed vehicle with its `trackingPoints`: the latest sample, or none. */
  datatype ListedVehicle = ListedVehicle(vehicle: Vehicle, trackingPoints: seq<TrackingPoint>)

  /** `findFirst` of the vehicle's samples by timestamp, newest first: one of
      the latest samples of vehicle `vid` (the first stored among equally
      recent ones), or none when it has no samples. */
  function LatestPoint(points: seq<TrackingPoint>, vid: int): (r: Option<TrackingPoint>)
    ensures r.None? <==> forall i :: 0 <= i < |points| ==> points[i].vehicleId != vid
    ensures r.Some? ==> r.value in points && r.value.vehicleId == vid
    ensures r.Some? ==> forall i :: 0 <= i < |points| && points[i].vehicleId == vid ==>
      points[i].timestamp <= r.value.timestamp
  {
    if |points| == 0 then None
    else
      var n := |points| - 1;
      var best := LatestPoint(points[..n], vid);
      assert forall i :: 0 <= i < n ==> points[..n][i] == points[i];
      var p := points[n];
      if p.vehicleId != vid then best
      else if best.None? || p.timestamp > best.value.timestamp then Some(p)
      else best
  }

  function ById(v: Vehicle): int
  {
    v.id
  }

  function WithLatest(v: Vehicle, points: seq<TrackingPoint>): (l: ListedVehicle)
    ensures l.vehicle == v && |l.trackingPoints| <= 1
  {
    var latest := LatestPoint(points, v.id);
    ListedVehicle(v, if latest.Some? then [latest.value] else [])
  }

  /** `GET /api/vehicles`: the vehicles by ascending id, each with its latest
      sample. */
  function ListVehicles(vehicles: seq<Vehicle>, points: seq<TrackingPoint>): (r: seq<ListedVehicle>)
    ensures |r| == |vehicles|
    ensures multiset(seq(|r|, i requires 0 <= i < |r| => r[i].vehicle)) == multiset(vehicles)
    ensures forall i, j :: 0 <= i < j < |r| ==> r[i].vehicle.id <= r[j].vehicle.id
    ensures forall i :: 0 <= i < |r| ==> r[i] == WithLatest(r[i].vehicle, points)
  {
    var ordered := SortBy(vehicles, ById);
    var r := seq(|ordered|, i requires 0 <= i < |ordered| => WithLatest(ordered[i], points));
    assert seq(|r|, i requires 0 <= i < |r| => r[i].vehicle) == ordered;
    assert forall i, j :: 0 <= i < j < |r| ==> ById(ordered[i]) <= ById(ordered[j]);
    r
  }

  /** Distinct ids make the listing strictly ascending. */
  lemma ListedAscending(vehicles: seq<Vehicle>, nextId: int, points: seq<TrackingPoint>)
    requires VehiclesValid(vehicles, nextId)
    ensures var r := ListVehicles(vehicles, points);
      forall i, j :: 0 <= i < j < |r| ==> r[i].vehicle.id < r[j].vehicle.id
  {
    var r := ListVehicles(vehicles, points);
    var vs := seq(|r|, i requires 0 <= i < |r| => r[i].vehicle);
    PermutationDistinctKeys(vehicles, vs, ById);
    forall i, j | 0 <= i < j < |r|
      ensures r[i].vehicle.id < r[j].vehicle.id
    {
      assert ById(vs[i]) != ById(vs[j]);
    }
  }

  /** Each listed vehicle carries a sample exactly when it has one, and that
      sample is its latest. */
  lemma ListedLatest(vehicles: seq<Vehicle>, points: seq<TrackingPoint>)
    ensures var r := ListVehicles(vehicles, points);
      forall i :: 0 <= i < |r| ==>
        (|r[i].trackingPoints| == 1 <==>
           exists k :: 0 <= k < |points| && points[k].vehicleId == r[i].vehicle.id)
        && (forall k ::
              0 <= k < |points| && |r[i].trackingPoints| == 1 && points[k].vehicleId == r[i].vehicle.id
              ==> points[k].timestamp <= r[i].trackingPoints[0].timestamp)
  {
    var r := ListVehicles(vehicles, points);
    forall i | 0 <= i < |r|
      ensures |r[i].trackingPoints| == 1 <==>
                exists k :: 0 <= k < |points| && points[k].vehicleId == r[i].vehicle.id
    {
      var latest := LatestPoint(points, r[i].vehicle.id);
      assert r[i].trackingPoints == if latest.Some? then [latest.value] else [];
    }
  }
}
