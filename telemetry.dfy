/** The stored entities of the fleet tracker: vehicles with their live status,
    the tracking points GPS devices send, trips, daily reports and drivers, and
    the in-memory database holding one table per entity. */
module Telemetry {
  import opened Values

  /** A vehicle's live status column: `'moving'`, `'stopped'` or `'turnoff'`. */
  datatype Status = Moving | Stopped | TurnOff

  datatype TrackingPoint = TrackingPoint(
    vehicleId: int,
    latitude: real,
    longitude: real,
    speed: real,          // km/h
    batteryLevel: int,
    timestamp: int)       // ms

  /** The sort key of `orderBy: { timestamp: 'asc' }`. */
  function Timestamp(p: TrackingPoint): int
  {
    p.timestamp
  }

  datatype Vehicle = Vehicle(
    id: int,
    name: string,
    plateNumber: string,
    deviceImei: string,
    driverName: Option<string>,
    driverPhone: Option<string>,
    status: Status,
    lastLatitude: Option<real>,
    lastLongitude: Option<real>,
    lastSpeed: Option<real>,
    lastUpdate: Option<int>,      // ms
    stoppedAt: Option<int>,       // ms, start of the current stop
    totalStoppedTime: int)        // seconds

  /** A trip's `arrivalStatus` column when it is set. */
  datatype ArrivalStatus = InProgress | NotSet | Arrived

  datatype Trip = Trip(
    id: int,
    vehicleId: int,
    startTime: int,
    endTime: Option<int>,
    distance: real,
    avgSpeed: real,
    maxSpeed: real,
    stops: int,
    notes: Option<string>,
    destinationLat: Option<real>,
    destinationLng: Option<real>,
    destinationName: Option<string>,
    arrivalStatus: Option<ArrivalStatus>,
    arrivalTime: Option<int>)

  /** The computed columns of a daily report. Durations are whole minutes. */
  datatype DailyStats = DailyStats(
    totalDistance: real,
    totalDuration: int,
    totalStoppedTime: int,
    totalMovingTime: int,
    maxSpeed: real,
    avgSpeed: real,
    numberOfStops: int,
    longestStop: int,
    firstMovement: Option<int>,
    lastMovement: Option<int>,
    startLat: real,
    startLng: real,
    endLat: real,
    endLng: real)

  /** A daily report, unique per (vehicleId, day). */
  datatype DailyReport = DailyReport(id: int, vehicleId: int, day: int, stats: DailyStats)

  datatype Driver = Driver(
    id: int,
    name: string,
    phone: string,
    address: string,
    nationalId: Option<string>,
    province: Option<string>,
    birthDate: Option<int>,
    notes: Option<string>,
    createdAt: int)

  /** The great-circle distance in km between (lat1, lon1) and (lat2, lon2). */
  type Distance = (real, real, real, real) -> real

  /** The database: one table per entity, each an ordered sequence of rows in
      insertion order, and one auto-increment counter per table. */
  class Database {
    var vehicles: seq<Vehicle>
    var points: seq<TrackingPoint>
    var trips: seq<Trip>
    var reports: seq<DailyReport>
    var drivers: seq<Driver>
    var nextVehicleId: int
    var nextTripId: int
    var nextReportId: int
    var nextDriverId: int

    /** The table constraints: primary keys are unique and below their
        counter, and the unique columns (a vehicle's IMEI, a report's
        (vehicleId, day), a driver's phone and national id) are unique. */
    predicate Valid()
      reads this
    {
      && VehiclesValid(vehicles, nextVehicleId)
      && TripsValid(trips, nextTripId)
      && ReportsValid(reports, nextReportId)
      && DriversValid(drivers, nextDriverId)
    }

    constructor ()
      ensures Valid()
      ensures vehicles == [] && points == [] && trips == [] && reports == [] && drivers == []
    {
      vehicles := [];
      points := [];
      trips := [];
      reports := [];
      drivers := [];
      nextVehicleId := 1;
      nextTripId := 1;
      nextReportId := 1;
      nextDriverId := 1;
    }
  }

  /** Vehicle ids are unique and below the counter, and no two vehicles share
      an IMEI. */
  predicate VehiclesValid(vehicles: seq<Vehicle>, nextId: int)
  {
    && (forall i :: 0 <= i < |vehicles| ==> vehicles[i].id < nextId)
    && (forall i, j :: 0 <= i < j < |vehicles| ==>
          vehicles[i].id != vehicles[j].id && vehicles[i].deviceImei != vehicles[j].deviceImei)
  }

  /** Trip ids are unique and below the counter. */
  predicate TripsValid(trips: seq<Trip>, nextId: int)
  {
    && (forall i :: 0 <= i < |trips| ==> trips[i].id < nextId)
    && (forall i, j :: 0 <= i < j < |trips| ==> trips[i].id != trips[j].id)
  }

  /** Driver ids are unique and below the counter, and no two drivers share
      a phone or a national id. */
  predicate DriversValid(drivers: seq<Driver>, nextId: int)
  {
    && (forall i :: 0 <= i < |drivers| ==> drivers[i].id < nextId)
    && (forall i, j :: 0 <= i < j < |drivers| ==>
          drivers[i].id != drivers[j].id && drivers[i].phone != drivers[j].phone)
    && (forall i, j :: 0 <= i < j < |drivers| && drivers[i].nationalId.Some? ==>
          drivers[i].nationalId != drivers[j].nationalId)
  }

  /** Replacing a vehicle row by one with the same id and IMEI keeps the
      vehicle table valid. */
  lemma ReplaceVehicle(vehicles: seq<Vehicle>, nextId: int, i: nat, v: Vehicle)
    requires VehiclesValid(vehicles, nextId) && i < |vehicles|
    requires v.id == vehicles[i].id && v.deviceImei == vehicles[i].deviceImei
    ensures VehiclesValid(vehicles[i := v], nextId)
  {
  }

  /** Rewriting trips in place, ids unchanged, keeps the trip table valid. */
  lemma SameTripIds(trips: seq<Trip>, trips': seq<Trip>, nextId: int)
    requires TripsValid(trips, nextId) && |trips'| == |trips|
    requires forall j :: 0 <= j < |trips| ==> trips'[j].id == trips[j].id
    ensures TripsValid(trips', nextId)
  {
  }

  /** Report ids are unique and below the counter, and no two reports share
      a (vehicleId, day) key. */
  predicate ReportsValid(reports: seq<DailyReport>, nextId: int)
  {
    && (forall i :: 0 <= i < |reports| ==> reports[i].id < nextId)
    && (forall i, j :: 0 <= i < j < |reports| ==>
          reports[i].id != reports[j].id
          && (reports[i].vehicleId, reports[i].day) != (reports[j].vehicleId, reports[j].day))
  }
}
