/** `/api/trips`: listing trips with an optional vehicle and start-time
    filter, newest first, and creating a trip from a JSON body with its
    defaults and its initial arrival status. */
module Trips {
  import opened Values
  import opened Lists
  import opened Telemetry
  import GpsIngest

  // ---------------------------------------------------------------------
  // GET

  /** The query string, already read; `startDate`/`endDate` are instants. */
  datatype TripQuery = TripQuery(vehicleId: Option<int>, startDate: Option<int>, endDate: Option<int>)

  /** The `whereClause`: the vehicle only when given, the start-time range
      only when both of its ends are given. */
  predicate TripMatches(q: TripQuery, t: Trip)
  {
    && (q.vehicleId.Some? ==> t.vehicleId == q.vehicleId.value)
    && (q.startDate.Some? && q.endDate.Some? ==>
          q.startDate.value <= t.startTime <= q.endDate.value)
  }

  function LatestFirst(t: Trip): int
  {
    -t.startTime
  }

  /** `findMany` with `orderBy: { startTime: 'desc' }`: a stored trip is
      listed exactly when it matches, each matching row as often as it is
      stored, latest start first. */
  function ListTrips(trips: seq<Trip>, q: TripQuery): (r: seq<Trip>)
    ensures forall t :: t in r <==> t in trips && TripMatches(q, t)
    ensures multiset(r) == multiset(Filter(trips, t => TripMatches(q, t)))
    ensures forall i, j :: 0 <= i < j < |r| ==> r[i].startTime >= r[j].startTime
  {
    var r := Select(trips, t => TripMatches(q, t), LatestFirst);
    SelectExact(trips, t => TripMatches(q, t), LatestFirst);
    assert forall i, j :: 0 <= i < j < |r| ==> LatestFirst(r[i]) <= LatestFirst(r[j]);
    r
  }

  // ---------------------------------------------------------------------
  // POST

  /** The JSON body: numbers and dates as `Raw` fields, text fields as
      strings when present. */
  datatype TripPayload = TripPayload(
    vehicleId: Raw,
    startTime: Raw,
    endTime: Raw,
    distance: Raw,
    avgSpeed: Raw,
    maxSpeed: Raw,
    stops: Raw,
    notes: Option<string>,
    destinationLat: Raw,
    destinationLng: Raw,
    destinationName: Option<string>)

  datatype CreateResult = Created(trip: Trip) | Rejected(status: int)

  /** `parseFloat(x || 0)`. */
  function RealOrZero(x: Raw): (r: real)
    ensures !Truthy(x) ==> r == 0.0
    ensures Truthy(x) ==> r == x.value
  {
    ParseFloat(Or(x, Number(0.0)))
  }

  /** `x ? parseFloat(x) : null`. */
  function RealOrNull(x: Raw): (r: Option<real>)
    ensures r.Some? <==> Truthy(x)
    ensures r.Some? ==> r.value == x.value
  {
    if Truthy(x) then Some(ParseFloat(x)) else None
  }

  /** The arrival status a new trip starts with: it is watched for arrival
      only when both destination coordinates are given. */
  function InitialArrival(data: TripPayload): (s: ArrivalStatus)
    ensures s == InProgress <==> Truthy(data.destinationLat) && Truthy(data.destinationLng)
    ensures s != InProgress ==> s == NotSet
  {
    if Truthy(data.destinationLat) && Truthy(data.destinationLng) then InProgress else NotSet
  }

  /** The row `prisma.trip.create` inserts. */
  function NewTrip(id: int, data: TripPayload): (t: Trip)
    requires Truthy(data.vehicleId) && Truthy(data.startTime)
    ensures t.id == id && t.vehicleId == Trunc(data.vehicleId.value)
    ensures t.startTime == Trunc(data.startTime.value)
    ensures t.endTime.Some? <==> Truthy(data.endTime)
    ensures t.distance == RealOrZero(data.distance) && t.avgSpeed == RealOrZero(data.avgSpeed)
    ensures t.maxSpeed == RealOrZero(data.maxSpeed)
    ensures !Truthy(data.stops) ==> t.stops == 0
    ensures Truthy(data.stops) ==> t.stops == Trunc(data.stops.value)
    ensures t.notes == TextOrNull(data.notes) && t.destinationName == TextOrNull(data.destinationName)
    ensures t.destinationLat == RealOrNull(data.destinationLat)
    ensures t.destinationLng == RealOrNull(data.destinationLng)
    ensures t.arrivalStatus == Some(InitialArrival(data)) && t.arrivalTime.None?
    ensures t.arrivalStatus == Some(InProgress) <==> t.destinationLat.Some? && t.destinationLng.Some?
  {
    Trip(
      id,
      ParseInt(data.vehicleId),
      Trunc(data.startTime.value),
      if Truthy(data.endTime) then Some(Trunc(data.endTime.value)) else None,
      RealOrZero(data.distance),
      RealOrZero(data.avgSpeed),
      RealOrZero(data.maxSpeed),
      ParseInt(Or(data.stops, Number(0.0))),
      TextOrNull(data.notes),
      RealOrNull(data.destinationLat),
      RealOrNull(data.destinationLng),
      TextOrNull(data.destinationName),
      Some(InitialArrival(data)),
      None)
  }

  /** A new open trip is watched by the arrival check of `POST /api/gps`
      exactly when both destination coordinates were given and neither is
      zero: a coordinate sent as the text "0" gives the status
      `'in_progress'` but a falsy stored coordinate, so such a trip never
      arrives. */
  lemma NewTripWatched(id: int, data: TripPayload)
    requires Truthy(data.vehicleId) && Truthy(data.startTime)
    ensures GpsIngest.Watched(NewTrip(id, data), Trunc(data.vehicleId.value)) <==>
      && !Truthy(data.endTime)
      && Truthy(data.destinationLat) && data.destinationLat.value != 0.0
      && Truthy(data.destinationLng) && data.destinationLng.value != 0.0
  {
  }

  predicate VehicleExists(vehicles: seq<Vehicle>, id: int)
  {
    exists i :: 0 <= i < |vehicles| && vehicles[i].id == id
  }

  /** `POST /api/trips`: 400 without a vehicle id or a start time; 500 when
      the vehicle does not exist (the foreign key rejects the row); otherwise
      the new trip is appended with the next id and returned with 201. */
  method CreateTrip(db: Database, data: TripPayload) returns (r: CreateResult)
    requires db.Valid()
    modifies db
    ensures db.Valid()
    ensures !Truthy(data.vehicleId) || !Truthy(data.startTime) ==> r == Rejected(400)
    ensures r.Rejected? ==> db.trips == old(db.trips) && db.nextTripId == old(db.nextTripId)
    ensures r.Created? ==>
      && Truthy(data.vehicleId) && Truthy(data.startTime)
      && VehicleExists(db.vehicles, ParseInt(data.vehicleId))
      && r.trip == NewTrip(old(db.nextTripId), data)
      && db.trips == old(db.trips) + [r.trip]
      && db.nextTripId == old(db.nextTripId) + 1
    ensures Truthy(data.vehicleId) && Truthy(data.startTime) ==>
      (r.Created? <==> VehicleExists(db.vehicles, ParseInt(data.vehicleId)))
    ensures db.vehicles == old(db.vehicles) && db.points == old(db.points)
    ensures db.reports == old(db.reports) && db.drivers == old(db.drivers)
    ensures db.nextVehicleId == old(db.nextVehicleId) && db.nextReportId == old(db.nextReportId)
    ensures db.nextDriverId == old(db.nextDriverId)
  {
    if !Truthy(data.vehicleId) || !Truthy(data.startTime) {
      return Rejected(400);
    }
    var vid := ParseInt(data.vehicleId);
    var found := IndexOf(db.vehicles, (v: Vehicle) => v.id == vid);
    if found.None? {
      return Rejected(500);
    }
    var trip := NewTrip(db.nextTripId, data);
    db.trips := db.trips + [trip];
    db.nextTripId := db.nextTripId + 1;
    r := Created(trip);
  }
}
