/** `/api/drivers`: searching drivers by name, phone or national id, and
    registering a driver with a unique phone number and, when given, a unique
    national id. */
module Drivers {
  import opened Values
  import opened Lists
  import opened Text
  import opened Telemetry

  // ---------------------------------------------------------------------
  // GET

  /** The `OR` of the search: the term occurs, ignoring case, in the name,
      the phone or the national id. */
  predicate SearchMatches(term: string, d: Driver)
  {
    || ContainsInsensitive(d.name, term)
    || ContainsInsensitive(d.phone, term)
    || (d.nationalId.Some? && ContainsInsensitive(d.nationalId.value, term))
  }

  /** The `whereClause`: no condition when the search term is missing or
      empty. */
  predicate Selected(search: Option<string>, d: Driver)
  {
    search.None? || search.value == "" || SearchMatches(search.value, d)
  }

  function NewestFirst(d: Driver): int
  {
    -d.createdAt
  }

  /** `GET /api/drivers`: the selected drivers, each as often as it is
      stored, most recently created first. */
  function SearchDrivers(drivers: seq<Driver>, search: Option<string>): (r: seq<Driver>)
    ensures forall i :: 0 <= i < |r| ==> Selected(search, r[i])
    ensures forall i, j :: 0 <= i < j < |r| ==> r[i].createdAt >= r[j].createdAt
    ensures forall d :: d in r <==> d in drivers && Selected(search, d)
    ensures forall d :: multiset(r)[d] == if Selected(search, d) then multiset(drivers)[d] else 0
  {
    var r := Select(drivers, d => Selected(search, d), NewestFirst);
    SelectExact(drivers, d => Selected(search, d), NewestFirst);
    FilterCount(drivers, d => Selected(search, d));
    assert forall i, j :: 0 <= i < j < |r| ==> NewestFirst(r[i]) <= NewestFirst(r[j]);
    r
  }

  lemma ContainsSelf(s: string)
    ensures Contains(s, s)
  {
    assert OccursAt(s, s, 0) by {
      assert s[0..|s|] == s;
    }
  }

  /** Searching for a driver's full phone number finds that driver. */
  lemma SearchByPhone(drivers: seq<Driver>, i: nat)
    requires i < |drivers|
    ensures drivers[i] in SearchDrivers(drivers, Some(drivers[i].phone))
  {
    ContainsSelf(ToLower(drivers[i].phone));
  }

  // ---------------------------------------------------------------------
  // POST

  /** The JSON body; text fields are `None` when missing. `birthDate` holds
      the instant `new Date(birthDate)` gives, when given. */
  datatype DriverPayload = DriverPayload(
    name: Option<string>,
    phone: Option<string>,
    address: Option<string>,
    nationalId: Option<string>,
    province: Option<string>,
    birthDate: Option<int>,
    notes: Option<string>)

  datatype CreateResult = Created(driver: Driver) | Rejected(status: int)

  /** A text field is truthy when present and non-empty. */
  predicate Given(s: Option<string>)
  {
    s.Some? && s.value != ""
  }

  predicate PhoneTaken(drivers: seq<Driver>, phone: string)
  {
    exists i :: 0 <= i < |drivers| && drivers[i].phone == phone
  }

  predicate NationalIdTaken(drivers: seq<Driver>, nationalId: string)
  {
    exists i :: 0 <= i < |drivers| && drivers[i].nationalId == Some(nationalId)
  }

  /** The row `prisma.driver.create` inserts; absent optional fields are
      null. */
  function NewDriver(id: int, data: DriverPayload, now: int): (d: Driver)
    requires Given(data.name) && Given(data.phone) && Given(data.address)
    ensures d.id == id && d.createdAt == now
    ensures d.name == data.name.value && d.phone == data.phone.value && d.address == data.address.value
    ensures d.nationalId == TextOrNull(data.nationalId) && d.province == TextOrNull(data.province)
    ensures d.notes == TextOrNull(data.notes) && d.birthDate == data.birthDate
  {
    Driver(id, data.name.value, data.phone.value, data.address.value,
           TextOrNull(data.nationalId), TextOrNull(data.province), data.birthDate,
           TextOrNull(data.notes), now)
  }

  /** The three refusals, in the order they are checked. */
  predicate Refused(drivers: seq<Driver>, data: DriverPayload)
  {
    || !Given(data.name) || !Given(data.phone) || !Given(data.address)
    || PhoneTaken(drivers, data.phone.value)
    || (Given(data.nationalId) && NationalIdTaken(drivers, data.nationalId.value))
  }

  /** `POST /api/drivers`: 400 without a name, phone or address, for a phone
      already registered, and for a given national id already registered;
      otherwise the driver is appended with the next id and returned with
      201. `now` is the server clock that fills `createdAt`. */
  method CreateDriver(db: Database, data: DriverPayload, now: int) returns (r: CreateResult)
    requires db.Valid()
    modifies db
    ensures db.Valid()
    ensures r.Rejected? <==> Refused(old(db.drivers), data)
    ensures r.Rejected? ==>
      r.status == 400 && db.drivers == old(db.drivers) && db.nextDriverId == old(db.nextDriverId)
    ensures r.Created? ==>
      && Given(data.name) && Given(data.phone) && Given(data.address)
      && r.driver == NewDriver(old(db.nextDriverId), data, now)
      && db.drivers == old(db.drivers) + [r.driver]
      && db.nextDriverId == old(db.nextDriverId) + 1
    ensures db.vehicles == old(db.vehicles) && db.points == old(db.points)
    ensures db.trips == old(db.trips) && db.reports == old(db.reports)
    ensures db.nextVehicleId == old(db.nextVehicleId) && db.nextTripId == old(db.nextTripId)
    ensures db.nextReportId == old(db.nextReportId)
  {
    if !Given(data.name) || !Given(data.phone) || !Given(data.address) {
      return Rejected(400);
    }
    var phone := data.phone.value;
    var existing := IndexOf(db.drivers, (d: Driver) => d.phone == phone);
    if existing.Some? {
      return Rejected(400);
    }
    if Given(data.nationalId) {
      var nationalId := data.nationalId.value;
      var existingId := IndexOf(db.drivers, (d: Driver) => d.nationalId == Some(nationalId));
      if existingId.Some? {
        return Rejected(400);
      }
    }
    var driver := NewDriver(db.nextDriverId, data, now);
    AppendDriver(db.drivers, db.nextDriverId, driver);
    db.drivers, db.nextDriverId := db.drivers + [driver], db.nextDriverId + 1;
    r := Created(driver);
  }

  /** Appending a driver with the next id, a new phone and no national id or
      a new one keeps the driver table valid. */
  lemma AppendDriver(drivers: seq<Driver>, nextId: int, d: Driver)
    requires DriversValid(drivers, nextId) && d.id == nextId
    requires forall j :: 0 <= j < |drivers| ==> drivers[j].phone != d.phone
    requires d.nationalId.Some? ==> forall j :: 0 <= j < |drivers| ==> drivers[j].nationalId != d.nationalId
    ensures DriversValid(drivers + [d], nextId + 1)
  {
    var s := drivers + [d];
    forall i, j | 0 <= i < j < |s| && s[i].nationalId.Some?
      ensures s[i].nationalId != s[j].nationalId
    {
      if j == |drivers| {
        assert s[j] == d;
      }
    }
  }

  /** Two successful registrations never share a phone number: after the
      first, the second with the same phone is refused. */
  lemma PhonesStayUnique(drivers: seq<Driver>, d: Driver, data: DriverPayload)
    requires Given(data.phone) && data.phone.value == d.phone
    ensures Refused(drivers + [d], data)
  {
    assert (drivers + [d])[|drivers|] == d;
  }
}
