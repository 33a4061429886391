/** The trips tab of the dashboard: the duration shown for a trip, the body
    the trip form sends to `/api/trips`, and the form's reset. */
module TripsTab {
  import opened Values
  import opened Text
  import opened Time
  import opened Telemetry
  import Trips
  import GpsIngest

  // ---------------------------------------------------------------------
  // calculateDuration

  /** What the duration column shows: the in-progress label, or whole hours
      and minutes. */
  datatype Duration = Ongoing | Elapsed(hours: int, minutes: int)

  /** `calculateDuration`: hours are `Math.floor` of the milliseconds over an
      hour; minutes are `Math.floor` of the (truncating) remainder over a
      minute. A trip without an end time is in progress. */
  function CalculateDuration(start: int, end: Option<int>): (d: Duration)
    ensures d.Ongoing? <==> end.None?
    ensures end.Some? && end.value >= start ==>
      && 0 <= d.minutes < 60
      && d.hours * 60 + d.minutes == (end.value - start) / MS_PER_MINUTE
  {
    if end.None? then Ongoing
    else
      var ms := end.value - start;
      var d := Elapsed(ms / MS_PER_HOUR, JsRem(ms, MS_PER_HOUR) / MS_PER_MINUTE);
      assert ms >= 0 ==> d.hours * 60 + d.minutes == ms / MS_PER_MINUTE by {
        if ms >= 0 {
          HoursAndMinutes(ms);
        }
      }
      d
  }

  /** Whole hours and the minutes of the remaining part of an hour make up
      the whole minutes of a non-negative span. */
  lemma HoursAndMinutes(ms: nat)
    ensures ms / MS_PER_HOUR * 60 + ms % MS_PER_HOUR / MS_PER_MINUTE == ms / MS_PER_MINUTE
  {
    var h := ms / MS_PER_HOUR;
    var r := ms % MS_PER_HOUR;
    var m := r / MS_PER_MINUTE;
    assert ms == h * MS_PER_HOUR + r;
    assert r == m * MS_PER_MINUTE + r % MS_PER_MINUTE;
    assert ms == (h * 60 + m) * MS_PER_MINUTE + r % MS_PER_MINUTE;
  }

  /** An end half an hour before the start shows as minus one hour and minus
      thirty minutes: on negative spans the floored hours and the truncated
      remainder both count the partial hour. */
  lemma NegativeSpanCountsTwice()
    ensures CalculateDuration(MS_PER_HOUR, Some(MS_PER_HOUR / 2)) == Elapsed(-1, -30)
  {
    assert JsRem(-MS_PER_HOUR / 2, MS_PER_HOUR) == -1800000;
  }

  /** The rendered column: `'قيد التنفيذ'`, or `${hours}س ${minutes}د`. */
  function DurationText(d: Duration): string
  {
    match d
    case Ongoing => "قيد التنفيذ"
    case Elapsed(h, m) => IntText(h) + "س " + IntText(m) + "د"
  }

  // ---------------------------------------------------------------------
  // handleSave

  /** A form field holding a number: blank, or typed text together with the
      number `parseFloat`/`parseInt` reads from it (`None` for `NaN`). */
  datatype Field<T> = Blank | Typed(reading: Option<T>)

  /** A date-time field: blank, or the instant it denotes. */
  datatype DateField = NoDate | Entered(instant: int)

  /** The trip form's state. */
  datatype TripForm = TripForm(
    vehicleId: Field<int>,
    startTime: DateField,
    endTime: DateField,
    distance: Field<real>,
    avgSpeed: Field<real>,
    maxSpeed: Field<real>,
    stops: Field<int>,
    notes: string,
    destinationLat: Field<real>,
    destinationLng: Field<real>,
    destinationName: string)

  /** A number of the JSON body: `NaN` serialises as `null`. */
  function NumberValue(x: Option<real>): (r: Raw)
    ensures r.Absent? <==> x.None?
    ensures x.Some? ==> r == Number(x.value)
  {
    if x.None? then Absent else Number(x.value)
  }

  /** `parseFloat(field || '0')`. */
  function RealOrZero(f: Field<real>): (r: Raw)
    ensures f.Blank? ==> r == Number(0.0)
    ensures f.Typed? ==> r == NumberValue(f.reading)
  {
    match f
    case Blank => Number(0.0)
    case Typed(x) => NumberValue(x)
  }

  /** `parseInt(field || '0')`. */
  function IntOrZero(f: Field<int>): (r: Raw)
    ensures f.Blank? ==> r == Number(0.0)
    ensures f.Typed? && f.reading.Some? ==> r == Number(f.reading.value as real)
    ensures f.Typed? && f.reading.None? ==> r == Absent
  {
    match f
    case Blank => Number(0.0)
    case Typed(x) => if x.None? then Absent else Number(x.value as real)
  }

  /** `field ? parseFloat(field) : null`. */
  function RealOrNull(f: Field<real>): (r: Raw)
    ensures f.Blank? ==> r == Absent
    ensures f.Typed? ==> r == NumberValue(f.reading)
  {
    match f
    case Blank => Absent
    case Typed(x) => NumberValue(x)
  }

  /** `text || null`. */
  function BlankToNull(s: string): (r: Option<string>)
    ensures r.None? <==> s == ""
    ensures r.Some? ==> r.value == s
  {
    if s == "" then None else Some(s)
  }

  /** A date-time field sent as its text, or `null` when blank. */
  function DateOrNull(f: DateField): (r: Raw)
    ensures r.Absent? <==> f.NoDate?
    ensures f.Entered? ==> Truthy(r) && r.value == f.instant as real
  {
    match f
    case NoDate => Absent
    case Entered(t) => NumericText(t as real)
  }

  /** `tripData`, the body `handleSave` sends. */
  function Payload(form: TripForm): (p: Trips.TripPayload)
    requires !form.vehicleId.Blank? && form.startTime.Entered?
    ensures p.startTime == DateOrNull(form.startTime) && p.endTime == DateOrNull(form.endTime)
    ensures p.vehicleId == IntOrZero(form.vehicleId)
    ensures p.distance == RealOrZero(form.distance) && p.avgSpeed == RealOrZero(form.avgSpeed)
    ensures p.maxSpeed == RealOrZero(form.maxSpeed) && p.stops == IntOrZero(form.stops)
    ensures p.notes == BlankToNull(form.notes) && p.destinationName == BlankToNull(form.destinationName)
    ensures p.destinationLat == RealOrNull(form.destinationLat)
    ensures p.destinationLng == RealOrNull(form.destinationLng)
  {
    Trips.TripPayload(
      IntOrZero(form.vehicleId),
      DateOrNull(form.startTime),
      DateOrNull(form.endTime),
      RealOrZero(form.distance),
      RealOrZero(form.avgSpeed),
      RealOrZero(form.maxSpeed),
      IntOrZero(form.stops),
      BlankToNull(form.notes),
      RealOrNull(form.destinationLat),
      RealOrNull(form.destinationLng),
      BlankToNull(form.destinationName))
  }

  /** What saving does: nothing without a vehicle or a start time; else a
      `POST` of a new trip or a `PUT` of the trip being edited. */
  datatype SaveRequest = NotSent | Post(body: Trips.TripPayload) | Put(tripId: int, body: Trips.TripPayload)

  /** `handleSave`. */
  function Save(form: TripForm, editing: Option<int>): (r: SaveRequest)
    ensures r.NotSent? <==> form.vehicleId.Blank? || form.startTime.NoDate?
    ensures r.Post? ==> editing.None? && r.body == Payload(form)
    ensures r.Put? ==> editing == Some(r.tripId) && r.body == Payload(form)
    ensures !r.NotSent? ==> (r.Post? <==> editing.None?)
  {
    if form.vehicleId.Blank? || form.startTime.NoDate? then NotSent
    else if editing.Some? then Put(editing.value, Payload(form))
    else Post(Payload(form))
  }

  /** The trip `POST /api/trips` creates from a saved form: its vehicle and
      start time as typed, an end time only when one was entered, blank
      numbers as 0, blank or unreadable coordinates as `null`, and the
      `'in_progress'` arrival status exactly when both coordinates were
      typed and read as non-zero numbers. */
  lemma SavedTrip(id: int, form: TripForm, n: int)
    requires form.vehicleId == Typed(Some(n)) && n != 0 && form.startTime.Entered?
    ensures var p := Payload(form);
      Truthy(p.vehicleId) && Truthy(p.startTime)
    ensures var t := Trips.NewTrip(id, Payload(form));
      && t.vehicleId == n && t.startTime == form.startTime.instant
      && (t.endTime.Some? <==> form.endTime.Entered?)
      && (form.distance.Blank? ==> t.distance == 0.0)
      && (form.stops.Blank? ==> t.stops == 0)
      && (form.destinationLat.Blank? ==> t.destinationLat.None?)
      && (form.destinationLng.Blank? ==> t.destinationLng.None?)
      && (t.arrivalStatus == Some(InProgress) <==>
            && form.destinationLat.Typed? && form.destinationLat.reading.Some?
            && form.destinationLat.reading.value != 0.0
            && form.destinationLng.Typed? && form.destinationLng.reading.Some?
            && form.destinationLng.reading.value != 0.0)
  {
    var p := Payload(form);
    assert Trunc(n as real) == n;
    assert Trunc(form.startTime.instant as real) == form.startTime.instant;
  }

  /** From the form, a trip is watched for arrival exactly when it has no
      end time and both coordinates are non-zero numbers: a coordinate typed
      as 0 is sent as the number 0, which the route reads as no
      destination. */
  lemma SavedTripWatched(id: int, form: TripForm, n: int)
    requires form.vehicleId == Typed(Some(n)) && n != 0 && form.startTime.Entered?
    ensures GpsIngest.Watched(Trips.NewTrip(id, Payload(form)), n) <==>
      && form.endTime.NoDate?
      && form.destinationLat.Typed? && form.destinationLat.reading.Some?
      && form.destinationLat.reading.value != 0.0
      && form.destinationLng.Typed? && form.destinationLng.reading.Some?
      && form.destinationLng.reading.value != 0.0
  {
    SavedTrip(id, form, n);
    Trips.NewTripWatched(id, Payload(form));
  }

  // ---------------------------------------------------------------------
  // handleCancel

  /** The editor: whether the add form is open, the trip being edited and
      the form. */
  datatype Editor = Editor(showAddForm: bool, editing: Option<int>, form: TripForm)

  const EMPTY_FORM: TripForm :=
    TripForm(Blank, NoDate, NoDate, Blank, Blank, Blank, Blank, "", Blank, Blank, "")

  /** `handleCancel`: the add form closes, nothing is being edited and every
      field is blank. */
  function Cancel(e: Editor): (r: Editor)
    ensures !r.showAddForm && r.editing.None?
    ensures r.form.vehicleId.Blank? && r.form.startTime.NoDate? && r.form.endTime.NoDate?
    ensures r.form.distance.Blank? && r.form.avgSpeed.Blank? && r.form.maxSpeed.Blank?
    ensures r.form.stops.Blank? && r.form.notes == ""
    ensures r.form.destinationLat.Blank? && r.form.destinationLng.Blank?
    ensures r.form.destinationName == ""
  {
    Editor(false, None, EMPTY_FORM)
  }

  /** Saving right after a cancel sends nothing. */
  lemma SaveAfterCancel(e: Editor)
    ensures Save(Cancel(e).form, Cancel(e).editing) == NotSent
  {
  }
}
