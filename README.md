# GPS fleet tracking: a Dafny model of its telemetry logic

The system is a fleet-tracking web application. GPS devices post samples
(IMEI, position, speed, battery, time) to an ingestion endpoint. For each
sample it stores a tracking point, updates the vehicle row (status
`moving`/`stopped`/`turnoff`, last position and speed, the start of the
current stop and the accumulated stopped seconds), and marks open trips as
arrived once the vehicle is within 0.1 km of their destination. Daily
reports are derived from the stored points:

- on demand by `GET /api/reports`, which backfills missing (vehicle, day)
  reports and then applies a time-of-day window;
- in bulk by the seed script, whose aggregator differs from the
  endpoint's: it counts speeds above 5 as moving, opens a stop at the
  previous sample, and divides the speed sum by the number of points.

A per-day movement summary feeds the playback page. The dashboard shows each
vehicle's running stopped time. The reports, trips and playback screens
build the queries, the payloads and the replay from the user's input.

The model has one Dafny module per source file, plus a few shared modules:

- `Values`: JavaScript values and operators (`||`, truthiness,
  `parseFloat`/`parseInt`, `Math.round`, the truncating `%`).
- `Time`: instants are integer milliseconds and days are integer day
  numbers. The local time zone is UTC.
- `Text`: `split`, `padStart`, `Number(...)`, and `parseInt` on decimal
  digits.
- `Lists`: filter, stable sort, take, sums and means.
- `Telemetry`: the rows, and the database as a class with one sequence per
  table.

Handlers that write to the database are methods on that object with
`modifies` clauses. Loops in the source (the aggregation loops, the
backfill, the grouping `forEach`s, the input mask, playback's interval) are
loops here, proved against specification functions. Pure code is functions
and lemmas. The Haversine distance is a function-typed parameter `dist`,
and the server or browser clock is an integer parameter.

## Model

| member | source | states |
|---|---|---|
| GpsIngest.Resolve | src/app/api/gps/route.ts:7-48 | A missing IMEI (under all three aliases), latitude or longitude answers 400 (`None`), and only then. Otherwise the IMEI is the first truthy alias. Latitude, longitude, speed, battery and timestamp each take their first truthy alias. The last alias is read even when falsy. A falsy speed gives 0, a falsy battery gives 100, and a missing timestamp gives the receipt time. |
| GpsIngest.NextStatus | src/app/api/gps/route.ts:37-58 | The status is `moving` iff speed > 5. It stays `turnoff` iff it was `turnoff` and the sample is not moving. Otherwise it is `stopped`. |
| GpsIngest.NextVehicle | src/app/api/gps/route.ts:54-88 | Position, speed and `lastUpdate` are always overwritten. A moving sample clears `stoppedAt`; after a stop it adds the floored gap since `lastUpdate`. A stopped sample after motion opens a stop at t. During a stop it keeps `stoppedAt` and adds the floored gap. With no stop open it opens one. With a stop open but no `lastUpdate`, both stop fields are kept. Identity and driver fields are kept. |
| GpsIngest.PointOf | src/app/api/gps/route.ts:42-51 | The stored point carries the vehicle id and the resolved position, speed, battery and time. |
| GpsIngest.Arrive | src/app/api/gps/route.ts:105-124 | A trip turns `arrived`, with the arrival time set to the sample time, exactly when all of these hold: it is watched (open, both destination coordinates truthy, status in progress/not set/empty) and within 0.1 km. Otherwise it is unchanged. An arrived trip is never changed. |
| GpsIngest.ArriveOnce | src/app/api/gps/route.ts:116-124 | The arrival is one-shot: once a sample has marked a trip arrived, no later sample changes it. |
| GpsIngest.ArriveAll | src/app/api/gps/route.ts:97-126 | Every trip goes through the arrival step with the same sample, and no trip is added or removed. |
| GpsIngest.VehicleByImei | src/app/api/gps/route.ts:22-32 | It finds an index whose IMEI matches, or reports that no vehicle has that IMEI. |
| GpsIngest.ProcessGPSData | src/app/api/gps/route.ts:5-133 | 400 when resolution fails and 404 for an unknown IMEI; in both cases points, vehicles and trips are untouched. Otherwise it appends exactly one point, replaces exactly the vehicle's row with its successor, and applies the arrival step to every trip. It succeeds iff the sample resolves and its IMEI is registered. The other tables are untouched. |
| GpsIngest.ApplySample | src/app/api/gps/route.ts:42-126 | For a known vehicle, the handler appends exactly the sample's point, replaces only that vehicle's row with its next state, and puts every trip through the arrival step. The vehicle's id and IMEI are kept, so the tables stay consistent. |
| GpsIngest.StoppedRun | src/app/api/gps/route.ts:69-73 | During a stop, a run of stopped samples adds the sum of the floored gaps between consecutive sample times, and keeps the stop's start. |
| GpsIngest.StopThenMove | src/app/api/gps/route.ts:63-88 | Moving, then k >= 1 stopped samples, then a moving one: the stored stopped time grows by the floored gaps from the first stopped sample to the moving one, and the stop is closed. |
| GpsUpdate.SpeedOf | src/app/api/gps/update/route.ts:44-57 | The speed is the sent speed when it is truthy, and 0 otherwise. |
| GpsUpdate.UpdatePoint | src/app/api/gps/update/route.ts:39-48 | The stored point has the sent coordinates and speed. A truthy battery is stored truncated to an integer, a falsy one as 100. The timestamp is the sample's own when given, else the insertion clock. |
| GpsUpdate.UpdatedVehicle | src/app/api/gps/update/route.ts:51-60 | The status is `moving` iff speed > 5, else `stopped`, so `turnoff` is not preserved. `lastUpdate` is the server clock. Only position, speed, status and `lastUpdate` change; `stoppedAt` and `totalStoppedTime` are kept. |
| GpsUpdate.UpdatePosition | src/app/api/gps/update/route.ts:4-66 | An unknown IMEI answers 404, even when coordinates are missing. A known vehicle with a missing coordinate answers 400. Neither writes anything. It succeeds iff the IMEI is registered and both coordinates are present. Then one point is appended and the vehicle's row is replaced. |
| DailyReports.AggregateDay | src/app/api/reports/route.ts:46-126 | The accumulator loop computes exactly the day's report columns `DayStats`, the specification the lemmas below are about. |
| DailyReports.GapsPartition | src/app/api/reports/route.ts:72-94 | Every gap lands in exactly one of the stopped and moving buckets, so the two together span first to last point. |
| DailyReports.MinutesAddUp | src/app/api/reports/route.ts:105-122 | The floored stopped and moving minutes add up to the floored total duration, or to one less. |
| DailyReports.StopsBounded | src/app/api/reports/route.ts:76-93 | Stops plus moving points never exceed the number of inspected pairs: each stop is opened by a stopped point. |
| DailyReports.StopsIffStopped | src/app/api/reports/route.ts:76-81 | A stop is counted iff some inspected point has speed < 5. Without one, the stopped time is 0, the longest closed stop is 0, and no stop is open. |
| DailyReports.NoStopDay | src/app/api/reports/route.ts:76-102 | A day with no stopped point reports no stops, no stopped time and no longest stop. |
| DailyReports.MaxSpeedIsMax | src/app/api/reports/route.ts:47-70 | maxSpeed is at least 0 and every speed of points 2..n. It is 0 or one of those speeds. |
| DailyReports.MovingSpeedBounds | src/app/api/reports/route.ts:89-92 | The summed moving speeds lie between 5 times the moving count and maxSpeed times the moving count. |
| DailyReports.AvgSpeedBounds | src/app/api/reports/route.ts:104 | avgSpeed is 0 without moving points. Otherwise it lies between 5 and maxSpeed. |
| DailyReports.DipsScenario | src/app/api/reports/route.ts:59-105 | On a concrete five-sample day: 2 stops, avgSpeed 45 (moving points after the first), stopped 29 and moving 26 of 55 minutes, and the open stop closed at the end of the day (904 minutes). |
| DailyReports.DayPoints | src/app/api/reports/route.ts:22-39 | The points fetched are the vehicle's points from 00:00:00.000 to 23:59:59.999 of the day, as a permutation, in ascending time. |
| DailyReports.Upsert | src/app/api/reports/route.ts:107-152 | After the upsert exactly one row has the key (vehicle, day) and it holds the new columns. Rows of other keys are kept. A row is appended iff the key was absent. |
| DailyReports.UpsertIdempotent | src/app/api/reports/route.ts:111-152 | Repeating an upsert with the same columns changes nothing, so it never creates a second row. |
| DailyReports.GenerateDailyReport | src/app/api/reports/route.ts:21-169 | A day without points returns null and writes nothing. Otherwise the report is the day's columns, upserted under (vehicle, day). Other tables are untouched. |
| DailyReports.WriteReports | src/app/api/reports/route.ts:111-152 | The upsert's write replaces only the reports table and its counter, and keeps the table constraints. |
| ReportCoordinator.Fetched | src/app/api/reports/route.ts:180-221 | The stored reports that match the vehicle and date filter, each exactly as often as it is stored, and no other report, newest day first. |
| ReportCoordinator.BackfillDay | src/app/api/reports/route.ts:238-252 | A day already in the answer is skipped with no write. Otherwise the day's report is generated and upserted, and appended only when the day has points. |
| ReportCoordinator.BackfillVehicle | src/app/api/reports/route.ts:235-255 | Over the days first..last, every day with points ends up covered. A day is written only if the answer lacked it. The answer only grows by appending. |
| ReportCoordinator.Backfill | src/app/api/reports/route.ts:230-256 | The same guarantees as BackfillVehicle, over every vehicle of the list. |
| ReportCoordinator.FleetStep | src/app/api/reports/route.ts:234-256 | One more vehicle's backfill extends the guarantees to that vehicle: written keys were missing from the starting answer, and that vehicle's days with points are covered. |
| ReportCoordinator.CollectReports | src/app/api/reports/route.ts:202-260 | Without dates: exactly the fetched reports, with no write. With dates: every (vehicle, day) of the range that has points is covered, the answer is newest first, and it keeps every fetched report. No two answered reports share a (vehicle, day) key. A report not fetched belongs to a backfilled vehicle and a day of the range that the fetch did not cover, and it was generated from that day's points. A stored report survives unless its key was backfilled because the fetch lacked it. Nothing is written when the fetch already covered the range. |
| ReportCoordinator.AnsweredDetermined | src/app/api/reports/route.ts:226-259 | Over a store with unique keys, any two answers that CollectReports' guarantee admits are permutations of each other, so the reports counted in the totals are fixed. |
| ReportCoordinator.SortedAnswer | src/app/api/reports/route.ts:258-259 | Re-sorting the answer keeps every guarantee of the backfill, including distinct keys: the fetch has them and each generated report's key was uncovered when it was pushed. |
| ReportCoordinator.Shown | src/app/api/reports/route.ts:263-283 | Without times every report is kept. With a time, a report is kept iff it has movement, its last movement is not before the start bound, and its first movement is not after the end bound. |
| ReportCoordinator.ShownSorted | src/app/api/reports/route.ts:259-283 | The time window keeps the newest-first order. |
| ReportCoordinator.ClockBounds | src/app/api/reports/route.ts:267-279 | On an `HH:mm` clock the start bound is that minute, and the end bound is that minute plus 59.999 s, with hour 00 read as 23 and minute 00 as 59. |
| ReportCoordinator.MovementWithinDay | src/app/api/reports/route.ts:127-128 | A generated report's first and last movement lie within its day, first before last. |
| ReportCoordinator.WholeDayKeepsGenerated | src/app/api/reports/route.ts:263-283 | The window 00:00 to 23:59 keeps every generated report. |
| ReportCoordinator.Row | src/app/api/reports/route.ts:286-303 | A row carries the report's id, vehicle, day, movement times, distance, stops and speeds. The duration is shown as hours and minutes with 0 <= minutes < 60 adding back to the total. |
| ReportCoordinator.Rows | src/app/api/reports/route.ts:286-303 | There is one row per report, in order. |
| ReportCoordinator.Summary | src/app/api/reports/route.ts:306-313 | totalTrips is the number of reports, and all totals are 0 without reports. |
| ReportCoordinator.SummaryOrderFree | src/app/api/reports/route.ts:306-313 | The totals do not depend on the order of the reports. |
| ReportCoordinator.SummaryAvgBounds | src/app/api/reports/route.ts:309-311 | The overall average speed lies between the smallest and the largest per-report average. |
| ReportCoordinator.GetReports | src/app/api/reports/route.ts:171-315 | The rows and totals are those of the collected reports narrowed by the time window. Without dates the collected reports are the fetched ones and nothing is written. With dates the collected reports carry all the backfill guarantees of CollectReports, and they and the rows are newest first. Every collected report is stored. Vehicles, points, trips, drivers and their counters are untouched. |
| ReportCoordinator.RegenerateQuery | src/components/dashboard/DailyReportsTab.tsx:282 | The regenerate query selects exactly the reports with key (vehicle, day), and it backfills exactly that day. |
| ReportCoordinator.Regenerate | src/components/dashboard/DailyReportsTab.tsx:280-283 | If a report for the day is already stored, nothing is written, so it is not recomputed. A day without points writes nothing. Otherwise the day's report is stored. Reports of other keys stay stored, and the other tables are untouched. |
| ReportCoordinator.RegenerateAnswer | src/components/dashboard/DailyReportsTab.tsx:280-282 | For a one-vehicle, one-day query: nothing is written when the key is stored or the day has no points. Otherwise a stored row of the key holds the day's generated columns. |
| SeedReports.AggregateSeed | prisma/seed.ts:254-352 | The seed's pairwise loop computes exactly the seed's columns `SeedStats`. Those columns are rounded with `Math.round`, and the first and last points supply the movement times and positions. |
| SeedReports.SeedGapsPartition | prisma/seed.ts:291-316 | Before rounding, the moving and stopped minutes add up exactly to the first-to-last span. |
| SeedReports.SeedMinutesAddUp | prisma/seed.ts:328-339 | The rounded stopped and moving minutes are within one minute of the rounded duration, on either side. |
| SeedReports.SeedStopsIffHalted | prisma/seed.ts:308-316 | A stop is counted iff some point after the first has speed <= 5. Without one there is no stopped time and no stop, open or closed. |
| SeedReports.SeedStopsBounded | prisma/seed.ts:294-316 | Stops are separated by moving points, so at most half the points open one. |
| SeedReports.SeedAvgBounds | prisma/seed.ts:288-327 | The stored average (speeds of points 2..n over n) is non-negative and at most maxSpeed·(n-1)/n. |
| SeedReports.ConstantSpeedAverages | prisma/seed.ts:288-327 | At a constant speed v, the report endpoint's average is v while the seed's is v·(n-1)/n: the two aggregators disagree. |
| SeedReports.BuildRoute | prisma/seed.ts:134-145 | The fixture has ten samples over 130 minutes, in strictly increasing minutes. |
| SeedReports.RoutePoints | prisma/seed.ts:155-171 | Each fixture sample becomes a point of the vehicle at midnight plus its minutes (carried past 59). |
| SeedReports.DemoRouteReport | prisma/seed.ts:134-145 | On the fixture the seed stores 3 stops, a longest stop of 32 minutes, 44 stopped, 86 moving, 130 in all, a top speed of 50 and an average of 25.37. |
| SeedReports.GroupOfIsFilter | prisma/seed.ts:230-239 | Pushing point by point into the key's group selects exactly the key's points, in order. |
| SeedReports.SeedGroupMembers | prisma/seed.ts:230-239 | Every point of a group has its key, and every point of the key is in its group. |
| SeedReports.GroupByKey | prisma/seed.ts:228-239 | Each key appears once, in order of first appearance. Each maps to its points in order, and every point's key is present. |
| SeedReports.GroupedSnoc | prisma/seed.ts:230-239 | One push of the grouping `forEach` keeps the grouping exact. A new key is listed last with just that point, and a known key's group gains the point at its end. |
| SeedReports.GroupReport | prisma/seed.ts:245-352 | A group yields a report iff it has at least two points, with the first movement not after the last. |
| SeedReports.GroupStats | prisma/seed.ts:249-352 | Sorting a group of two or more points by time and running the seed's loop gives exactly the group's report. |
| SeedReports.GroupPoints | prisma/seed.ts:222-251 | The fetched points are a permutation of the table, grouped by key, with each key's report. |
| SeedReports.StoreGroup | prisma/seed.ts:244-353 | One turn of the report loop skips a small group, or stores its report with the next id. |
| SeedReports.StoreReports | prisma/seed.ts:244-353 | Once the loop ends, the stored reports are numbered from 1. Each holds its (vehicle, day) group's report. Every point whose group has two or more points has a report. |
| SeedReports.SeedDailyReports | prisma/seed.ts:206-356 | The report table is rebuilt from the points with exactly those guarantees. The other tables are untouched. |
| TrackingSummary.Since | src/app/api/tracking/summary/route.ts:16-21 | The window starts at midnight `days - 1` days ago. `days` defaults to 14. |
| TrackingSummary.Fetched | src/app/api/tracking/summary/route.ts:23-38 | Exactly min(`maxPoints`, matches) points, each a stored point of the vehicle from `since` on and no more often than it is stored, oldest first. |
| TrackingSummary.FetchedOldest | src/app/api/tracking/summary/route.ts:34-37 | The limit keeps the oldest samples: a sample of the window that is left out is no older than any returned one. |
| TrackingSummary.MovingIn | src/app/api/tracking/summary/route.ts:57-59 | movingCount counts points with speed > 0, so it never exceeds the count. |
| TrackingSummary.MinTime | src/app/api/tracking/summary/route.ts:60 | `start` is a sample time of the day and no later than any of them. |
| TrackingSummary.MaxTime | src/app/api/tracking/summary/route.ts:61 | `end` is a sample time of the day and no earlier than any of them. |
| TrackingSummary.EntryBounds | src/app/api/tracking/summary/route.ts:50-62 | For a day's entry: start <= end, every sample lies between them, and movingCount <= count = the number of its samples. |
| TrackingSummary.InfoUpdate | src/app/api/tracking/summary/route.ts:53-61 | One `forEach` step turns the day's accumulator into the summary of its samples so far plus the new one. |
| TrackingSummary.SummarizeDays | src/app/api/tracking/summary/route.ts:50-62 | There is one accumulator per day that has samples, each equal to the summary of that day's samples, and every sample's day is present. |
| TrackingSummary.SummarizedStep | src/app/api/tracking/summary/route.ts:50-61 | One `forEach` step keeps one accumulator per day seen, each the summary of that day's samples, with every sample's day present. |
| TrackingSummary.Entries | src/app/api/tracking/summary/route.ts:64-71 | There is one entry per key, in order, built from that key's accumulator. |
| TrackingSummary.CountsAddUp | src/app/api/tracking/summary/route.ts:50-56 | Distinct days that cover every sample split the samples: their counts add up to the number of samples. |
| TrackingSummary.EntriesCount | src/app/api/tracking/summary/route.ts:64-71 | The entries' counts add up to the samples counted per day. |
| TrackingSummary.SortedEntries | src/app/api/tracking/summary/route.ts:64-72 | After the sort the dates strictly decrease, and each entry is its day's summary. Every sample's day is listed, and the counts add up to the number of samples. |
| TrackingSummary.NewestFirstStrict | src/app/api/tracking/summary/route.ts:72 | Sorting entries with distinct dates newest first orders them strictly by date, descending. |
| TrackingSummary.Summary | src/app/api/tracking/summary/route.ts:5-74 | 400 iff there is no vehicle id. Otherwise there is one entry per fetched day, newest first; each is that day's summary, and the counts sum to the number of fetched samples. |
| TrackingQuery.Limit | src/app/api/tracking/route.ts:11 | The limit defaults to 100. |
| TrackingQuery.ListPoints | src/app/api/tracking/route.ts:13-48 | Exactly min(`limit`, matches) points, each stored and matching (vehicle only when given, range only when both ends are given), no more often than stored, newest first. |
| TrackingQuery.ListAllBelowLimit | src/app/api/tracking/route.ts:44-47 | Below the limit, a stored point is returned iff it matches. |
| TrackingQuery.ListNewest | src/app/api/tracking/route.ts:44-47 | A matching point left out by the limit is no newer than any returned point. |
| Lists.TakeLeavesLater | src/app/api/tracking/route.ts:44-47 | In a sorted sequence, an element the `take` leaves out sorts no earlier than any element it keeps. |
| TrackingQuery.ListUnfiltered | src/app/api/tracking/route.ts:13-47 | Without filters and below the limit, the answer is a permutation of the table. |
| TripReports.StatsOf | src/app/api/reports/trips/route.ts:42-47 | totalTrips is the number of trips, and all totals are 0 without trips. |
| TripReports.StatsIgnoreOrder | src/app/api/reports/trips/route.ts:24-47 | The totals equal those of the matching trips in table order: the ordering does not change them. |
| TripReports.StatsBounds | src/app/api/reports/trips/route.ts:43-45 | avgSpeed lies between the smallest and largest trip average. totalDistance lies between n times the smallest and n times the largest distance. |
| TripReports.StatsSnoc | src/app/api/reports/trips/route.ts:43-46 | Adding a trip adds its distance and stops to the sums and one to the count. |
| Trips.ListTrips | src/app/api/trips/route.ts:12-40 | A trip is listed iff it is stored and matches (vehicle only when given, start range only when both dates are given), as often as it is stored, latest start first. |
| Trips.InitialArrival | src/app/api/trips/route.ts:78 | `in_progress` iff both destination coordinates are truthy, else `not_set`. |
| Trips.NewTrip | src/app/api/trips/route.ts:65-79 | The end time and destinations are null when falsy. Numbers default to 0 and notes and name to null. The status is `in_progress` iff both coordinates are stored. |
| Trips.NewTripWatched | src/app/api/trips/route.ts:75-78 | A new trip is watched by the arrival check iff it has no end time and both coordinates are non-zero. |
| Trips.CreateTrip | src/app/api/trips/route.ts:53-92 | 400 without a vehicle or start time, and nothing is written. Otherwise the trip is appended with the next id, or refused when the vehicle is unknown. The other tables are untouched. |
| Vehicles.NewVehicle | src/app/api/vehicles/route.ts:49-57 | A new vehicle is `turnoff`, with no position, no stop and 0 stopped time. Falsy driver fields are stored as null. |
| Vehicles.CreateVehicle | src/app/api/vehicles/route.ts:45-60 | It fails iff a required field is missing or the IMEI is taken, and then nothing is written. Otherwise it appends the new vehicle with the next id. |
| Vehicles.NewVehicleStaysOff | src/app/api/vehicles/route.ts:56 | A new vehicle stays `turnoff` under the ingest rule until a sample shows it moving. |
| Vehicles.LatestPoint | src/app/api/vehicles/route.ts:17-20 | None iff the vehicle has no points. Otherwise it returns one of its points, at least as recent as all of them. |
| Vehicles.WithLatest | src/app/api/vehicles/route.ts:21-24 | A listed vehicle carries at most one point. |
| Vehicles.ListVehicles | src/app/api/vehicles/route.ts:8-26 | Every vehicle is listed exactly once, by ascending id, each with its latest point. |
| Vehicles.ListedAscending | src/app/api/vehicles/route.ts:8-26 | With distinct vehicle ids the listing's ids strictly increase. |
| Vehicles.ListedLatest | src/app/api/vehicles/route.ts:17-24 | A vehicle carries a point iff it has one, and that point is its latest. |
| Drivers.SearchDrivers | src/app/api/drivers/route.ts:10-34 | A driver is returned iff it is stored and selected (no term, or the term occurs ignoring case in name, phone or national id), each exactly as often as it is stored, newest first. |
| Drivers.SearchByPhone | src/app/api/drivers/route.ts:12-17 | Searching for a driver's full phone finds that driver. |
| Drivers.NewDriver | src/app/api/drivers/route.ts:86-95 | The new row has the given name, phone and address. Absent national id, province and notes are null. |
| Drivers.CreateDriver | src/app/api/drivers/route.ts:47-101 | 400 iff a required field is missing, the phone is taken, or a given national id is taken, and then nothing is written. Otherwise it appends with the next id. |
| Drivers.PhonesStayUnique | src/app/api/drivers/route.ts:60-70 | After one registration, a second with the same phone is refused. |
| Dashboard.StoppedParts | src/app/dashboard/page.tsx:106-125 | Below 60 s only seconds are shown. Below an hour, minutes, plus seconds when non-zero. Above that, hours, plus minutes unless both minutes and seconds are 0, plus seconds unless they are 0. |
| Dashboard.StoppedPartsValue | src/app/dashboard/page.tsx:109-116 | The shown parts add up to the duration, come largest unit first, and every part after the first is below 60. |
| Dashboard.StoppedPartsInjective | src/app/dashboard/page.tsx:106-125 | Different durations are never shown alike. |
| Dashboard.CardOf | src/app/dashboard/page.tsx:52-83 | Falsy position and speed fall back to 30.0444, 31.2357 and 0, and the battery to 100. A missing last update is the clock. The current stopped time is 0 unless the status is `stopped` with `stoppedAt` set; otherwise it is the floored seconds since `stoppedAt`. |
| Dashboard.BatteryAlwaysFull | src/app/dashboard/page.tsx:77 | As written, every card of the listing shows a battery of 100, whatever its samples say. |
| Dashboard.BatteryMisreported | src/app/dashboard/page.tsx:77 | As written, a listed vehicle whose latest sample reports 40% is shown at 100%. |
| Dashboard.FormatListedVehicle | src/app/dashboard/page.tsx:52-83 | Reading the battery the listing carries: the latest sample's level when non-zero, else 100. |
| Dashboard.ListedBattery | src/app/dashboard/page.tsx:77 | The corrected card shows the battery of the vehicle's latest stored sample when its level is non-zero. |
| Dashboard.TotalStoppedTime | src/app/dashboard/page.tsx:128-136 | The stored total, plus the floored seconds since `stoppedAt` exactly during a stop. |
| Dashboard.TotalAtFormatting | src/app/dashboard/page.tsx:59-62 | At the moment the card is made, the running total is the stored total plus the card's current stop. |
| Dashboard.TotalGrows | src/app/dashboard/page.tsx:128-136 | During a stop the running total never falls as the clock advances. It grows by at least the elapsed whole seconds minus one. |
| DailyReportsTab.SwapPieces | src/components/dashboard/DailyReportsTab.tsx:78-95 | Both converters, `formatDateToDDMMYYYY` on `-` and `formatDateToYYYYMMDD` on `/`: text that does not split into three pieces comes back unchanged. Otherwise the result splits on the other separator into the pieces reversed. |
| DailyReportsTab.ConvertPieces | src/components/dashboard/DailyReportsTab.tsx:78-95 | On separator-free pieces `y-m-d` becomes `d/m/y`, and back. |
| DailyReportsTab.DisplayRoundTrip | src/components/dashboard/DailyReportsTab.tsx:78-95 | Converting to display form and back returns any text that has no `/`. |
| DailyReportsTab.IsoRoundTrip | src/components/dashboard/DailyReportsTab.tsx:78-95 | Converting to ISO form and back returns any text that has no `-`. |
| DailyReportsTab.TodayDate | src/components/dashboard/DailyReportsTab.tsx:55-61 | The result splits on `/` into the two-digit day, the two-digit month and the year, with `/` at positions 2 and 5. |
| DailyReportsTab.DisplayDay | src/components/dashboard/DailyReportsTab.tsx:156-169 | The date is invalid (`None`) iff some piece is not a number for `parseInt`. |
| DailyReportsTab.TodayDateParses | src/components/dashboard/DailyReportsTab.tsx:55-61 | Today's date, read back by the filter, is today. |
| DailyReportsTab.MaskTypedDate | src/components/dashboard/DailyReportsTab.tsx:416-423 | At most 10 characters. Removing `/` gives the first min(8, n) digits of the input. `/` appears exactly at positions 2 and 5 that exist. With 8 digits or more the result is `dd/mm/yyyy` of the first eight. |
| DailyReportsTab.FetchFilteredRequest | src/components/dashboard/DailyReportsTab.tsx:140-220 | No request iff neither date is set. A failure iff a set date has a non-numeric piece. Otherwise the request carries the vehicle and times. A set start gives that day at the start time; an absent start gives 2000-01-01 00:00. A set end gives that day at the end time plus 59.999 s; an absent end gives 2100-12-31 23:59:59.999. |
| DailyReportsTab.StartDateValue | src/components/dashboard/DailyReportsTab.tsx:152-170 | `startDate` is null iff no start date is given. It is invalid iff a given date has a non-numeric piece. Otherwise it is the typed day at the start time, with 00:00 when empty. |
| DailyReportsTab.EndDateValue | src/components/dashboard/DailyReportsTab.tsx:172-190 | `endDate` is null iff no end date is given. It is invalid iff a given date has a non-numeric piece. Otherwise it is the typed day at the end time plus 59.999 s, with 23:59 when empty. |
| DailyReportsTab.DefaultClocks | src/components/dashboard/DailyReportsTab.tsx:153-189 | The fallback clocks `00:00` and `23:59` give the same bounds as an empty time. |
| DailyReportsTab.ClearedFilter | src/components/dashboard/DailyReportsTab.tsx:247-259 | The cleared filter has every vehicle, no start date, today as the end date, and no times. |
| DailyReportsTab.ClearedWindow | src/components/dashboard/DailyReportsTab.tsx:247-260 | A cleared panel asks for reports through the end of today. |
| DailyReportsTab.FilterPanel.constructor | src/components/dashboard/DailyReportsTab.tsx:63-75 | Both the edited and the applied filter start cleared, with today as the end date. |
| DailyReportsTab.FilterPanel.Apply | src/components/dashboard/DailyReportsTab.tsx:238-244 | The applied filter becomes the edited one, which is kept. |
| DailyReportsTab.FilterPanel.Clear | src/components/dashboard/DailyReportsTab.tsx:247-260 | Both filters are reset to the cleared filter. |
| TripsTab.CalculateDuration | src/components/dashboard/TripsTab.tsx:228-236 | In progress iff there is no end time. For a non-negative span, 0 <= minutes < 60 and hours·60 + minutes = floor(ms/60000). |
| TripsTab.NegativeSpanCountsTwice | src/components/dashboard/TripsTab.tsx:232-234 | An end half an hour before the start shows -1 h -30 min: the partial hour is counted twice. |
| TripsTab.Payload | src/components/dashboard/TripsTab.tsx:118-130 | Blank numbers become 0, blank notes and name become null, blank coordinates and end time become null, and typed numbers are read with `parseFloat`/`parseInt`. |
| TripsTab.Save | src/components/dashboard/TripsTab.tsx:111-162 | Nothing is sent iff the vehicle or start time is blank. Otherwise the payload goes by PUT to the trip being edited, or by POST when none is. |
| TripsTab.SavedTrip | src/components/dashboard/TripsTab.tsx:118-130 | The trip created from a saved form has the typed vehicle and start, and an end time iff one was entered. Blanks become 0 or null. The status is `in_progress` iff both coordinates were typed as non-zero numbers. |
| TripsTab.SavedTripWatched | src/components/dashboard/TripsTab.tsx:127-128 | A trip saved from the form is watched for arrival iff it has no end and both coordinates are non-zero, so a coordinate typed as 0 disables arrival. |
| TripsTab.Cancel | src/components/dashboard/TripsTab.tsx:190-206 | The form closes, nothing is being edited, and every field is blank. |
| TripsTab.SaveAfterCancel | src/components/dashboard/TripsTab.tsx:190-206 | Saving right after a cancel sends nothing. |
| Playback.BuildDateTimeRange | src/app/playback/page.tsx:70-82 | The window uses the same start and end bounds as the reports route's time window. |
| Playback.ClockRange | src/app/playback/page.tsx:70-82 | On `HH:mm` clocks the window runs from the start minute to the end minute plus 59.999 s, with end hour 00 read as 23 and end minute 00 as 59. It is refused iff that end minute precedes the start minute. |
| Playback.DefaultRange | src/app/playback/page.tsx:41-42 | The initial clocks 00:00 to 23:59 cover exactly the whole day. |
| Playback.StopMarkers | src/app/playback/page.tsx:130-131 | A marker is placed exactly for the loaded samples with speed <= 1. |
| Playback.StopMarkersOrdered | src/app/playback/page.tsx:130-131 | Markers keep the time order, and every marked sample is one the ingest treats as not moving. |
| Playback.ProgressPercent | src/app/playback/page.tsx:348-351 | 0 without samples. NaN (`None`) with one sample at index 0. With two or more samples it lies between 0 and 100 for an index in range. It is 0 iff the index is 0 or less than half a percent of the way (200·index < n − 1). It is 100 from the last index on. |
| Playback.ProgressMonotone | src/app/playback/page.tsx:348-351 | The bar never moves back as the index advances. |
| Playback.PrevMonth | src/app/playback/page.tsx:507 | January goes to December, any other month to the one before, and the result stays in 1..12. |
| Playback.NextMonth | src/app/playback/page.tsx:517 | December goes to January, any other month to the one after, and the result stays in 1..12. |
| Playback.MonthButtonsInverse | src/app/playback/page.tsx:507-517 | On 1..12 the two buttons undo each other. |
| Playback.NextMonthsCycle | src/app/playback/page.tsx:517 | k presses of the next-month button from m give ((m - 1 + k) mod 12) + 1. |
| Text.LeadingNumbers | src/app/playback/page.tsx:371 | The year and month (and, on `:`, the hour and minute of a clock) are `Number` of the first two pieces, and a missing piece is NaN. |
| Playback.FilteredMovementDays | src/app/playback/page.tsx:369-374 | Exactly the days whose year and month match are kept. |
| Playback.DateKeyInMonth | src/app/playback/page.tsx:369-374 | A day keyed `YYYY-MM-DD` is shown iff its year and month are the selected ones. |
| Playback.Loaded | src/app/playback/page.tsx:254-264 | The loaded samples are a permutation of the tracking answer, oldest first. There are at most 2000, all of the vehicle and within the window. |
| Playback.Player.constructor | src/app/playback/page.tsx:39-47 | There are no samples, index 0, nothing playing and no error. |
| Playback.Player.Load | src/app/playback/page.tsx:240-286 | An end before the start sets the error and changes nothing else. Otherwise playback stops, the index is 0, and the samples are the loaded ones. |
| Playback.Player.Start | src/app/playback/page.tsx:155-202 | With no samples nothing happens. With one sample the index is 0 and the finished notice shows, with no timer. Otherwise the replay starts at index 0 with the timer running. |
| Playback.Player.Tick | src/app/playback/page.tsx:190-201 | The counter advances by one. Past the last sample playback finishes; otherwise the shown index follows the counter. |
| Playback.Player.PlayToEnd | src/app/playback/page.tsx:189-201 | With n >= 2 samples playback takes exactly n ticks and ends on the last index, with the finished notice shown. |
| Time.DefaultDays | src/components/dashboard/DailyReportsTab.tsx:200-206 | The far-past and far-future defaults are the day numbers of 2000-01-01 and 2100-12-31. |

## Behaviour worth noting

- Stopped time: the ingest adds the floored gap since `lastUpdate` on every
  stopped-to-stopped sample as well as on stopped-to-moving ones. The gap is
  not clamped.
- Average speed: `generateDailyReport` averages the moving points after the
  first. On the five-sample example (DailyReports.DipsScenario) this gives
  45.
- `||` fallbacks: in `minutes || 59` and `hours || 23`, an explicit 00 is
  read as 59 or 23.
- Regenerate: the "regenerate" action asks `GET /api/reports` for one day.
  That only fills missing reports, so an existing report is not recomputed.
- Number parsing: `Number(...)` and `parseInt` are modelled on unsigned
  decimal digits. Signs, whitespace, exponents and hexadecimal forms are not
  modelled. An empty piece is 0 for `Number`.
- Progress bar: with one sample, `progressPercent` computes 0/0 and the bar
  reads NaN. This is modelled as `None`.

## Left out

- Haversine distance: `calculateDistance` is a function parameter (`dist`),
  since its floating-point trigonometry is outside the model.
- Floating point: speeds and coordinates are exact reals, so rounding
  errors of IEEE doubles are not modelled.
- Time zones and locales: local midnight is UTC midnight, so the local
  `setHours` and the UTC `toISOString` day keys agree. `toLocaleTimeString`
  and `toLocaleDateString` strings are not modelled.
- Calendar dates: ordering dates by their `YYYY-MM-DD` text is ordering by
  day number. The keys are day numbers.
- Prisma: there are no transactions. Prisma's rejection of invalid input
  (a `take` of NaN, a lookup by an undefined IMEI) and the 500 answers of
  the `catch` blocks are not modelled. Database failures are not modelled.
  The vehicle's `plateNumber` uniqueness constraint is not modelled.
- Seed fixture: deleting the other tables, resetting sequences, and
  creating vehicles and drivers are not modelled. The random battery level is
  a parameter.
- Concurrency: requests race on the vehicle row, and the dashboard polls
  with `setInterval`. Neither is modelled.
- Playback timer: the playback interval is modelled as the `Tick` step and
  the `PlayToEnd` loop. Its 800 ms period and the map layers are not
  modelled.
- Playback day buttons: `handleDayChange` moves the selected day by a day
  count. It is an addition on day numbers and is not modelled separately.
- Report rows' vehicle join: a row of `GET /api/reports` also carries the
  included `vehicle` and `driverName` (`report.vehicle?.driver?.name ||
  null`). `Row` keeps the vehicle id only.
- Ties in time order: points with equal timestamps stay in table order,
  because the model's sort is stable. Prisma's `orderBy: { timestamp }`
  leaves their order open, and it can change which point the aggregators
  take as the previous one.
- Dashboard driver label: `formatVehicleData` reads `v.driver?.name`, which
  the listing does not include, so the label is always the default. The
  card does not model the driver label.
- Daily-reports tab: `fetchAllReports` and the Excel export are not
  modelled. The date-picker handlers only call `IsoToDisplay`.
- Trips tab: `handleEdit`, `handleDelete` and `fetchTrips` are not
  modelled; they are state copies and plain requests. The PUT and DELETE
  trip routes are not part of this model.
- Negative limits: `limit` of `GET /api/tracking` and of the tracking
  summary is a natural number. Prisma reads a negative `take` as the last
  points of the ordering, so `limit=-5` returns the five oldest matching
  points. That case is not modelled.
- JSON `null` and non-numeric text: a payload field is missing, a number or
  numeric text. The GPS endpoint tests `=== undefined` only, so a `null`
  coordinate passes its check and `parseFloat` stores NaN; a text such as
  `"abc"` does the same. The model cannot express either input and answers
  400 for a coordinate it reads as missing.
- Text comparisons: case-insensitive driver search folds ASCII letters
  only.
- TripsTab.CalculateDuration: states the hours and minutes only for a
  non-negative span. For a negative span the floored hours and the
  truncated remainder count the partial hour twice, as
  TripsTab.NegativeSpanCountsTwice shows.

## Findings

| source | as written | input that shows it | evidently intended | confidence | as-written member | corrected member |
|---|---|---|---|---|---|---|
| src/app/dashboard/page.tsx:77 | The battery is read from `v.latestTrackingPoint?.batteryLevel`, but `GET /api/vehicles` attaches the latest sample as `trackingPoints` (src/app/api/vehicles/route.ts:23). The field is always missing, so every card shows 100%. | A vehicle whose latest sample has battery level 40 is listed, and its card shows 100. | The card shows the battery of the vehicle's latest sample, `v.trackingPoints[0]?.batteryLevel \|\| 100`. | high, not executed | Dashboard.BatteryMisreported | Dashboard.ListedBattery |
