# CercaniasVLC live-train tracker — a Dafny model

The tracker shows Renfe commuter trains on a map. Its core has two halves.

- **The browser client, `app.js`.** It reads the static GTFS files
  `routes.txt`, `trips.txt` and `stops.txt` with its own `parseCSV` into the
  catalogs `MapRoutes`, `MapTrips` and `MapStops`. Every cycle it fetches a
  trip-update document and a vehicle-position document, and reconciles them
  into the live map `trenesCV`:
  - trip updates overwrite the delay of trains already known;
  - each accepted vehicle creates its train, or refreshes its position,
    platform and current stop, and gets a marker;
  - trains absent from the vehicle snapshot are deleted and their markers
    removed.
- **The decoder server, `decoder_server.py`.** It downloads the binary
  GTFS-Realtime feeds and projects every protobuf entity onto a JSON
  document, keeping only the fields that are set. The document uses the
  property names the client reads (`vehicle`, `trip.tripId`, `stopId`,
  `vehicle.label`, `tripUpdate`, `delay`). The shipped client does not call
  the server, though: it reads Renfe's own JSON feeds through a CORS proxy
  (app.js:4-9). It caches each
  feed's document for 25 seconds, serves the cache after a network error,
  and answers an empty document after a decoding error.

## Modules

| module | what it holds |
|---|---|
| `Wrappers` | `Option`, standing for JavaScript `undefined`, a Python key that is absent, or protobuf `HasField`. |
| `JsString` | `trim` with the ECMAScript white-space set, `split` on one character with its inverse `Join`, and the line split `/\r?\n/`. |
| `Decimal` | Python's `str(int)` and its inverse. |
| `Csv` | `parseCSV` and the shape of its records. |
| `Catalog` | The three catalog builders, as a fold over the parsed rows (`Upserts`) with the loop `Fill`. |
| `FeedJson` | The JSON feed shape: the properties the client reads, which are also the keys the server writes. |
| `Platform` | The label regex `/\((\d+)\)$/`. |
| `Display` | What the popup of `updateMarker` shows: delay in minutes, stop line, platform line, route. |
| `Reconcile` | `processTripUpdates`, `processVehiclePositions` and `fetchAndUpdateData`, as functions of the state before them, with their properties. |
| `Tracker` | The client's mutable state as a class. Its methods carry out the loops in place and are proved against `Reconcile`. |
| `GtfsRealtime` | The protobuf messages the server reads. |
| `Decoder` | The projection from entity to dictionary: as functions, with the stated shape of the output and the document's read-back, and as the server's loops. |
| `Server` | The cache and fallback policy, as a function and as a class holding the cache. |
| `FeedBridge` | What the client's entity filters would make of a document the server wrote, stated in terms of the protobuf message behind it. |

### Modelling choices

- **Markers and the layer.**
  - A marker is an opaque handle `MarkerId`; the tracker hands out a fresh
    handle for every new marker.
  - The ghost log `removed` records the handles taken off the layer.
  - `MarkersOk` states that live handles are distinct, issued and never
    removed.
- **Missing coordinates.** Leaflet's `setLatLng` and `L.marker` throw on a
  missing coordinate (`Renderable`). The throw escapes `updateMarker` and
  `processVehiclePositions`, so the rest of the entity loop and the whole
  clean-up loop are skipped. `completed = false` models that. A throw in
  `processTripUpdates`, from an entity without `tripUpdate.trip.tripId`,
  ends the cycle before the vehicle positions are read, through the `catch`
  of `fetchAndUpdateData`.
- **What the client reads.** `fetch`, `response.json()` and the two
  downloads of `loadStaticData` are inputs to the methods. An absent value
  (`None`) means that step threw or answered with an error status.
- **The server's clock.** `time.time()` becomes two parameters. `now` is
  the reading taken at the freshness test. `later` is the reading taken
  after the download, used for the expiry and for the empty document's
  timestamp.
- **The download.** What `requests.get` and `ParseFromString` came to is an
  input: a network error, a decoding error, or the decoded message.

### Behaviour of the code worth knowing

- **Identifiers.** Trip and stop identifiers are normalised only with `trim` (app.js:83, 96, 158).
- **Geofence.** `isValenciaTrain` returns `true` for every position (app.js:131-134). The bounding box `VALENCIA_BBOX` (app.js:17-19) is never read.
- **Malformed trip updates.** An entity without `tripUpdate.trip.tripId` makes `tripUpdate.trip.tripId.trim()` throw (app.js:139). That stops the trip-update loop, and the `catch` of `fetchAndUpdateData` (app.js:291-293) skips the vehicle positions of that cycle.
- **Unknown route.** A trip whose `route_id` is not in `MapRoutes` shows the route text "Línea Desconocida" (app.js:186-187).
- **New trains.** A train created by a vehicle entity starts with delay 0 (app.js:192-201), even when a trip update for it came earlier in the same cycle, because trip updates only touch existing records (app.js:143-145).
- **Eviction.** The deletion of unreported trains (app.js:218-225) runs only when the entity loop ran to the end.
- **Failed static load.** A failed load is caught (app.js:104-108). The `then` callback still runs a first cycle and starts the interval (app.js:298-302). Every cycle is then a no-op, because `MapTrips` stays empty (app.js:273-275).
- **Cache expiry.** The expiry is computed from a second clock reading taken after the download (decoder_server.py:133), not from the reading of the freshness test (decoder_server.py:23).

## Model

| member | source | states |
|---|---|---|
| JsString.TrimStart | app.js:30 | The leading white space is cut: the result is a suffix, everything dropped is white space, and the result does not start with white space. |
| JsString.TrimEnd | app.js:30 | The trailing white space is cut: the result is a prefix, everything dropped is white space, and the result does not end with white space. |
| JsString.Trim | app.js:30 | `String.prototype.trim`, as `TrimEnd` of `TrimStart`. Definition; no contract of its own; properties in `JsString.TrimSpec`, `JsString.TrimIdempotent` and `JsString.TrimOfTrimmed`. |
| JsString.TrimSpec | app.js:30 | The result is a slice of the input. Everything dropped before and after it is white space, and the result neither starts nor ends with white space. |
| JsString.TrimIdempotent | app.js:83 | Trimming an identifier twice gives the same text as trimming it once. |
| JsString.TrimOfTrimmed | app.js:96 | A text that neither starts nor ends with white space is left unchanged by `trim`. |
| JsString.Split | app.js:37 | `split(',')` never returns an empty list. It has one more piece than separators, no piece holds the separator, and joining the pieces gives the text back. |
| JsString.SplitJoin | app.js:37 | Splitting a join of separator-free pieces gives the pieces back, so `Split` and `Join` are inverse. |
| JsString.SplitLines | app.js:30 | `split(/\r?\n/)`. Definition; no contract of its own; properties in `JsString.SplitLinesShape`, `JsString.SplitLinesJoin`, `JsString.SplitLinesCrLf` and `JsString.SplitLinesDoubleCr`. |
| JsString.SplitLinesShape | app.js:30 | `/\r?\n/` yields one more line than there are line feeds, and no line holds a line feed. |
| JsString.SplitLinesJoin | app.js:30 | The text is its lines glued back with separators, each "\n" or "\r\n". A line followed by a bare "\n" never ends in a carriage return, since the match takes the carriage return before a line feed. |
| JsString.SplitLinesCrLf | app.js:30 | "a\r\nb" splits into "a" and "b". |
| JsString.SplitLinesDoubleCr | app.js:30 | "a\r\r\nb" splits into "a\r" and "b": only the carriage return next to the line feed is consumed. |
| Decimal.NatToDecimal | decoder_server.py:106 | `str` of a natural number is a non-empty digit string with no leading zero, worth the number. |
| Decimal.DecimalRoundTrip | decoder_server.py:106 | The arrival-time text reads back as the integer it was written from. |
| Decimal.DecimalInjective | decoder_server.py:106 | Two different times never get the same text. |
| Csv.Cells | app.js:37 | A line yields one cell per comma plus one. |
| Csv.RecordOf | app.js:38-43 | A header is a key of the row object exactly when the row has a cell at one of that header's positions. |
| Csv.RecordOfValue | app.js:39-42 | A key takes the cell of the last header of that name that has a cell. |
| Csv.NonEmptyRecords | app.js:45 | The filter `Object.keys(obj).length > 0`. Its own contract only bounds the length; its contents are in `Csv.NonEmptyRecordsMembers` and `Csv.FilterKeepsAll`. |
| Csv.NonEmptyRecordsMembers | app.js:45 | A record is kept exactly when it is a non-empty record of the input. |
| Csv.FilterKeepsAll | app.js:45 | The filter `Object.keys(row).length > 0` keeps every row when no row is empty. |
| Csv.ParseCsv | app.js:29-46 | `parseCSV`. Definition; no contract of its own; properties in `Csv.ParseCsvUnfiltered`, `Csv.ParseCsvCount`, `Csv.ParseCsvRows`, `Csv.ParseCsvKeys`, `Csv.ParseCsvCells` and `Csv.ParseCsvClean`. |
| Csv.ParseCsvUnfiltered | app.js:45 | With a header and at least one data line, the emptiness filter drops nothing. |
| Csv.ParseCsvCount | app.js:29-46 | The record count is the number of line feeds in the trimmed text: a lone header line, or empty text, gives no records. |
| Csv.ParseCsvRows | app.js:29-46 | The record count is the number of line feeds in the trimmed text: a lone header line, or empty text, gives no records. Record j comes from line j + 1. |
| Csv.ParseCsvKeys | app.js:33-43 | A record's keys are exactly the header names that have a cell on that line. Extra cells are ignored and missing cells leave the key out. |
| Csv.ParseCsvCells | app.js:37 | Every cell is trimmed and holds neither a comma nor a line feed. |
| Csv.ParseCsvClean | app.js:29-46 | Every cell of every record parsed from any text is clean in that sense. |
| Catalog.Field | app.js:72 | Reading a column gives a value exactly when the row has that key. |
| Catalog.Fill | app.js:70-75 | The `forEach` loop yields the fold `Upserts` of the rows over the old catalog. |
| Catalog.UpsertsKeys | app.js:79-88 | A filled catalog's keys are the old keys plus the key of every row that has one. |
| Catalog.UpsertsGrow | app.js:92-100 | Filling a catalog never loses a key. |
| Catalog.UpsertsLastWins | app.js:83-86 | The last row with a key decides that key's value. |
| Catalog.UpsertsUntouched | app.js:70-75 | An old key no row carries keeps its value. |
| Catalog.UpsertsProvenance | app.js:79-88 | Every value was already there, or comes from a row stored under that key. |
| Catalog.RouteOf | app.js:71-74 | The route object `{short_name, long_name}` of a row. Definition; no contract of its own; properties in `Catalog.RoutesCatalog`. |
| Catalog.TripOf | app.js:80-86 | The trip object `{route_id, headsign}` of a row. Definition; no contract of its own; properties in `Catalog.TripsCatalogValue` and `Catalog.TripRowNonEmpty`. |
| Catalog.StopOf | app.js:96-98 | The stop object `{stop_name}` of a row. Definition; no contract of its own; properties in `Catalog.StopsCatalogValue` and `Catalog.StopRowNonEmpty`. |
| Catalog.Routes | app.js:69-75 | `MapRoutes` after the `forEach` over the route rows. Definition; no contract of its own; properties in `Catalog.RoutesCatalog` and the `Catalog.Upserts*` rows. |
| Catalog.Trips | app.js:78-88 | `MapTrips` after the `forEach` over the trip rows. Definition; no contract of its own; properties in `Catalog.TripsCatalogKeys`, `Catalog.TripsCatalogValue` and `Catalog.TripsNonEmpty`. |
| Catalog.Stops | app.js:91-100 | `MapStops` after the `forEach` over the stop rows. Definition; no contract of its own; properties in `Catalog.StopsCatalogKeys`, `Catalog.StopsCatalogValue` and `Catalog.StopsNonEmpty`. |
| Catalog.RoutesCatalog | app.js:69-75 | Every route row is stored under its `route_id` (or "undefined") with its short and long names, the last such row winning. |
| Catalog.TripsCatalogKeys | app.js:78-88 | The trip catalog gains exactly the trimmed ids of the rows with a non-empty `trip_id`. |
| Catalog.TripsCatalogValue | app.js:80-87 | A trip's route is the row's `route_id`. Its headsign is the trimmed `trip_headsign`, or "Destino Desconocido" when that is empty or absent. |
| Catalog.StopsCatalogKeys | app.js:91-100 | The stop catalog gains exactly the rows where both `stop_id` and `stop_name` are non-empty, keyed by the trimmed id. |
| Catalog.StopsCatalogValue | app.js:94-98 | A stop's name is the trimmed `stop_name` of the last row for it. |
| Catalog.TripRowNonEmpty | app.js:82-86 | A stored trip row with trimmed cells has a non-empty key and a non-empty headsign. |
| Catalog.StopRowNonEmpty | app.js:94-97 | A stored stop row with trimmed cells has a non-empty name. |
| Catalog.TripsNonEmpty | app.js:80-86 | A trip catalog built from clean rows has no empty id and no empty headsign. |
| Catalog.StopsNonEmpty | app.js:94-98 | A stop catalog built from clean rows has no empty name. |
| Catalog.CatalogsFromCsvNonEmpty | app.js:78-100 | Catalogs read from any CSV text have no empty trip id, headsign or stop name. |
| Platform.MatchPlatform | app.js:179 | `label.match(/\((\d+)\)$/)` and its first capture. Definition; no contract of its own; properties in `Platform.MatchPlatformSpec`. |
| Platform.TrailingDigits | app.js:179 | The length of the digit run ending the text: all its characters are digits, and the one before it is not. |
| Platform.MatchPlatformSpec | app.js:179 | The regex matches with capture `d` exactly when the label ends with "(", the non-empty digit run `d`, then ")". |
| Platform.PlatformCode | app.js:173-183 | The platform is "N/A" or a capture of the label's regex, and a capture is never "N/A". |
| Platform.PlatformCodeIff | app.js:173-183 | A label ending in `(d)` gives `d`; no label, or no such ending, gives "N/A". |
| Platform.PlatformExample | app.js:176-181 | The label "C1-23562-PLATF.(2)" gives platform "2". |
| Display.DelayMinutes | app.js:230 | `Math.round(delay / 60)` is the minute count `m` with `60m - 30 <= delay < 60m + 30`. |
| Display.DelayMinutesMonotone | app.js:230 | A larger delay never shows fewer minutes. |
| Display.DelayBadgeOf | app.js:231-232 | The popup says late exactly when the delay is at least 30 seconds, and names at least one minute. |
| Display.DelayText | app.js:231-232 | The delay line's text. Definition; no contract of its own; properties in `Display.DelayTextReadsBack`. |
| Display.DelayTextReadsBack | app.js:232 | The two delay lines never read the same, and the late line's number is its minutes. |
| Display.StopLineOf | app.js:235-241 | A catalog stop shows its name, an unknown non-empty id shows the id, and an absent or empty id shows the placeholder. |
| Display.StopText | app.js:235-241 | The stop line's text. Definition; no contract of its own; properties in `Display.StopLineOf` and `Display.StopTextNeverBlank`. |
| Display.StopTextNeverBlank | app.js:235-241 | With a stop catalog read from `stops.txt`, the stop line is never empty. |
| Display.PlatformBadgeFromLabel | app.js:244-246 | The popup shows track `d` exactly when the label ends in `(d)`, and "not assigned" exactly when it has no such ending. |
| Display.PlatformText | app.js:244-246 | The platform line's text. Definition; no contract of its own; properties in `Display.PlatformBadgeFromLabel`. |
| Display.RouteText | app.js:249 | A route name prints as itself; an absent one prints "undefined". |
| Display.PopupOf | app.js:228-256 | Everything the popup of a train shows. Definition; no contract of its own; properties in `Display.PopupReflectsRecord` and `Tracker.Tracker.UpdateMarker`. |
| Display.PopupReflectsRecord | app.js:248-256 | The popup determines the delay to the nearest minute, or bounds it below 30 seconds, and determines the platform field. |
| Reconcile.IsValenciaTrain | app.js:131-134 | The geographic filter admits every position. |
| Reconcile.GeofenceAdmitsOutsideBox | app.js:17-19 | A position outside the configured box still passes the filter. |
| Reconcile.AfterTripUpdates | app.js:136-147 | `processTripUpdates`: the map after the entities, and whether the loop ran to the end. Definition; no contract of its own; properties in the `Reconcile.TripUpdates*` rows and `Tracker.ApplyTripUpdates`. |
| Reconcile.TripUpdatesOnlyDelays | app.js:136-147 | Trip updates never add or remove a train, and change nothing but delays. |
| Reconcile.TripUpdatesCompleted | app.js:137-139 | The loop runs to the end exactly when every entity has `tripUpdate.trip.tripId`. |
| Reconcile.TripUpdatesMarkers | app.js:143-145 | Trip updates keep the marker bookkeeping. |
| Reconcile.TripUpdatesAppend | app.js:137-146 | Two batches in a row give the same result as one batch, unless the first batch stopped. |
| Reconcile.TripUpdatesStopAtMalformed | app.js:139 | At the first malformed entity the loop stops: earlier delays stay and nothing later applies. |
| Reconcile.TripUpdatesUnreported | app.js:143-145 | A train no processed entity names keeps its record unchanged. |
| Reconcile.TripUpdatesLastWins | app.js:140-145 | The last entity naming a train sets its delay to the reported value, or 0, when nothing before it threw. |
| Reconcile.Sight | app.js:152-170 | An entity is accepted exactly when it has `vehicle`, `position`, `trip` and a non-empty `tripId` whose trimmed form is a catalog trip. The sighting is keyed by that trimmed id. |
| Reconcile.RouteName | app.js:186-187 | `routeInfo ? routeInfo.short_name : 'Línea Desconocida'`. Definition; no contract of its own; properties in `Reconcile.SightCatalog`. |
| Reconcile.CurrentStopId | app.js:174 | `vehicle.stopId ? vehicle.stopId.trim() : null`. Definition; no contract of its own; properties in `Reconcile.UpsertRefreshes` and `FeedBridge.DecodedSight`. |
| Reconcile.VehicleLabel | app.js:177 | `vehicle.vehicle && vehicle.vehicle.label`. Definition; no contract of its own; properties in `Platform.PlatformCodeIff` and `FeedBridge.DecodedSight`. |
| Reconcile.SightCatalog | app.js:186-188 | An accepted entity's route and destination come from its trip's catalog row. |
| Reconcile.ShowMarker | app.js:258-267 | The marker half of `updateMarker`: move or create, or a Leaflet throw on a missing coordinate. Definition; no contract of its own; properties in `Reconcile.UpsertShape`, `Reconcile.UpsertMarkers` and `Tracker.Tracker.UpdateMarker`. |
| Reconcile.Upsert | app.js:192-214 | Create or refresh one sighted train, then `updateMarker`. Definition; no contract of its own; properties in `Reconcile.UpsertShape`, `Reconcile.UpsertRefreshes`, `Reconcile.UpsertKeepsFields` and `Reconcile.UpsertMarkers`. |
| Reconcile.UpsertShape | app.js:192-214 | One sighting stores exactly its trip: new trains start with delay 0 and the catalog's route and destination; known trains keep those and their marker. Position, platform and stop are refreshed either way, and drawing succeeds exactly when both coordinates are present. |
| Reconcile.UpsertRefreshes | app.js:204-213 | The sighted train carries the sighting's position, platform and stop, and a marker once drawn. |
| Reconcile.UpsertKeepsFields | app.js:203-213 | A sighting keeps every record's delay, route, destination and existing marker. |
| Reconcile.UpsertMarkers | app.js:258-267 | A sighting keeps the marker bookkeeping, and handle numbers only grow. |
| Reconcile.DropMarker | app.js:220-223 | Deleting a record and logging its marker keeps the marker bookkeeping. |
| Reconcile.Evict | app.js:218-225 | The clean-up keeps exactly the trains seen this cycle, with their records. |
| Reconcile.EvictionStep | app.js:219-224 | Visiting one key of the clean-up loop drops an unseen record and logs its marker. |
| Reconcile.EvictionEnd | app.js:218-225 | The clean-up loop ends with the evicted map, and its log holds exactly the markers of the unseen trains. |
| Reconcile.SweepVehicles | app.js:150-215 | The entity loop of `processVehiclePositions`. Definition; no contract of its own; properties in the `Reconcile.Sweep*` rows and `Tracker.Tracker.SweepEntities`. |
| Reconcile.SweepMarkers | app.js:151-215 | The entity loop keeps the marker bookkeeping. |
| Reconcile.SweepCompleted | app.js:151-215 | The entity loop runs to the end exactly when every accepted entity has both coordinates. |
| Reconcile.SweepActive | app.js:150-190 | `activeTripIds` only grows, by accepted ids. After a full run it holds exactly the accepted ids. |
| Reconcile.SweepKeys | app.js:190-193 | The loop adds a record exactly for each id it puts in `activeTripIds`. |
| Reconcile.SweepKeepsFields | app.js:203-213 | A train already present keeps its delay, route, destination and marker through the loop. |
| Reconcile.SweepNewFields | app.js:192-201 | A train the loop creates is a catalog trip with delay 0, the catalog's route name and the trip's headsign. |
| Reconcile.SweepKeepsUntouched | app.js:151-215 | A train no accepted entity names keeps its whole record. |
| Reconcile.SweepLastSighting | app.js:204-213 | After a full run, the last accepted entity for a trip decides its position, platform and stop, and the trip has a marker. |
| Reconcile.LastIndex | app.js:151-215 | Proof helper for `Reconcile.SweepMarked`, not a model of its own: every accepted id has a last accepting entity, and no later entity accepts it. |
| Reconcile.SweepMarked | app.js:258-267 | After a full run, every accepted trip has a marker. |
| Reconcile.AfterVehiclePositions | app.js:149-226 | `processVehiclePositions`: the entity loop, then the clean-up when the loop ran to the end. Definition; no contract of its own; properties in `Reconcile.AfterVehiclePositionsKeys`, `Reconcile.AfterVehiclePositionsFields`, `Reconcile.AfterVehiclePositionsEvicts` and `Tracker.Tracker.ProcessVehiclePositions`. |
| Reconcile.AfterVehiclePositionsKeys | app.js:149-226 | After a normal return, `trenesCV` holds exactly the accepted trip ids, each with a marker. |
| Reconcile.AfterVehiclePositionsFields | app.js:192-213 | After a normal return, known trains keep delay, route, destination and marker. New trains have delay 0 and catalog route and destination. |
| Reconcile.AfterVehiclePositionsEvicts | app.js:218-225 | The markers removed are exactly those of the previously known trains not seen in the snapshot. |
| Reconcile.Cycle | app.js:272-294 | One run of `fetchAndUpdateData`. Definition; no contract of its own; properties in `Reconcile.CycleNoOp`, `Reconcile.CycleStopsAfterMalformedTripUpdate`, `Reconcile.CycleTrains` and `Tracker.Tracker.FetchAndUpdateData`. |
| Reconcile.CycleNoOp | app.js:273-275 | With an empty trip catalog, or no trip-update document, a cycle changes nothing. |
| Reconcile.CycleStopsAfterMalformedTripUpdate | app.js:278-293 | A malformed trip update ends the cycle. No train is created, moved or evicted, and only delays change. With a loaded trip catalog, the map is exactly what the entities before the first malformed one made of it. |
| Reconcile.CycleTrains | app.js:278-287 | A full cycle leaves exactly the snapshot's trains. Survivors carry the trip-update delay, and trains new to the cycle carry 0. |
| Tracker.ShownStep | app.js:190-214 | Recording and drawing one more vehicle keeps every seen train's marker showing its current record. |
| Tracker.UnshownStep | app.js:258-262 | A vehicle that could not be drawn leaves the bookkeeping sound and the trains inside the trip catalog. |
| Tracker.AcceptVehicle | app.js:152-188 | The explicit filters and lookups yield exactly `Sight`'s sighting. |
| Tracker.ApplyTripUpdates | app.js:137-146 | The entity loop yields `AfterTripUpdates`: the map, and whether it ran to the end. |
| Tracker.LoadedCatalogs | app.js:69-100 | Loading the files never removes a trip from the catalog. |
| Tracker.ReadCatalogs | app.js:68-100 | The three parse-and-fill loops yield `LoadedCatalogs`. |
| Tracker.EvictShown | app.js:218-225 | After the clean-up, every remaining train is a catalog trip whose marker shows its record. |
| Tracker.Tracker.constructor | app.js:21-25 | Empty catalogs, no trains, no markers. |
| Tracker.Tracker.LoadStaticData | app.js:51-109 | The catalogs are all refilled when the three downloads succeed, and all untouched otherwise. Valid state is kept. |
| Tracker.Tracker.ProcessTripUpdates | app.js:136-147 | The loop leaves `AfterTripUpdates`' map and reports whether it ran to the end. It keeps `Valid`. |
| Tracker.Tracker.UpdateMarker | app.js:228-268 | Moves or creates the marker as `ShowMarker` says. The marker's popup is then `PopupOf` the record; after a throw, popups are unchanged. |
| Tracker.Tracker.RecordSighting | app.js:192-214 | Stores the record as `Upsert` says and draws it. |
| Tracker.Tracker.RemoveUnseen | app.js:218-225 | Leaves `Evict` of the map. The log grows by exactly the markers of the unseen trains, and the bookkeeping is kept. |
| Tracker.Tracker.VisitVehicle | app.js:151-214 | A rejected entity changes nothing. An accepted one does what `Upsert` says and joins `activeTripIds`, keeping `ShownSoFar`. |
| Tracker.Tracker.SweepEntities | app.js:150-215 | The entity loop ends in `SweepVehicles`' state. After a full run every seen train's marker shows its record. |
| Tracker.Tracker.ProcessVehiclePositions | app.js:149-226 | Ends in `AfterVehiclePositions`' state, and removes exactly the markers of the evicted trains. After a normal return every train's marker shows its record. |
| Tracker.Tracker.FetchAndUpdateData | app.js:272-294 | Ends in `Cycle`'s state, and refreshes exactly when both documents were processed to the end. Every marker then shows its record. The log only grows, by exactly the markers of the trains the clean-up evicts, and by none when the cycle does not refresh. Popups are untouched when the vehicle loop never runs. |
| Decoder.ProjectVehicle | decoder_server.py:43-77 | The `vehicle` dictionary, absent when empty. Definition; no contract of its own; properties in `Decoder.VehicleDict`, `Decoder.EmptyVehicleTripDropped`, `Decoder.ProjectOfLift` and `Decoder.LiftOfProject`. |
| Decoder.ProjectStopTimeUpdates | decoder_server.py:95-109 | The `stop_time_update` list. Definition; no contract of its own; properties in `Decoder.StopTimeUpdateList` and `Decoder.EmptyStopTimeUpdateKept`. |
| Decoder.ProjectTripUpdate | decoder_server.py:82-115 | The `tripUpdate` dictionary, absent when empty. Definition; no contract of its own; properties in `Decoder.TripUpdateDict`, `Decoder.EmptyTripUpdateTripKept`, `Decoder.ProjectOfLift` and `Decoder.LiftOfProject`. |
| Decoder.ProjectEntity | decoder_server.py:38-119 | The entity dictionary, dropped when empty. Definition; no contract of its own; properties in `Decoder.EntityDict`, `Decoder.ProjectEntitiesMembers` and `Decoder.LiftOfProject`. |
| Decoder.ProjectEntities | decoder_server.py:35-119 | The list is never longer than the feed. |
| Decoder.ProjectEntitiesAppend | decoder_server.py:36-119 | The entity list of a concatenation is the concatenation of the lists. |
| Decoder.ProjectEntitiesMembers | decoder_server.py:118-119 | The list holds exactly the projections of the entities that do not come out empty. |
| Decoder.ProjectWellFormed | decoder_server.py:38-119 | No object the server writes is empty except a trip update's `trip` and a stop-time update. It writes no empty list, and every `time` is a numeral. |
| Decoder.ProjectOfLift | decoder_server.py:38-119 | Every object of that shape is what the server writes for the message read back from it. |
| Decoder.LiftOfProject | decoder_server.py:38-119 | Reading the document back gives the message with exactly its empty sub-messages erased. An entity is dropped exactly when it is empty in that sense. |
| Decoder.ProjectDeterminesNormal | decoder_server.py:38-119 | Entities with the same document entity agree up to empty sub-messages. |
| Decoder.EmptyTripUpdateTripKept | decoder_server.py:84-90 | An empty `trip` of a trip update is still written, and keeps its entity listed. |
| Decoder.EmptyVehicleTripDropped | decoder_server.py:61-68 | An empty `trip` of a vehicle is dropped, and an entity with nothing else is not listed. |
| Decoder.EmptyStopTimeUpdateKept | decoder_server.py:96-112 | An empty stop-time update is listed as an empty object. |
| Decoder.StopTimeUpdateList | decoder_server.py:95-109 | The loop builds `ProjectStopTimeUpdates`. |
| Decoder.TripUpdateDict | decoder_server.py:82-115 | The field-by-field construction gives `ProjectTripUpdate`. |
| Decoder.VehicleDict | decoder_server.py:43-77 | The key-by-key construction of the vehicle dictionary gives `ProjectVehicle`: `position` and `trip` only when non-empty, `vehicle.label` only when set, and nothing when all are absent. |
| Decoder.EntityDict | decoder_server.py:38-117 | The entity dictionary built from `VehicleDict` and `TripUpdateDict` gives `ProjectEntity`, and it is dropped when empty. |
| Decoder.Decode | decoder_server.py:35-128 | The result document: the entity list and the integer header timestamp. Definition; no contract of its own; properties in `Decoder.DecodeFeed` and `Decoder.ProjectWellFormed`. |
| Decoder.DecodeFeed | decoder_server.py:35-128 | The entity loop and result document give `Decode`. |
| Server.Truncate | decoder_server.py:143 | `int()` of a clock reading truncates toward zero. |
| Server.EmptyDoc | decoder_server.py:143 | The fallback document lists no entity. |
| Server.Respond | decoder_server.py:19-149 | Only a successful download adds a cache key, and no other feed's entry changes. |
| Server.Fresh | decoder_server.py:23 | The freshness test of the cache. Definition; no contract of its own; properties in `Server.CacheHit` and `Server.ServedUntilExpiry`. |
| Server.CacheHit | decoder_server.py:23-24 | A fresh entry is served as it is, without downloading. |
| Server.DownloadStored | decoder_server.py:130-136 | Without a fresh entry, a decoded feed is answered and cached for 25 seconds from the later clock reading. |
| Server.NetworkErrorFallsBack | decoder_server.py:138-143 | A network error serves the cached document, however old, or the empty one. The cache is kept. |
| Server.DecodeErrorIgnoresCache | decoder_server.py:145-149 | A decoding error answers the empty document even when a stale entry exists. |
| Server.ServedUntilExpiry | decoder_server.py:23-24 | After a download the same document is served without downloading until expiry, and downloaded again after it. |
| Server.StaleAfterNetworkError | decoder_server.py:138-142 | After a download, a network error at any later time still serves that document. |
| Server.FeedsIndependent | decoder_server.py:16 | The two feeds share the cache but never each other's entry. |
| Server.DecoderServer.constructor | decoder_server.py:16 | The cache starts empty. |
| Server.DecoderServer.FetchAndDecode | decoder_server.py:19-149 | The answer, the new cache and the download flag are those of `Respond`. |
| FeedBridge.DecodedVehicle | decoder_server.py:43-77 | The projected vehicle has a position, a trip and a non-empty trip id exactly when the message's does, with at least one coordinate. Its coordinates, trip id, stop id and label are then the message's. |
| FeedBridge.DecodedSight | decoder_server.py:43-77 | A decoded entity is accepted by the client exactly when the message has a vehicle with a coordinate and a catalog trip id. Its coordinates, platform and stop come from the message, and it can be drawn exactly when both coordinates are set. |
| FeedBridge.DecodedTripUpdate | decoder_server.py:82-93 | The client reads a decoded trip id exactly when the message has one, and the delay as the message's, or 0. |
| FeedBridge.DecodedTripUpdatesComplete | decoder_server.py:82-119 | The client's trip-update loop runs through a decoded feed exactly when every listed entity has a trip update with a trip id. |

## Left out

- The shipped client fetches Renfe's JSON feeds through `corsproxy.io` (app.js:4-9), not the decoder's `/api/vehicle_positions` and `/api/trip_updates` routes (decoder_server.py:151-159). `FeedBridge` therefore states what the client would make of the decoder's documents, not a connection the code makes.
- Leaflet: the map, tile layer, icon and layer group are not modelled. A marker is a handle, and its popup is the `Popup` value. The HTML markup of the popup is not modelled. The route's long name is stored (`RouteInfo.longName`) but never shown in the popup.
- `fetch`, `Promise.all`, `response.ok`, `response.text()` and `response.json()` are not modelled. Their results are method inputs.
- `console.log` and `console.error` are left out, because they have no effect on the state.
- The error branch of `loadStaticData` is left out: `clearInterval` and the error message written into the page. Only its effect on the catalogs is modelled: none are touched.
- The start-up code (app.js:298-302) and `setInterval` are not modelled, and neither is overlap between cycles. Each call of `FetchAndUpdateData` is one cycle, run to completion.
- JavaScript objects are maps from string to value. Property names inherited from `Object.prototype`, and the iteration order of `Object.keys`, are not modelled. The clean-up loop is proved for any visiting order.
- Coordinates are reals. Floating-point rounding is not modelled, and neither is the float32 precision of protobuf latitude and longitude.
- The repeated assignments at app.js:209-212 are modelled once. They repeat lines 204-207.
- Flask, `jsonify`, the HTTP routes and `print` are left out. The two routes are the two cache keys.
- Concurrent requests are not modelled: requests are taken one at a time. Flask's development server (decoder_server.py:169) answers requests in threads, so two requests for an expired feed can both download, and the last write to `cache` wins.
- `requests.get` with its timeout, `raise_for_status` and `ParseFromString` are not modelled. The latter includes proto2's required-field check. Their outcome is the `Fetch` input.
- Only the fields the server reads are kept in the protobuf messages.
- `time.time()` is the two parameters `now` and `later`. The empty document's timestamp reuses `later`.
- download_gtfs.py is not part of this model, because it only downloads the static files.
- Csv.NonEmptyRecords: its own contract only bounds the length. Which records it keeps is stated by `NonEmptyRecordsMembers` and `FilterKeepsAll`.
- Decoder.ProjectEntities: its own contract only bounds the length. The list's contents are stated by `ProjectEntitiesMembers` and `ProjectEntitiesAppend`.
- Tracker.LoadedCatalogs: its own contract only says the trip catalog grows. The catalogs' contents are stated by the `Catalog` lemmas about `Routes`, `Trips` and `Stops`.
