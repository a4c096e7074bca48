/** What one polling cycle of the browser client does to `trenesCV`, as
    functions of the state before it: `processTripUpdates` (app.js:136-147),
    `processVehiclePositions` (app.js:149-226), the marker half of
    `updateMarker` (app.js:258-267) and the sequencing of
    `fetchAndUpdateData` (app.js:272-294). The loops that carry these out in
    place are the methods of `Tracker.Tracker`. */
module Reconcile {
  import opened Wrappers
  import opened JsString
  import opened Catalog
  import opened FeedJson
  import opened Platform

  /** An opaque handle on a Leaflet marker. */
  datatype MarkerId = MarkerId(n: nat)

  /** One value of `trenesCV`. `route` is None when the route row had no
      `route_short_name` (the property is then `undefined`). */
  datatype TrainRecord = TrainRecord(
    lat: Option<real>,
    lon: Option<real>,
    delay: int,
    marker: Option<MarkerId>,
    route: Option<string>,
    destination: string,
    platform: string,
    currentStopId: Option<string>)

  /** `MapRoutes`, `MapTrips` and `MapStops`. */
  datatype Catalogs = Catalogs(routes: map<string, RouteInfo>, trips: map<string, TripInfo>, stops: map<string, StopInfo>)

  /** The route text of a train whose trip names an unknown route. */
  const UNKNOWN_ROUTE := "Línea Desconocida"

  /** `VALENCIA_BBOX` (app.js:17-19); nothing in the client reads it. */
  const VALENCIA_MIN_LAT: real := 37.95
  const VALENCIA_MAX_LAT: real := 40.80
  const VALENCIA_MIN_LON: real := -1.80
  const VALENCIA_MAX_LON: real := 0.70

  /** `isValenciaTrain`: the geographic filter is switched off and admits
      every position, known or not. */
  predicate IsValenciaTrain(lat: Option<real>, lon: Option<real>): (r: bool)
    ensures r
  {
    true
  }

  /** A vehicle in Madrid, well outside the configured box, still passes. */
  lemma GeofenceAdmitsOutsideBox()
    ensures IsValenciaTrain(Some(40.4168), Some(-3.7038))
    ensures !(VALENCIA_MIN_LON <= -3.7038 <= VALENCIA_MAX_LON)
  {
  }

  /** Leaflet builds a marker position with `L.latLng`, which throws on a
      coordinate that is not a number; a missing one is `undefined`. */
  predicate Renderable(lat: Option<real>, lon: Option<real>) {
    lat.Some? && lon.Some?
  }

  // ---------------------------------------------------------------------
  // processTripUpdates

  /** `entity.tripUpdate.trip.tripId.trim()`, or None where that throws a
      TypeError because a link of the chain is missing. */
  function TripUpdateId(e: EntityJson): Option<string> {
    if e.tripUpdate.Some? && e.tripUpdate.value.trip.Some? && e.tripUpdate.value.trip.value.tripId.Some?
    then Some(Trim(e.tripUpdate.value.trip.value.tripId.value))
    else None
  }

  /** `tripUpdate.delay || 0`. */
  function ReportedDelay(e: EntityJson): int {
    if e.tripUpdate.Some? then e.tripUpdate.value.delay.GetOr(0) else 0
  }

  /** `if (trenesCV[tripId]) trenesCV[tripId].delay = delay;`. */
  function SetDelay(trains: map<string, TrainRecord>, id: string, d: int): map<string, TrainRecord> {
    if id in trains then trains[id := trains[id].(delay := d)] else trains
  }

  /** The map after the entities, and whether the loop ran to the end (false:
      an entity threw and the rest were not looked at). */
  datatype TripUpdatesOutcome = TripUpdatesOutcome(trains: map<string, TrainRecord>, completed: bool)

  function AfterTripUpdates(trains: map<string, TrainRecord>, es: seq<EntityJson>): TripUpdatesOutcome
    decreases |es|
  {
    if es == [] then TripUpdatesOutcome(trains, true)
    else
      match TripUpdateId(es[0])
      case None => TripUpdatesOutcome(trains, false)
      case Some(id) => AfterTripUpdates(SetDelay(trains, id, ReportedDelay(es[0])), es[1..])
  }

  /** Trip updates never add or remove a train and change nothing but delays. */
  lemma {:induction false} TripUpdatesOnlyDelays(trains: map<string, TrainRecord>, es: seq<EntityJson>)
    ensures AfterTripUpdates(trains, es).trains.Keys == trains.Keys
    ensures forall k :: k in trains ==>
              AfterTripUpdates(trains, es).trains[k] == trains[k].(delay := AfterTripUpdates(trains, es).trains[k].delay)
    decreases |es|
  {
    if es != [] && TripUpdateId(es[0]).Some? {
      var t := SetDelay(trains, TripUpdateId(es[0]).value, ReportedDelay(es[0]));
      TripUpdatesOnlyDelays(t, es[1..]);
    }
  }

  /** The loop runs to the end exactly when every entity has
      `tripUpdate.trip.tripId`. */
  lemma {:induction false} TripUpdatesCompleted(trains: map<string, TrainRecord>, es: seq<EntityJson>)
    ensures AfterTripUpdates(trains, es).completed <==> forall i :: 0 <= i < |es| ==> TripUpdateId(es[i]).Some?
    decreases |es|
  {
    if es != [] && TripUpdateId(es[0]).Some? {
      var t := SetDelay(trains, TripUpdateId(es[0]).value, ReportedDelay(es[0]));
      TripUpdatesCompleted(t, es[1..]);
      forall j | 0 <= j < |es[1..]| ensures es[1..][j] == es[j + 1] {
      }
    }
  }

  /** Trip updates leave every marker where it was, so the marker
      bookkeeping still holds. */
  lemma TripUpdatesMarkers(trains: map<string, TrainRecord>, es: seq<EntityJson>, next: nat, removed: seq<MarkerId>)
    requires MarkersOk(trains, next, removed)
    ensures MarkersOk(AfterTripUpdates(trains, es).trains, next, removed)
  {
    TripUpdatesOnlyDelays(trains, es);
    var r := AfterTripUpdates(trains, es).trains;
    assert forall k :: k in r ==> r[k].marker == trains[k].marker;
  }

  /** Processing two batches one after the other is processing them together,
      unless the first one already stopped. */
  lemma {:induction false} TripUpdatesAppend(trains: map<string, TrainRecord>, a: seq<EntityJson>, b: seq<EntityJson>)
    ensures var r := AfterTripUpdates(trains, a);
            AfterTripUpdates(trains, a + b) == if r.completed then AfterTripUpdates(r.trains, b) else r
    decreases |a|
  {
    if a == [] {
      assert a + b == b;
    } else {
      assert (a + b)[0] == a[0] && (a + b)[1..] == a[1..] + b;
      if TripUpdateId(a[0]).Some? {
        TripUpdatesAppend(SetDelay(trains, TripUpdateId(a[0]).value, ReportedDelay(a[0])), a[1..], b);
      }
    }
  }

  /** At the first malformed entity the loop stops: the delays written before
      it stay, nothing after it is applied. */
  lemma TripUpdatesStopAtMalformed(trains: map<string, TrainRecord>, es: seq<EntityJson>, i: int)
    requires 0 <= i < |es| && TripUpdateId(es[i]).None?
    requires forall j :: 0 <= j < i ==> TripUpdateId(es[j]).Some?
    ensures AfterTripUpdates(trains, es[..i]).completed
    ensures AfterTripUpdates(trains, es) == TripUpdatesOutcome(AfterTripUpdates(trains, es[..i]).trains, false)
  {
    TripUpdatesCompleted(trains, es[..i]);
    TripUpdatesAppend(trains, es[..i], es[i..]);
    assert es[..i] + es[i..] == es;
    assert es[i..][0] == es[i];
  }

  /** A train keeps its delay when no processed entity names it. */
  lemma {:induction false} TripUpdatesUnreported(trains: map<string, TrainRecord>, es: seq<EntityJson>, k: string)
    requires k in trains
    requires forall i :: 0 <= i < |es| ==> TripUpdateId(es[i]) != Some(k)
    ensures k in AfterTripUpdates(trains, es).trains
    ensures AfterTripUpdates(trains, es).trains[k] == trains[k]
    decreases |es|
  {
    if es != [] && TripUpdateId(es[0]).Some? {
      var t := SetDelay(trains, TripUpdateId(es[0]).value, ReportedDelay(es[0]));
      TripUpdatesUnreported(t, es[1..], k);
    }
  }

  /** A train's delay is set by the last entity naming it (its reported delay,
      0 when absent or 0), provided no entity up to that one threw. */
  lemma {:induction false} TripUpdatesLastWins(trains: map<string, TrainRecord>, es: seq<EntityJson>, k: string, i: int)
    requires k in trains && 0 <= i < |es| && TripUpdateId(es[i]) == Some(k)
    requires forall j :: 0 <= j <= i ==> TripUpdateId(es[j]).Some?
    requires forall j :: i < j < |es| ==> TripUpdateId(es[j]) != Some(k)
    ensures k in AfterTripUpdates(trains, es).trains
    ensures AfterTripUpdates(trains, es).trains[k].delay == ReportedDelay(es[i])
    decreases i
  {
    var t := SetDelay(trains, TripUpdateId(es[0]).value, ReportedDelay(es[0]));
    if i == 0 {
      TripUpdatesUnreported(t, es[1..], k);
    } else {
      TripUpdatesLastWins(t, es[1..], k, i - 1);
    }
  }

  // ---------------------------------------------------------------------
  // processVehiclePositions

  /** What an accepted vehicle entity contributes: its trimmed trip id, the
      reported position, the platform code, the current stop and the display
      copies resolved from the catalogs. */
  datatype Sighting = Sighting(
    tripId: string,
    lat: Option<real>,
    lon: Option<real>,
    platform: string,
    stopId: Option<string>,
    route: Option<string>,
    destination: string)

  /** `routeInfo ? routeInfo.short_name : 'Línea Desconocida'`, looked up
      under the trip's `route_id` (the key "undefined" when it has none). */
  function RouteName(cat: Catalogs, trip: TripInfo): Option<string> {
    var key := JsKey(trip.routeId);
    if key in cat.routes then cat.routes[key].shortName else Some(UNKNOWN_ROUTE)
  }

  /** `vehicle.stopId ? vehicle.stopId.trim() : null`. */
  function CurrentStopId(stopId: Option<string>): Option<string> {
    if Truthy(stopId) then Some(Trim(stopId.value)) else None
  }

  /** `vehicle.vehicle && vehicle.vehicle.label`. */
  function VehicleLabel(v: VehicleJson): Option<string> {
    if v.vehicle.Some? then v.vehicle.value.labelText else None
  }

  /** The filters of the entity loop: an entity counts when it has `vehicle`,
      `position`, `trip`, a non-empty `tripId`, passes the geofence and its
      trimmed trip id is in the trip catalog. */
  function Sight(cat: Catalogs, e: EntityJson): (r: Option<Sighting>)
    ensures r.Some? <==>
              && e.vehicle.Some? && e.vehicle.value.position.Some? && e.vehicle.value.trip.Some?
              && Truthy(e.vehicle.value.trip.value.tripId)
              && Trim(e.vehicle.value.trip.value.tripId.value) in cat.trips
    ensures r.Some? ==> r.value.tripId == Trim(e.vehicle.value.trip.value.tripId.value)
  {
    if e.vehicle.None? then None
    else
      var v := e.vehicle.value;
      if v.position.None? || v.trip.None? || !Truthy(v.trip.value.tripId) then None
      else
        var id := Trim(v.trip.value.tripId.value);
        var lat := v.position.value.latitude;
        var lon := v.position.value.longitude;
        if !IsValenciaTrain(lat, lon) then None
        else if id !in cat.trips then None
        else
          var trip := cat.trips[id];
          Some(Sighting(id, lat, lon, PlatformCode(VehicleLabel(v)), CurrentStopId(v.stopId), RouteName(cat, trip), trip.headsign))
  }

  /** The map, the next marker handle and whether `updateMarker` returned
      normally (false: Leaflet threw). */
  datatype Step = Step(trains: map<string, TrainRecord>, next: nat, ok: bool)

  /** The marker half of `updateMarker`: move an existing marker, or create
      one when the record has none. Either Leaflet call throws on a missing
      coordinate, leaving the record stored but its marker as it was. */
  function ShowMarker(trains: map<string, TrainRecord>, next: nat, id: string, rec: TrainRecord): Step {
    if !Renderable(rec.lat, rec.lon) then Step(trains[id := rec], next, false)
    else if rec.marker.Some? then Step(trains[id := rec], next, true)
    else Step(trains[id := rec.(marker := Some(MarkerId(next)))], next + 1, true)
  }

  /** Create the record of a newly seen trip, or refresh the changing fields of
      a known one, then call `updateMarker`. */
  function Upsert(trains: map<string, TrainRecord>, next: nat, s: Sighting): Step {
    if s.tripId !in trains then
      ShowMarker(trains, next, s.tripId, TrainRecord(s.lat, s.lon, 0, None, s.route, s.destination, s.platform, s.stopId))
    else
      ShowMarker(trains, next, s.tripId,
                 trains[s.tripId].(lat := s.lat, lon := s.lon, platform := s.platform, currentStopId := s.stopId))
  }

  /** The state of the entity loop: the map, the next marker handle,
      `activeTripIds`, and whether it ran to the end. */
  datatype Sweep = Sweep(trains: map<string, TrainRecord>, next: nat, active: set<string>, ok: bool)

  /** The entity loop of `processVehiclePositions`, from the given state. */
  function SweepVehicles(cat: Catalogs, trains: map<string, TrainRecord>, next: nat, active: set<string>, es: seq<EntityJson>): Sweep
    decreases |es|
  {
    if es == [] then Sweep(trains, next, active, true)
    else
      match Sight(cat, es[0])
      case None => SweepVehicles(cat, trains, next, active, es[1..])
      case Some(s) =>
        var u := Upsert(trains, next, s);
        if !u.ok then Sweep(u.trains, u.next, active + {s.tripId}, false)
        else SweepVehicles(cat, u.trains, u.next, active + {s.tripId}, es[1..])
  }

  /** The clean-up loop: every record whose trip was not seen is deleted. */
  function Evict(trains: map<string, TrainRecord>, active: set<string>): (r: map<string, TrainRecord>)
    ensures r.Keys == trains.Keys * active
    ensures forall k :: k in r ==> r[k] == trains[k]
  {
    map k | k in trains && k in active :: trains[k]
  }

  /** The markers the clean-up loop removes from the layer. */
  ghost function EvictedMarkers(trains: map<string, TrainRecord>, active: set<string>): set<MarkerId> {
    set k | k in trains && k !in active && trains[k].marker.Some? :: trains[k].marker.value
  }

  /** The map and the next marker handle after `processVehiclePositions`, and
      whether it returned normally; when it threw, the clean-up was skipped. */
  datatype VehiclesOutcome = VehiclesOutcome(trains: map<string, TrainRecord>, next: nat, completed: bool)

  function AfterVehiclePositions(cat: Catalogs, trains: map<string, TrainRecord>, next: nat, es: seq<EntityJson>): VehiclesOutcome {
    var sw := SweepVehicles(cat, trains, next, {}, es);
    if sw.ok then VehiclesOutcome(Evict(sw.trains, sw.active), sw.next, true)
    else VehiclesOutcome(sw.trains, sw.next, false)
  }

  /** The trimmed trip ids of the entities the loop accepts. */
  function SightedIds(cat: Catalogs, es: seq<EntityJson>): set<string> {
    set i | 0 <= i < |es| && Sight(cat, es[i]).Some? :: Sight(cat, es[i]).value.tripId
  }

  /** Marker bookkeeping: live markers are below the next handle, distinct and
      not yet removed; the removal log holds distinct handles below the next. */
  predicate MarkersOk(trains: map<string, TrainRecord>, next: nat, removed: seq<MarkerId>) {
    && (forall k :: k in trains && trains[k].marker.Some? ==>
          trains[k].marker.value.n < next && trains[k].marker.value !in removed)
    && (forall k1, k2 :: (k1 in trains && k2 in trains && k1 != k2
          && trains[k1].marker.Some? && trains[k2].marker.Some?) ==> trains[k1].marker.value != trains[k2].marker.value)
    && (forall i :: 0 <= i < |removed| ==> removed[i].n < next)
    && (forall i, j :: 0 <= i < j < |removed| ==> removed[i] != removed[j])
  }

  /** What one `Upsert` does: it stores exactly the sighted trip, refreshes its
      position, platform and stop, keeps (or, for a new trip, initialises) its
      delay, route and destination, and gives it a marker unless Leaflet
      throws. */
  lemma UpsertShape(trains: map<string, TrainRecord>, next: nat, s: Sighting)
    ensures var u := Upsert(trains, next, s);
            var r := u.trains[s.tripId];
            && u.trains.Keys == trains.Keys + {s.tripId}
            && (forall k :: k in trains && k != s.tripId ==> u.trains[k] == trains[k])
            && r.lat == s.lat && r.lon == s.lon && r.platform == s.platform && r.currentStopId == s.stopId
            && (s.tripId in trains ==>
                  && r.delay == trains[s.tripId].delay && r.route == trains[s.tripId].route
                  && r.destination == trains[s.tripId].destination
                  && (trains[s.tripId].marker.Some? ==> r.marker == trains[s.tripId].marker))
            && (s.tripId !in trains ==> r.delay == 0 && r.route == s.route && r.destination == s.destination)
            && (u.ok <==> Renderable(s.lat, s.lon))
            && (u.ok ==> r.marker.Some?)
  {
  }

  /** An accepted entity's route and destination come from its trip's row. */
  lemma SightCatalog(cat: Catalogs, e: EntityJson)
    requires Sight(cat, e).Some?
    ensures var s := Sight(cat, e).value;
            s.tripId in cat.trips && s.route == RouteName(cat, cat.trips[s.tripId])
            && s.destination == cat.trips[s.tripId].headsign
  {
  }

  lemma SightedIdsCons(cat: Catalogs, es: seq<EntityJson>)
    requires es != []
    ensures SightedIds(cat, es) ==
            (if Sight(cat, es[0]).Some? then {Sight(cat, es[0]).value.tripId} else {}) + SightedIds(cat, es[1..])
  {
    assert forall i :: 1 <= i < |es| ==> es[i] == es[1..][i - 1];
    forall x | x in SightedIds(cat, es[1..]) ensures x in SightedIds(cat, es) {
      var i :| 0 <= i < |es[1..]| && Sight(cat, es[1..][i]).Some? && Sight(cat, es[1..][i]).value.tripId == x;
      assert es[i + 1] == es[1..][i];
    }
  }

  lemma UpsertMarkers(trains: map<string, TrainRecord>, next: nat, removed: seq<MarkerId>, s: Sighting)
    requires MarkersOk(trains, next, removed)
    ensures var u := Upsert(trains, next, s);
            MarkersOk(u.trains, u.next, removed) && next <= u.next
  {
  }

  /** Deleting one record and logging its marker as removed keeps the marker
      bookkeeping. */
  lemma DropMarker(trains: map<string, TrainRecord>, next: nat, removed: seq<MarkerId>, k: string)
    requires MarkersOk(trains, next, removed) && k in trains
    ensures var log := if trains[k].marker.Some? then removed + [trains[k].marker.value] else removed;
            MarkersOk(trains - {k}, next, log)
  {
  }

  /** The clean-up loop part-way, with `pending` still to visit: `kept` is
      the swept map less the unseen records already visited, and `log`
      extends `log0` with exactly their markers. */
  ghost predicate EvictionSoFar(all: map<string, TrainRecord>, active: set<string>, pending: set<string>,
                          kept: map<string, TrainRecord>, next: nat, log0: seq<MarkerId>, log: seq<MarkerId>)
  {
    && pending <= all.Keys
    && kept == (map k | k in all && (k in active || k in pending) :: all[k])
    && MarkersOk(kept, next, log)
    && |log0| <= |log| && log[..|log0|] == log0
    && (forall m :: m in log[|log0|..] <==>
          exists k :: k in all && k !in active && k !in pending && all[k].marker == Some(m))
  }

  lemma EvictionStart(all: map<string, TrainRecord>, active: set<string>, next: nat, log: seq<MarkerId>)
    requires MarkersOk(all, next, log)
    ensures EvictionSoFar(all, active, all.Keys, all, next, log, log)
  {
  }

  /** Visiting one key: an unseen record is dropped and its marker logged. */
  lemma EvictionStep(all: map<string, TrainRecord>, active: set<string>, pending: set<string>,
                     kept: map<string, TrainRecord>, next: nat, log0: seq<MarkerId>, log: seq<MarkerId>, k: string)
    requires EvictionSoFar(all, active, pending, kept, next, log0, log) && k in pending
    ensures k !in active ==> k in kept
    ensures var log' := if k !in active && kept[k].marker.Some? then log + [kept[k].marker.value] else log;
            var kept' := if k !in active then kept - {k} else kept;
            EvictionSoFar(all, active, pending - {k}, kept', next, log0, log')
  {
    if k !in active {
      DropMarker(kept, next, log, k);
      if kept[k].marker.Some? {
        var log' := log + [kept[k].marker.value];
        assert log'[|log0|..] == log[|log0|..] + [kept[k].marker.value];
        assert log'[..|log0|] == log[..|log0|];
      }
      var kept' := kept - {k};
      assert kept' == (map j | j in all && (j in active || j in pending - {k}) :: all[j]);
    }
  }

  lemma EvictionEnd(all: map<string, TrainRecord>, active: set<string>,
                    kept: map<string, TrainRecord>, next: nat, log0: seq<MarkerId>, log: seq<MarkerId>)
    requires EvictionSoFar(all, active, {}, kept, next, log0, log)
    ensures kept == Evict(all, active) && MarkersOk(kept, next, log)
    ensures |log0| <= |log| && log[..|log0|] == log0
    ensures forall m :: m in log[|log0|..] <==> m in EvictedMarkers(all, active)
  {
  }

  /** The entity loop keeps the marker bookkeeping. */
  lemma {:induction false} SweepMarkers(cat: Catalogs, trains: map<string, TrainRecord>, next: nat, active: set<string>,
                                        es: seq<EntityJson>, removed: seq<MarkerId>)
    requires MarkersOk(trains, next, removed)
    ensures var sw := SweepVehicles(cat, trains, next, active, es);
            MarkersOk(sw.trains, sw.next, removed) && next <= sw.next
    decreases |es|
  {
    if es != [] && Sight(cat, es[0]).Some? {
      var s := Sight(cat, es[0]).value;
      UpsertMarkers(trains, next, removed, s);
      var u := Upsert(trains, next, s);
      if u.ok {
        SweepMarkers(cat, u.trains, u.next, active + {s.tripId}, es[1..], removed);
      }
    } else if es != [] {
      SweepMarkers(cat, trains, next, active, es[1..], removed);
    }
  }

  /** The entity loop runs to the end exactly when every accepted entity has
      both coordinates (otherwise Leaflet throws inside `updateMarker`). */
  lemma {:induction false} SweepCompleted(cat: Catalogs, trains: map<string, TrainRecord>, next: nat, active: set<string>, es: seq<EntityJson>)
    ensures SweepVehicles(cat, trains, next, active, es).ok <==>
            forall i :: 0 <= i < |es| && Sight(cat, es[i]).Some? ==> Renderable(Sight(cat, es[i]).value.lat, Sight(cat, es[i]).value.lon)
    decreases |es|
  {
    if es != [] {
      forall j | 0 <= j < |es[1..]| ensures es[1..][j] == es[j + 1] {
      }
      match Sight(cat, es[0])
      case None =>
        SweepCompleted(cat, trains, next, active, es[1..]);
      case Some(s) =>
        UpsertShape(trains, next, s);
        var u := Upsert(trains, next, s);
        if u.ok {
          SweepCompleted(cat, u.trains, u.next, active + {s.tripId}, es[1..]);
        }
    }
  }

  /** `activeTripIds` only grows, by accepted trip ids, and when the loop runs
      to the end it gains exactly the accepted trip ids. */
  lemma {:induction false} SweepActive(cat: Catalogs, trains: map<string, TrainRecord>, next: nat, active: set<string>, es: seq<EntityJson>)
    ensures var sw := SweepVehicles(cat, trains, next, active, es);
            && active <= sw.active <= active + SightedIds(cat, es)
            && (sw.ok ==> sw.active == active + SightedIds(cat, es))
    decreases |es|
  {
    if es != [] {
      var rest := es[1..];
      var sw := SweepVehicles(cat, trains, next, active, es);
      SightedIdsCons(cat, es);
      match Sight(cat, es[0])
      case None =>
        SweepActive(cat, trains, next, active, rest);
        assert sw == SweepVehicles(cat, trains, next, active, rest);
        assert SightedIds(cat, es) == SightedIds(cat, rest);
      case Some(s) =>
        var u := Upsert(trains, next, s);
        var seen := active + {s.tripId};
        assert SightedIds(cat, es) == {s.tripId} + SightedIds(cat, rest);
        if u.ok {
          SweepActive(cat, u.trains, u.next, seen, rest);
          assert sw == SweepVehicles(cat, u.trains, u.next, seen, rest);
        } else {
          assert sw.active == seen;
        }
    }
  }

  /** The loop only adds records: one for every trip id it puts in
      `activeTripIds`. */
  lemma {:induction false} SweepKeys(cat: Catalogs, trains: map<string, TrainRecord>, next: nat, active: set<string>, es: seq<EntityJson>)
    requires active <= trains.Keys
    ensures var sw := SweepVehicles(cat, trains, next, active, es);
            sw.trains.Keys == trains.Keys + sw.active
    decreases |es|
  {
    if es != [] {
      match Sight(cat, es[0])
      case None =>
        SweepKeys(cat, trains, next, active, es[1..]);
      case Some(s) =>
        UpsertShape(trains, next, s);
        var u := Upsert(trains, next, s);
        if u.ok {
          SweepKeys(cat, u.trains, u.next, active + {s.tripId}, es[1..]);
          SweepActive(cat, u.trains, u.next, active + {s.tripId}, es[1..]);
        }
    }
  }

  /** A record the loop touches keeps its delay, route, destination and
      marker (if it had one). */
  lemma {:induction false} SweepKeepsFields(cat: Catalogs, trains: map<string, TrainRecord>, next: nat, active: set<string>, es: seq<EntityJson>)
    ensures var sw := SweepVehicles(cat, trains, next, active, es);
            forall k :: k in trains ==>
              && k in sw.trains
              && sw.trains[k].delay == trains[k].delay
              && sw.trains[k].route == trains[k].route
              && sw.trains[k].destination == trains[k].destination
              && (trains[k].marker.Some? ==> sw.trains[k].marker == trains[k].marker)
    decreases |es|
  {
    if es != [] {
      match Sight(cat, es[0])
      case None =>
        SweepKeepsFields(cat, trains, next, active, es[1..]);
      case Some(s) =>
        UpsertKeepsFields(trains, next, s);
        var u := Upsert(trains, next, s);
        if u.ok {
          SweepKeepsFields(cat, u.trains, u.next, active + {s.tripId}, es[1..]);
        }
    }
  }

  /** One `Upsert` stores the sighting's position, platform and stop, and a
      marker unless Leaflet threw. */
  lemma UpsertRefreshes(trains: map<string, TrainRecord>, next: nat, s: Sighting)
    ensures var u := Upsert(trains, next, s);
            && s.tripId in u.trains
            && u.trains[s.tripId].lat == s.lat && u.trains[s.tripId].lon == s.lon
            && u.trains[s.tripId].platform == s.platform && u.trains[s.tripId].currentStopId == s.stopId
            && (u.ok ==> Refreshed(u.trains[s.tripId], s))
  {
  }

  /** One `Upsert` keeps every record's delay, route, destination and marker. */
  lemma UpsertKeepsFields(trains: map<string, TrainRecord>, next: nat, s: Sighting)
    ensures var u := Upsert(trains, next, s);
            forall k :: k in trains ==>
              && k in u.trains
              && u.trains[k].delay == trains[k].delay
              && u.trains[k].route == trains[k].route
              && u.trains[k].destination == trains[k].destination
              && (trains[k].marker.Some? ==> u.trains[k].marker == trains[k].marker)
  {
  }

  /** A record the loop creates starts with delay 0, the catalog's route
      name and the trip's headsign. */
  lemma {:induction false} SweepNewFields(cat: Catalogs, trains: map<string, TrainRecord>, next: nat, active: set<string>, es: seq<EntityJson>)
    ensures var sw := SweepVehicles(cat, trains, next, active, es);
            forall k :: k in sw.trains && k !in trains ==>
              && k in cat.trips
              && sw.trains[k].delay == 0
              && sw.trains[k].route == RouteName(cat, cat.trips[k])
              && sw.trains[k].destination == cat.trips[k].headsign
    decreases |es|
  {
    if es != [] {
      match Sight(cat, es[0])
      case None =>
        SweepNewFields(cat, trains, next, active, es[1..]);
      case Some(s) =>
        UpsertShape(trains, next, s);
        SightCatalog(cat, es[0]);
        var u := Upsert(trains, next, s);
        if u.ok {
          SweepNewFields(cat, u.trains, u.next, active + {s.tripId}, es[1..]);
          SweepKeepsFields(cat, u.trains, u.next, active + {s.tripId}, es[1..]);
        }
    }
  }

  /** A record no entity of the snapshot names keeps every field. */
  lemma {:induction false} SweepKeepsUntouched(cat: Catalogs, trains: map<string, TrainRecord>, next: nat, active: set<string>,
                                               es: seq<EntityJson>, k: string)
    requires k in trains
    requires forall j :: 0 <= j < |es| && Sight(cat, es[j]).Some? ==> Sight(cat, es[j]).value.tripId != k
    ensures var sw := SweepVehicles(cat, trains, next, active, es);
            k in sw.trains && sw.trains[k] == trains[k]
    decreases |es|
  {
    if es != [] {
      forall j | 0 <= j < |es[1..]| ensures es[1..][j] == es[j + 1] {
      }
      match Sight(cat, es[0])
      case None =>
        SweepKeepsUntouched(cat, trains, next, active, es[1..], k);
      case Some(s) =>
        UpsertShape(trains, next, s);
        var u := Upsert(trains, next, s);
        if u.ok {
          SweepKeepsUntouched(cat, u.trains, u.next, active + {s.tripId}, es[1..], k);
        }
    }
  }

  /** The record shows the sighting's position, platform and stop, and has a
      marker. */
  ghost predicate Refreshed(r: TrainRecord, s: Sighting) {
    r.lat == s.lat && r.lon == s.lon && r.platform == s.platform && r.currentStopId == s.stopId && r.marker.Some?
  }

  /** When the loop runs to the end, the last accepted entity for a trip
      decides its position, platform and current stop, and the trip has a
      marker. */
  lemma {:induction false} SweepLastSighting(cat: Catalogs, trains: map<string, TrainRecord>, next: nat, active: set<string>,
                                             es: seq<EntityJson>, i: int, s: Sighting)
    requires 0 <= i < |es| && Sight(cat, es[i]) == Some(s)
    requires SweepVehicles(cat, trains, next, active, es).ok
    requires s.tripId !in SightedIds(cat, es[i + 1..])
    ensures var sw := SweepVehicles(cat, trains, next, active, es);
            s.tripId in sw.trains && Refreshed(sw.trains[s.tripId], s)
    decreases i
  {
    if i == 0 {
      SweepFirstSighting(cat, trains, next, active, es, s);
    } else {
      var rest := es[1..];
      assert rest[i - 1] == es[i];
      assert rest[i..] == es[i + 1..];
      match Sight(cat, es[0])
      case None =>
        SweepLastSighting(cat, trains, next, active, rest, i - 1, s);
      case Some(s0) =>
        var u := Upsert(trains, next, s0);
        SweepLastSighting(cat, u.trains, u.next, active + {s0.tripId}, rest, i - 1, s);
    }
  }

  /** The base case: an accepted entity at the head whose trip id is not
      accepted again. */
  lemma SweepFirstSighting(cat: Catalogs, trains: map<string, TrainRecord>, next: nat, active: set<string>,
                           es: seq<EntityJson>, s: Sighting)
    requires es != [] && Sight(cat, es[0]) == Some(s)
    requires SweepVehicles(cat, trains, next, active, es).ok
    requires s.tripId !in SightedIds(cat, es[1..])
    ensures var sw := SweepVehicles(cat, trains, next, active, es);
            s.tripId in sw.trains && Refreshed(sw.trains[s.tripId], s)
  {
    var rest := es[1..];
    forall j | 0 <= j < |rest| && Sight(cat, rest[j]).Some?
      ensures Sight(cat, rest[j]).value.tripId != s.tripId
    {
      assert Sight(cat, rest[j]).value.tripId in SightedIds(cat, rest);
    }
    var u := Upsert(trains, next, s);
    UpsertRefreshes(trains, next, s);
    SweepKeepsUntouched(cat, u.trains, u.next, active + {s.tripId}, rest, s.tripId);
  }

  /** The index of the last accepted entity for a sighted trip id. */
  lemma LastIndex(cat: Catalogs, es: seq<EntityJson>, k: string) returns (i: int)
    requires k in SightedIds(cat, es)
    ensures 0 <= i < |es| && Sight(cat, es[i]).Some? && Sight(cat, es[i]).value.tripId == k
    ensures k !in SightedIds(cat, es[i + 1..])
  {
    i :| 0 <= i < |es| && Sight(cat, es[i]).Some? && Sight(cat, es[i]).value.tripId == k;
    while exists j :: i < j < |es| && Sight(cat, es[j]).Some? && Sight(cat, es[j]).value.tripId == k
      invariant 0 <= i < |es| && Sight(cat, es[i]).Some? && Sight(cat, es[i]).value.tripId == k
      decreases |es| - i
    {
      var j :| i < j < |es| && Sight(cat, es[j]).Some? && Sight(cat, es[j]).value.tripId == k;
      i := j;
    }
    var tail := es[i + 1..];
    forall m | 0 <= m < |tail| && Sight(cat, tail[m]).Some?
      ensures Sight(cat, tail[m]).value.tripId != k
    {
      assert tail[m] == es[i + 1 + m];
    }
  }

  /** After `processVehiclePositions` returns normally, `trenesCV` holds
      exactly the accepted trip ids, each with a marker. */
  lemma AfterVehiclePositionsKeys(cat: Catalogs, trains: map<string, TrainRecord>, next: nat, es: seq<EntityJson>)
    requires AfterVehiclePositions(cat, trains, next, es).completed
    ensures var r := AfterVehiclePositions(cat, trains, next, es);
            && r.trains.Keys == SightedIds(cat, es)
            && (forall k :: k in r.trains ==> r.trains[k].marker.Some?)
  {
    var sw := SweepVehicles(cat, trains, next, {}, es);
    var ids := SightedIds(cat, es);
    assert sw.ok;
    SweepActive(cat, trains, next, {}, es);
    assert sw.active == ids;
    SweepKeys(cat, trains, next, {}, es);
    var r := AfterVehiclePositions(cat, trains, next, es);
    assert r.trains == Evict(sw.trains, ids);
    assert r.trains.Keys == ids;
    forall k | k in r.trains ensures r.trains[k].marker.Some? {
      assert k in ids && r.trains[k] == sw.trains[k];
      SweepMarked(cat, trains, next, es, k);
    }
  }

  /** When the loop runs to the end, every accepted trip has a marker. */
  lemma SweepMarked(cat: Catalogs, trains: map<string, TrainRecord>, next: nat, es: seq<EntityJson>, k: string)
    requires SweepVehicles(cat, trains, next, {}, es).ok
    requires k in SightedIds(cat, es)
    ensures var sw := SweepVehicles(cat, trains, next, {}, es);
            k in sw.trains && sw.trains[k].marker.Some?
  {
    var i := LastIndex(cat, es, k);
    SweepLastSighting(cat, trains, next, {}, es, i, Sight(cat, es[i]).value);
  }

  /** Every record already there and still reported keeps its delay, route,
      destination and marker; every new one starts with delay 0 and takes its
      route and destination from the catalogs. */
  lemma AfterVehiclePositionsFields(cat: Catalogs, trains: map<string, TrainRecord>, next: nat, es: seq<EntityJson>)
    requires AfterVehiclePositions(cat, trains, next, es).completed
    ensures var r := AfterVehiclePositions(cat, trains, next, es);
            && (forall k :: k in r.trains && k in trains ==>
                  && r.trains[k].delay == trains[k].delay
                  && r.trains[k].route == trains[k].route
                  && r.trains[k].destination == trains[k].destination
                  && (trains[k].marker.Some? ==> r.trains[k].marker == trains[k].marker))
            && (forall k :: k in r.trains && k !in trains ==>
                  && k in cat.trips
                  && r.trains[k].delay == 0 && r.trains[k].destination == cat.trips[k].headsign
                  && r.trains[k].route == RouteName(cat, cat.trips[k]))
  {
    SweepKeepsFields(cat, trains, next, {}, es);
    SweepNewFields(cat, trains, next, {}, es);
  }

  /** The clean-up removes the records of trips not reported in the snapshot,
      as they were before it, so the markers taken off the map are theirs. */
  lemma AfterVehiclePositionsEvicts(cat: Catalogs, trains: map<string, TrainRecord>, next: nat, es: seq<EntityJson>)
    requires AfterVehiclePositions(cat, trains, next, es).completed
    ensures var sw := SweepVehicles(cat, trains, next, {}, es);
            EvictedMarkers(sw.trains, sw.active)
            == set k | k in trains && k !in SightedIds(cat, es) && trains[k].marker.Some? :: trains[k].marker.value
  {
    var sw := SweepVehicles(cat, trains, next, {}, es);
    SweepActive(cat, trains, next, {}, es);
    SweepKeys(cat, trains, next, {}, es);
    forall k | k in trains && k !in sw.active ensures k in sw.trains && sw.trains[k] == trains[k] {
      forall j | 0 <= j < |es| && Sight(cat, es[j]).Some? ensures Sight(cat, es[j]).value.tripId != k {
        assert Sight(cat, es[j]).value.tripId in SightedIds(cat, es);
      }
      SweepKeepsUntouched(cat, trains, next, {}, es, k);
    }
  }

  // ---------------------------------------------------------------------
  // fetchAndUpdateData

  /** The state after one cycle. `tu` and `vp` are the `entity` arrays of the
      two documents, None where fetching or reading the document threw. */
  datatype CycleOutcome = CycleOutcome(trains: map<string, TrainRecord>, next: nat)

  function Cycle(cat: Catalogs, trains: map<string, TrainRecord>, next: nat,
                 tu: Option<seq<EntityJson>>, vp: Option<seq<EntityJson>>): CycleOutcome
  {
    if |cat.trips| == 0 || tu.None? then CycleOutcome(trains, next)
    else
      var t := AfterTripUpdates(trains, tu.value);
      if !t.completed || vp.None? then CycleOutcome(t.trains, next)
      else
        var v := AfterVehiclePositions(cat, t.trains, next, vp.value);
        CycleOutcome(v.trains, v.next)
  }

  /** With an empty trip catalog, or when the trip-update document cannot be
      had, a cycle changes nothing. */
  lemma CycleNoOp(cat: Catalogs, trains: map<string, TrainRecord>, next: nat,
                  tu: Option<seq<EntityJson>>, vp: Option<seq<EntityJson>>)
    requires |cat.trips| == 0 || tu.None?
    ensures Cycle(cat, trains, next, tu, vp) == CycleOutcome(trains, next)
  {
  }

  /** A malformed trip-update entity ends the cycle: the vehicle positions are
      not processed, so no train is created, moved or evicted, and only delays
      change: exactly those the entities before the first malformed one set. */
  lemma CycleStopsAfterMalformedTripUpdate(cat: Catalogs, trains: map<string, TrainRecord>, next: nat,
                                           tu: seq<EntityJson>, vp: Option<seq<EntityJson>>, i: int)
    requires 0 <= i < |tu| && TripUpdateId(tu[i]).None?
    ensures var r := Cycle(cat, trains, next, Some(tu), vp);
            && r.next == next
            && r.trains.Keys == trains.Keys
            && (forall k :: k in trains ==> r.trains[k] == trains[k].(delay := r.trains[k].delay))
            && (|cat.trips| > 0 && (forall j :: 0 <= j < i ==> TripUpdateId(tu[j]).Some?) ==>
                  r.trains == AfterTripUpdates(trains, tu[..i]).trains)
  {
    TripUpdatesCompleted(trains, tu);
    TripUpdatesOnlyDelays(trains, tu);
    if forall j :: 0 <= j < i ==> TripUpdateId(tu[j]).Some? {
      TripUpdatesStopAtMalformed(trains, tu, i);
    }
  }

  /** A cycle in which both documents are processed to the end leaves exactly
      the trains of the vehicle snapshot. Survivors carry the delay the trip
      updates gave them; trains first seen in this cycle carry delay 0, since
      trip updates are applied before vehicle positions. */
  lemma CycleTrains(cat: Catalogs, trains: map<string, TrainRecord>, next: nat, tu: seq<EntityJson>, vp: seq<EntityJson>)
    requires |cat.trips| > 0
    requires AfterTripUpdates(trains, tu).completed
    requires AfterVehiclePositions(cat, AfterTripUpdates(trains, tu).trains, next, vp).completed
    ensures var r := Cycle(cat, trains, next, Some(tu), Some(vp));
            && r.trains.Keys == SightedIds(cat, vp)
            && (forall k :: k in r.trains && k in trains ==>
                  k in AfterTripUpdates(trains, tu).trains && r.trains[k].delay == AfterTripUpdates(trains, tu).trains[k].delay)
            && (forall k :: k in r.trains && k !in trains ==> r.trains[k].delay == 0)
  {
    var t := AfterTripUpdates(trains, tu);
    TripUpdatesOnlyDelays(trains, tu);
    AfterVehiclePositionsKeys(cat, t.trains, next, vp);
    AfterVehiclePositionsFields(cat, t.trains, next, vp);
  }
}
