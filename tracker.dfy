/** The browser client's mutable state and the procedures that update it in
    place: the catalogs filled by `loadStaticData` (app.js:51-106), the live
    map `trenesCV` with its markers, and `processTripUpdates`,
    `processVehiclePositions`, `updateMarker` and `fetchAndUpdateData`
    (app.js:136-294). Each procedure is proved against the corresponding
    function of `Reconcile`. */
module Tracker {
  import opened Wrappers
  import opened JsString
  import opened Csv
  import opened Catalog
  import opened FeedJson
  import opened Platform
  import opened Reconcile
  import opened Display

  /** The entity loop of `processVehiclePositions` part-way: the marker
      bookkeeping holds, every train belongs to a catalog trip, and every trip
      seen so far has a marker showing its current record. */
  ghost predicate ShownSoFar(trains: map<string, TrainRecord>, next: nat, removed: seq<MarkerId>,
                             popups: map<MarkerId, Popup>, cat: Catalogs, active: set<string>)
  {
    && MarkersOk(trains, next, removed) && trains.Keys <= cat.trips.Keys && active <= trains.Keys
    && forall k :: k in active ==>
         trains[k].marker.Some? && trains[k].marker.value in popups
         && popups[trains[k].marker.value] == PopupOf(trains[k], cat.stops)
  }

  /** Recording and drawing one more accepted vehicle keeps `ShownSoFar`. */
  lemma ShownStep(trains: map<string, TrainRecord>, next: nat, removed: seq<MarkerId>,
                  popups: map<MarkerId, Popup>, cat: Catalogs, active: set<string>, s: Sighting,
                  trains': map<string, TrainRecord>, next': nat, popups': map<MarkerId, Popup>)
    requires ShownSoFar(trains, next, removed, popups, cat, active)
    requires s.tripId in cat.trips
    requires Upsert(trains, next, s) == Step(trains', next', true)
    requires s.tripId in trains' && trains'[s.tripId].marker.Some?
    requires popups' == popups[trains'[s.tripId].marker.value := PopupOf(trains'[s.tripId], cat.stops)]
    ensures ShownSoFar(trains', next', removed, popups', cat, active + {s.tripId})
  {
    UpsertShape(trains, next, s);
    UpsertMarkers(trains, next, removed, s);
    var m := trains'[s.tripId].marker.value;
    forall k | k in active + {s.tripId}
      ensures && trains'[k].marker.Some? && trains'[k].marker.value in popups'
              && popups'[trains'[k].marker.value] == PopupOf(trains'[k], cat.stops)
    {
      if k != s.tripId {
        assert trains'[k] == trains[k];
        assert trains'[k].marker.value != m;
      }
    }
  }

  /** A vehicle whose marker could not be drawn still leaves the bookkeeping
      sound and the trains inside the trip catalog. */
  lemma UnshownStep(trains: map<string, TrainRecord>, next: nat, removed: seq<MarkerId>,
                    popups: map<MarkerId, Popup>, cat: Catalogs, active: set<string>, s: Sighting,
                    trains': map<string, TrainRecord>, next': nat)
    requires ShownSoFar(trains, next, removed, popups, cat, active)
    requires s.tripId in cat.trips
    requires Upsert(trains, next, s) == Step(trains', next', false)
    ensures MarkersOk(trains', next', removed) && trains'.Keys <= cat.trips.Keys
  {
    UpsertShape(trains, next, s);
    UpsertMarkers(trains, next, removed, s);
  }

  /** The filters at the head of the entity callback of
      `processVehiclePositions`, and the sighting they build from an entity
      that passes them. */
  method AcceptVehicle(cat: Catalogs, entity: EntityJson) returns (sight: Option<Sighting>)
    ensures sight == Sight(cat, entity)
  {
    var vehicle := entity.vehicle;
    if vehicle.None? || vehicle.value.position.None? || vehicle.value.trip.None?
       || !Truthy(vehicle.value.trip.value.tripId)
    {
      return None;
    }
    var v := vehicle.value;
    var tripId := Trim(v.trip.value.tripId.value);
    var lat := v.position.value.latitude;
    var lon := v.position.value.longitude;
    if !IsValenciaTrain(lat, lon) || tripId !in cat.trips {
      return None;
    }
    var tripInfo := cat.trips[tripId];
    var platformCode := PlatformCode(VehicleLabel(v));
    var currentStopId := CurrentStopId(v.stopId);
    var routeKey := JsKey(tripInfo.routeId);
    var routeName := if routeKey in cat.routes then cat.routes[routeKey].shortName else Some(UNKNOWN_ROUTE);
    return Some(Sighting(tripId, lat, lon, platformCode, currentStopId, routeName, tripInfo.headsign));
  }

  /** The catalogs after `loadStaticData` read the three texts: each file's
      rows stored over what was there. The trip catalog only grows. */
  function LoadedCatalogs(cat: Catalogs, routesText: string, tripsText: string, stopsText: string): (c: Catalogs)
    ensures cat.trips.Keys <= c.trips.Keys
  {
    UpsertsGrow(cat.trips, ParseCsv(tripsText), TripKey, TripOf);
    Catalogs(Routes(cat.routes, ParseCsv(routesText)), Trips(cat.trips, ParseCsv(tripsText)), Stops(cat.stops, ParseCsv(stopsText)))
  }

  /** The three parse-and-fill loops of `loadStaticData`. */
  method ReadCatalogs(cat: Catalogs, routesText: string, tripsText: string, stopsText: string) returns (c: Catalogs)
    ensures c == LoadedCatalogs(cat, routesText, tripsText, stopsText)
  {
    var routesData := ParseCsv(routesText);
    var routes := Fill(cat.routes, routesData, RouteKey, RouteOf);
    var tripsData := ParseCsv(tripsText);
    var trips := Fill(cat.trips, tripsData, TripKey, TripOf);
    var stopsData := ParseCsv(stopsText);
    var stops := Fill(cat.stops, stopsData, StopKey, StopOf);
    c := Catalogs(routes, trips, stops);
  }

  /** The entity loop of `processTripUpdates` on a copy of the map. */
  method ApplyTripUpdates(t0: map<string, TrainRecord>, es: seq<EntityJson>) returns (t: map<string, TrainRecord>, completed: bool)
    ensures TripUpdatesOutcome(t, completed) == AfterTripUpdates(t0, es)
  {
    t := t0;
    completed := true;
    var i := 0;
    while i < |es|
      invariant 0 <= i <= |es|
      invariant AfterTripUpdates(t0, es) == AfterTripUpdates(t, es[i..])
    {
      var e := es[i];
      assert es[i..][1..] == es[i + 1..];
      if e.tripUpdate.None? || e.tripUpdate.value.trip.None? || e.tripUpdate.value.trip.value.tripId.None? {
        completed := false;
        return;
      }
      var tripUpdate := e.tripUpdate.value;
      var tripId := Trim(tripUpdate.trip.value.tripId.value);
      var delay := tripUpdate.delay.GetOr(0);
      if tripId in t {
        t := t[tripId := t[tripId].(delay := delay)];
      }
      i := i + 1;
    }
  }

  /** The clean-up keeps that promise for the trains that stay: they are
      still catalog trips, and their markers still show their records. */
  lemma EvictShown(trains: map<string, TrainRecord>, next: nat, removed: seq<MarkerId>,
                   popups: map<MarkerId, Popup>, cat: Catalogs, active: set<string>)
    requires ShownSoFar(trains, next, removed, popups, cat, active)
    ensures var e := Evict(trains, active);
            && e.Keys <= cat.trips.Keys
            && forall k :: k in e ==>
                 e[k].marker.Some? && e[k].marker.value in popups
                 && popups[e[k].marker.value] == PopupOf(e[k], cat.stops)
  {
  }

  class Tracker {
    var routes: map<string, RouteInfo>
    var trips: map<string, TripInfo>
    var stops: map<string, StopInfo>
    var trains: map<string, TrainRecord>
    /** The handle the next marker created gets. */
    var nextMarker: nat
    /** The popup content bound to each marker created so far. */
    var popups: map<MarkerId, Popup>
    /** The markers taken off the layer, in order. */
    ghost var removed: seq<MarkerId>

    function Cat(): Catalogs
      reads this
    {
      Catalogs(routes, trips, stops)
    }

    /** Markers are well kept and every live train belongs to a catalog trip. */
    ghost predicate Valid()
      reads this
    {
      MarkersOk(trains, nextMarker, removed) && trains.Keys <= trips.Keys
    }

    constructor()
      ensures Valid()
      ensures routes == map[] && trips == map[] && stops == map[] && trains == map[]
      ensures nextMarker == 0 && popups == map[] && removed == []
    {
      routes, trips, stops, trains := map[], map[], map[], map[];
      nextMarker, popups, removed := 0, map[], [];
    }

    /** `loadStaticData`, given the three downloaded texts (None: that download
        failed or answered with an error status). Either all three catalogs are
        filled or, on a failed download, none is touched. */
    method LoadStaticData(routesText: Option<string>, tripsText: Option<string>, stopsText: Option<string>)
      returns (ok: bool)
      requires Valid()
      modifies this`routes, this`trips, this`stops
      ensures Valid()
      ensures ok <==> routesText.Some? && tripsText.Some? && stopsText.Some?
      ensures ok ==> Cat() == LoadedCatalogs(old(Cat()), routesText.value, tripsText.value, stopsText.value)
      ensures !ok ==> Cat() == old(Cat())
    {
      if routesText.None? || tripsText.None? || stopsText.None? {
        return false;
      }
      var c := ReadCatalogs(Cat(), routesText.value, tripsText.value, stopsText.value);
      ghost var markers := MarkersOk(trains, nextMarker, removed);
      assert markers;
      assert trains.Keys <= c.trips.Keys;
      routes, trips, stops := c.routes, c.trips, c.stops;
      assert markers == MarkersOk(trains, nextMarker, removed);
      ok := true;
    }

    /** `processTripUpdates(entities)`: false when an entity without
        `tripUpdate.trip.tripId` made it throw part-way. */
    method ProcessTripUpdates(es: seq<EntityJson>) returns (completed: bool)
      requires Valid()
      modifies this`trains
      ensures Valid()
      ensures trains == AfterTripUpdates(old(trains), es).trains
      ensures completed == AfterTripUpdates(old(trains), es).completed
    {
      TripUpdatesOnlyDelays(trains, es);
      TripUpdatesMarkers(trains, es, nextMarker, removed);
      var t;
      t, completed := ApplyTripUpdates(trains, es);
      trains := t;
    }

    /** The marker half of `updateMarker(tripId)`: build the popup from the
        record, then move the marker and replace its popup, or create a marker
        bound to the popup. False when Leaflet threw on a missing coordinate;
        nothing was drawn then. */
    method UpdateMarker(tripId: string) returns (ok: bool)
      requires tripId in trains
      modifies this`trains, this`nextMarker, this`popups
      ensures var st := ShowMarker(old(trains), old(nextMarker), tripId, old(trains)[tripId]);
              trains == st.trains && nextMarker == st.next && ok == st.ok
      ensures ok ==> && trains[tripId].marker.Some?
                     && popups == old(popups)[trains[tripId].marker.value := PopupOf(trains[tripId], stops)]
      ensures !ok ==> popups == old(popups)
    {
      var data := trains[tripId];
      var popup := PopupOf(data, stops);
      if !Renderable(data.lat, data.lon) {
        return false;
      }
      if data.marker.Some? {
        popups := popups[data.marker.value := popup];
      } else {
        var marker := MarkerId(nextMarker);
        nextMarker := nextMarker + 1;
        popups := popups[marker := popup];
        trains := trains[tripId := data.(marker := Some(marker))];
      }
      return true;
    }

    /** The body of the entity callback once an entity is accepted: create the
        record or refresh its changing fields, then `updateMarker`. */
    method RecordSighting(s: Sighting) returns (ok: bool)
      modifies this`trains, this`nextMarker, this`popups
      ensures Upsert(old(trains), old(nextMarker), s) == Step(trains, nextMarker, ok)
      ensures ok ==> && s.tripId in trains && trains[s.tripId].marker.Some?
                     && popups == old(popups)[trains[s.tripId].marker.value := PopupOf(trains[s.tripId], stops)]
      ensures !ok ==> popups == old(popups)
    {
      var record := if s.tripId !in trains
        then TrainRecord(s.lat, s.lon, 0, None, s.route, s.destination, s.platform, s.stopId)
        else trains[s.tripId].(lat := s.lat, lon := s.lon, platform := s.platform, currentStopId := s.stopId);
      trains := trains[s.tripId := record];
      ok := UpdateMarker(s.tripId);
    }

    /** The clean-up loop of `processVehiclePositions`: every train not in
        `active` loses its marker and its record. */
    method RemoveUnseen(active: set<string>)
      requires MarkersOk(trains, nextMarker, removed)
      modifies this`trains, this`removed
      ensures trains == Evict(old(trains), active)
      ensures MarkersOk(trains, nextMarker, removed)
      ensures |old(removed)| <= |removed| && removed[..|old(removed)|] == old(removed)
      ensures forall m :: m in removed[|old(removed)|..] <==> m in EvictedMarkers(old(trains), active)
    {
      ghost var log0 := removed;
      var all := trains;
      var kept := trains;
      ghost var log := removed;
      var pending := trains.Keys;
      EvictionStart(all, active, nextMarker, log0);
      while pending != {}
        invariant EvictionSoFar(all, active, pending, kept, nextMarker, log0, log)
        invariant unchanged(this)
        decreases |pending|
      {
        var tripId :| tripId in pending;
        EvictionStep(all, active, pending, kept, nextMarker, log0, log, tripId);
        pending := pending - {tripId};
        if tripId !in active {
          if kept[tripId].marker.Some? {
            log := log + [kept[tripId].marker.value];
          }
          kept := kept - {tripId};
        }
      }
      EvictionEnd(all, active, kept, nextMarker, log0, log);
      trains, removed := kept, log;
    }

    /** The body of the entity callback of `processVehiclePositions`: skip the
        entity unless it passes the filters, else record the vehicle, draw it
        and add its trip to `activeTripIds`. False when `updateMarker` threw. */
    method VisitVehicle(entity: EntityJson, active: set<string>) returns (active': set<string>, ok: bool)
      requires ShownSoFar(trains, nextMarker, removed, popups, Cat(), active)
      modifies this`trains, this`nextMarker, this`popups
      ensures Sight(Cat(), entity).None? ==>
                ok && active' == active && trains == old(trains) && nextMarker == old(nextMarker) && popups == old(popups)
      ensures Sight(Cat(), entity).Some? ==>
                var s := Sight(Cat(), entity).value;
                Upsert(old(trains), old(nextMarker), s) == Step(trains, nextMarker, ok) && active' == active + {s.tripId}
      ensures ok ==> ShownSoFar(trains, nextMarker, removed, popups, Cat(), active')
      ensures !ok ==> MarkersOk(trains, nextMarker, removed) && trains.Keys <= trips.Keys
    {
      active', ok := active, true;
      var sight := AcceptVehicle(Cat(), entity);
      if sight.Some? {
        var s := sight.value;
        ghost var before, nextBefore, popupsBefore := trains, nextMarker, popups;
        ok := RecordSighting(s);
        if ok {
          ShownStep(before, nextBefore, removed, popupsBefore, Cat(), active, s, trains, nextMarker, popups);
        } else {
          UnshownStep(before, nextBefore, removed, popupsBefore, Cat(), active, s, trains, nextMarker);
        }
        active' := active + {s.tripId};
      }
    }

    /** The entity loop of `processVehiclePositions`; false when
        `updateMarker` threw and the loop was cut short. */
    method SweepEntities(es: seq<EntityJson>) returns (active: set<string>, ok: bool)
      requires ShownSoFar(trains, nextMarker, removed, popups, Cat(), {})
      modifies this`trains, this`nextMarker, this`popups
      ensures SweepVehicles(Cat(), old(trains), old(nextMarker), {}, es) == Sweep(trains, nextMarker, active, ok)
      ensures ok ==> ShownSoFar(trains, nextMarker, removed, popups, Cat(), active)
      ensures !ok ==> MarkersOk(trains, nextMarker, removed) && trains.Keys <= trips.Keys
    {
      ghost var cat := Cat();
      active := {};
      var i := 0;
      while i < |es|
        invariant 0 <= i <= |es|
        invariant cat == Cat()
        invariant SweepVehicles(cat, old(trains), old(nextMarker), {}, es) == SweepVehicles(cat, trains, nextMarker, active, es[i..])
        invariant ShownSoFar(trains, nextMarker, removed, popups, cat, active)
      {
        assert es[i..][0] == es[i] && es[i..][1..] == es[i + 1..];
        active, ok := VisitVehicle(es[i], active);
        if !ok {
          return;
        }
        i := i + 1;
      }
      assert es[i..] == [];
      ok := true;
    }

    /** `processVehiclePositions(entities)`: record every accepted vehicle,
        draw it, then delete the trains not in this snapshot and remove their
        markers. False when `updateMarker` threw; the clean-up is skipped then.
        After a complete run every train's marker shows its current record. */
    method ProcessVehiclePositions(es: seq<EntityJson>) returns (completed: bool)
      requires Valid()
      modifies this`trains, this`nextMarker, this`popups, this`removed
      ensures Valid()
      ensures var r := AfterVehiclePositions(old(Cat()), old(trains), old(nextMarker), es);
              trains == r.trains && nextMarker == r.next && completed == r.completed
      ensures |old(removed)| <= |removed| && removed[..|old(removed)|] == old(removed)
      ensures var sw := SweepVehicles(old(Cat()), old(trains), old(nextMarker), {}, es);
              forall m :: m in removed[|old(removed)|..] <==> completed && m in EvictedMarkers(sw.trains, sw.active)
      ensures completed ==> forall k :: k in trains ==>
                trains[k].marker.Some? && trains[k].marker.value in popups
                && popups[trains[k].marker.value] == PopupOf(trains[k], stops)
    {
      var active, ok := SweepEntities(es);
      if !ok {
        assert removed[..|removed|] == removed;
        assert removed[|removed|..] == [];
        return false;
      }
      EvictShown(trains, nextMarker, removed, popups, Cat(), active);
      RemoveUnseen(active);
      return true;
    }

    /** One cycle of `fetchAndUpdateData`, given the `entity` arrays of the two
        documents (None: the fetch or the JSON read threw). True when both
        were processed to the end; every train's marker then shows its
        current record. */
    method FetchAndUpdateData(tu: Option<seq<EntityJson>>, vp: Option<seq<EntityJson>>) returns (refreshed: bool)
      requires Valid()
      modifies this`trains, this`nextMarker, this`popups, this`removed
      ensures Valid()
      ensures var r := Cycle(old(Cat()), old(trains), old(nextMarker), tu, vp);
              trains == r.trains && nextMarker == r.next
      ensures refreshed <==>
                && |old(trips)| > 0 && tu.Some? && vp.Some?
                && AfterTripUpdates(old(trains), tu.value).completed
                && AfterVehiclePositions(old(Cat()), AfterTripUpdates(old(trains), tu.value).trains, old(nextMarker), vp.value).completed
      ensures |old(removed)| <= |removed| && removed[..|old(removed)|] == old(removed)
      ensures forall m :: m in removed[|old(removed)|..] <==>
                refreshed && var t := AfterTripUpdates(old(trains), tu.value).trains;
                var sw := SweepVehicles(old(Cat()), t, old(nextMarker), {}, vp.value);
                m in EvictedMarkers(sw.trains, sw.active)
      ensures (|old(trips)| == 0 || tu.None? || vp.None? || !AfterTripUpdates(old(trains), tu.value).completed) ==>
                popups == old(popups)
      ensures refreshed ==> forall k :: k in trains ==>
                trains[k].marker.Some? && trains[k].marker.value in popups
                && popups[trains[k].marker.value] == PopupOf(trains[k], stops)
    {
      if |trips| == 0 || tu.None? {
        return false;
      }
      var ok := ProcessTripUpdates(tu.value);
      if !ok || vp.None? {
        return false;
      }
      refreshed := ProcessVehiclePositions(vp.value);
    }
  }
}
