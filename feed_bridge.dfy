/** What the browser client would make of the documents the decoder writes,
    were it pointed at them: the decoder writes the property names the client
    reads, and these lemmas restate the client's filters in terms of the
    GTFS-Realtime messages behind such a document. The shipped client reads
    Renfe's own JSON feeds instead (app.js:4-9). */
module FeedBridge {
  import opened Wrappers
  import opened JsString
  import opened Catalog
  import opened FeedJson
  import opened GtfsRealtime
  import opened Platform
  import opened Decoder
  import opened Reconcile

  /** The message's trip update names a trip: `trip_update.trip.trip_id` is set. */
  predicate HasTripId(e: FeedEntity) {
    e.tripUpdate.Some? && e.tripUpdate.value.trip.Some? && e.tripUpdate.value.trip.value.tripId.Some?
  }

  /** A decoded entity gives the client a train sighting exactly when the
      message has a vehicle with a position holding at least one coordinate
      and a trip with a non-empty id that the trip catalog knows; the
      sighting then carries the message's coordinates, the platform read
      from the vehicle label and the trimmed stop id, and it can be drawn
      exactly when both coordinates are set. */
  lemma DecodedSight(cat: Catalogs, e: FeedEntity)
    requires ProjectEntity(e).Some?
    ensures var s := Sight(cat, ProjectEntity(e).value);
            s.Some? <==>
              && e.vehicle.Some? && e.vehicle.value.position.Some?
              && (e.vehicle.value.position.value.latitude.Some? || e.vehicle.value.position.value.longitude.Some?)
              && e.vehicle.value.trip.Some? && Truthy(e.vehicle.value.trip.value.tripId)
              && Trim(e.vehicle.value.trip.value.tripId.value) in cat.trips
    ensures var s := Sight(cat, ProjectEntity(e).value);
            s.Some? ==>
              var v := e.vehicle.value;
              && s.value.lat == v.position.value.latitude
              && s.value.lon == v.position.value.longitude
              && s.value.platform == PlatformCode(if v.vehicle.Some? then v.vehicle.value.labelText else None)
              && s.value.stopId == CurrentStopId(v.stopId)
              && (Renderable(s.value.lat, s.value.lon) <==> v.position.value.latitude.Some? && v.position.value.longitude.Some?)
  {
    var j := ProjectEntity(e).value;
    DecodedVehicle(e);
    var s := Sight(cat, j);
    if s.Some? {
      var jv := j.vehicle.value;
      assert && s.value.lat == jv.position.value.latitude && s.value.lon == jv.position.value.longitude
             && s.value.platform == PlatformCode(VehicleLabel(jv)) && s.value.stopId == CurrentStopId(jv.stopId);
    }
  }

  /** The projected vehicle has a position, a trip and a non-empty trip id
      exactly when the message's vehicle has a position with a coordinate and
      a trip with a non-empty id; the coordinates, trip id, stop id and label
      are then the message's. */
  lemma DecodedVehicle(e: FeedEntity)
    requires ProjectEntity(e).Some?
    ensures var j := ProjectEntity(e).value;
            var seen := && j.vehicle.Some? && j.vehicle.value.position.Some? && j.vehicle.value.trip.Some?
                        && Truthy(j.vehicle.value.trip.value.tripId);
            && (seen <==>
                  && e.vehicle.Some? && e.vehicle.value.position.Some?
                  && (e.vehicle.value.position.value.latitude.Some? || e.vehicle.value.position.value.longitude.Some?)
                  && e.vehicle.value.trip.Some? && Truthy(e.vehicle.value.trip.value.tripId))
            && (seen ==>
                  var jv := j.vehicle.value;
                  var v := e.vehicle.value;
                  && jv.position.value.latitude == v.position.value.latitude
                  && jv.position.value.longitude == v.position.value.longitude
                  && jv.trip.value.tripId == v.trip.value.tripId
                  && jv.stopId == v.stopId
                  && VehicleLabel(jv) == (if v.vehicle.Some? then v.vehicle.value.labelText else None))
  {
    if e.vehicle.Some? {
      var v := e.vehicle.value;
      assert ProjectEntity(e).value.vehicle == ProjectVehicle(v);
      if v.position.Some? && (v.position.value.latitude.Some? || v.position.value.longitude.Some?) {
        assert ProjectVehicle(v).Some?;
      }
    }
  }

  /** The client reads a decoded trip update's trip id, trimmed, exactly when
      the message has one, and its delay as the message's, 0 when unset. */
  lemma DecodedTripUpdate(e: FeedEntity)
    requires ProjectEntity(e).Some?
    ensures TripUpdateId(ProjectEntity(e).value)
         == (if HasTripId(e) then Some(Trim(e.tripUpdate.value.trip.value.tripId.value)) else None)
    ensures ReportedDelay(ProjectEntity(e).value) == (if e.tripUpdate.Some? then e.tripUpdate.value.delay.GetOr(0) else 0)
  {
  }

  /** The client's trip-update loop runs through a decoded feed exactly when
      every listed entity of the message carries a trip update with a trip
      id; an entity with no trip update at all (an id alone, or a vehicle)
      stops it. */
  lemma DecodedTripUpdatesComplete(trains: map<string, TrainRecord>, msg: FeedMessage)
    ensures AfterTripUpdates(trains, Decode(msg).entity).completed <==>
            forall i :: 0 <= i < |msg.entity| && ProjectEntity(msg.entity[i]).Some? ==> HasTripId(msg.entity[i])
  {
    var doc := Decode(msg).entity;
    var es := msg.entity;
    TripUpdatesCompleted(trains, doc);
    if forall i :: 0 <= i < |es| && ProjectEntity(es[i]).Some? ==> HasTripId(es[i]) {
      forall j | 0 <= j < |doc| ensures TripUpdateId(doc[j]).Some? {
        ProjectEntitiesMembers(es, doc[j]);
        var i :| 0 <= i < |es| && ProjectEntity(es[i]) == Some(doc[j]);
        DecodedTripUpdate(es[i]);
      }
    }
    if forall j :: 0 <= j < |doc| ==> TripUpdateId(doc[j]).Some? {
      forall i | 0 <= i < |es| && ProjectEntity(es[i]).Some? ensures HasTripId(es[i]) {
        var x := ProjectEntity(es[i]).value;
        ProjectEntitiesMembers(es, x);
        var j :| 0 <= j < |doc| && doc[j] == x;
        DecodedTripUpdate(es[i]);
      }
    }
  }
}
