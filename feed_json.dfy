/** The JSON shape of a GTFS-Realtime feed: the properties the browser
    client reads from the feeds it fetches (app.js:136-226), which are also
    the keys the decoder writes (decoder_server.py:35-128). Every optional property is an Option: absent keys are
    None. Coordinates are copied, never computed on, so `real` stands for the
    JSON number. */
module FeedJson {
  import opened Wrappers

  datatype PositionJson = PositionJson(latitude: Option<real>, longitude: Option<real>)

  /** A trip descriptor: `tripId` and the enum number of `schedule_relationship`. */
  datatype TripJson = TripJson(tripId: Option<string>, scheduleRelationship: Option<int>)

  /** The nested `vehicle.vehicle` object, which carries the free-text `label`. */
  datatype LabelJson = LabelJson(labelText: Option<string>)

  datatype VehicleJson = VehicleJson(
    position: Option<PositionJson>,
    trip: Option<TripJson>,
    stopId: Option<string>,
    vehicle: Option<LabelJson>)

  datatype ArrivalJson = ArrivalJson(delay: Option<int>, time: Option<string>)

  datatype StopTimeUpdateJson = StopTimeUpdateJson(stopId: Option<string>, arrival: Option<ArrivalJson>)

  datatype TripUpdateJson = TripUpdateJson(
    trip: Option<TripJson>,
    delay: Option<int>,
    stopTimeUpdate: Option<seq<StopTimeUpdateJson>>)

  datatype EntityJson = EntityJson(id: Option<string>, vehicle: Option<VehicleJson>, tripUpdate: Option<TripUpdateJson>)

  /** `{"entity": [...], "header": {"timestamp": ...}}`. */
  datatype FeedDoc = FeedDoc(entity: seq<EntityJson>, timestamp: int)
}
