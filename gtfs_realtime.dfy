/** The GTFS-Realtime messages the decoder reads, as the protobuf library
    hands them over once `ParseFromString` succeeded (messages `FeedMessage`,
    `FeedHeader`, `FeedEntity`, `VehiclePosition`, `TripUpdate` of the
    GTFS-Realtime reference). Only the fields the decoder reads are kept; a
    scalar or sub-message field is an Option whose Some-ness is `HasField`,
    and a repeated field is a sequence. Enum values are their numbers. */
module GtfsRealtime {
  import opened Wrappers

  datatype Position = Position(latitude: Option<real>, longitude: Option<real>)

  datatype TripDescriptor = TripDescriptor(tripId: Option<string>, scheduleRelationship: Option<int>)

  /** `VehicleDescriptor`, of which only `label` is read. */
  datatype VehicleDescriptor = VehicleDescriptor(labelText: Option<string>)

  datatype VehiclePosition = VehiclePosition(
    trip: Option<TripDescriptor>,
    vehicle: Option<VehicleDescriptor>,
    position: Option<Position>,
    stopId: Option<string>)

  /** `TripUpdate.StopTimeEvent`; `time` is a POSIX time in seconds. */
  datatype StopTimeEvent = StopTimeEvent(delay: Option<int>, time: Option<int>)

  datatype StopTimeUpdate = StopTimeUpdate(stopId: Option<string>, arrival: Option<StopTimeEvent>)

  datatype TripUpdate = TripUpdate(trip: Option<TripDescriptor>, delay: Option<int>, stopTimeUpdate: seq<StopTimeUpdate>)

  datatype FeedEntity = FeedEntity(id: Option<string>, vehicle: Option<VehiclePosition>, tripUpdate: Option<TripUpdate>)

  /** `timestamp` is a uint64, read as 0 when unset. */
  datatype FeedHeader = FeedHeader(timestamp: Option<nat>)

  datatype FeedMessage = FeedMessage(header: FeedHeader, entity: seq<FeedEntity>)
}
