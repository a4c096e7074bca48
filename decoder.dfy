/** The projection `fetch_and_decode_gtfsrt` applies to a decoded feed
    (decoder_server.py:35-128): every entity becomes a JSON object holding
    exactly the fields the message has (`HasField`), sub-objects that would
    come out empty are left out, and entities that would come out empty are
    not listed. The projection functions are the specification; the methods
    below build the same objects field by field and list by list, as the
    server does. */
module Decoder {
  import opened Wrappers
  import opened Decimal
  import opened FeedJson
  import opened GtfsRealtime

  // ---------------------------------------------------------------------
  // The projection, message by message

  /** `position` holds the coordinates that are set; with none set it is left out. */
  function ProjectPosition(p: Position): Option<PositionJson> {
    if p.latitude.None? && p.longitude.None? then None
    else Some(PositionJson(p.latitude, p.longitude))
  }

  function ProjectTrip(t: TripDescriptor): TripJson {
    TripJson(t.tripId, t.scheduleRelationship)
  }

  /** A vehicle's `trip` is kept only when it holds something. */
  function ProjectVehicleTrip(t: TripDescriptor): Option<TripJson> {
    if t.tripId.None? && t.scheduleRelationship.None? then None else Some(ProjectTrip(t))
  }

  /** `vehicle.vehicle` is written only when the descriptor has a label. */
  function ProjectLabel(d: VehicleDescriptor): Option<LabelJson> {
    if d.labelText.None? then None else Some(LabelJson(d.labelText))
  }

  function ProjectVehicle(v: VehiclePosition): Option<VehicleJson> {
    var j := VehicleJson(
      if v.position.Some? then ProjectPosition(v.position.value) else None,
      if v.trip.Some? then ProjectVehicleTrip(v.trip.value) else None,
      v.stopId,
      if v.vehicle.Some? then ProjectLabel(v.vehicle.value) else None);
    if j == VehicleJson(None, None, None, None) then None else Some(j)
  }

  /** `arrival` with `time` as the decimal text of the timestamp; left out when empty. */
  function ProjectArrival(a: StopTimeEvent): Option<ArrivalJson> {
    if a.delay.None? && a.time.None? then None
    else Some(ArrivalJson(a.delay, if a.time.Some? then Some(IntToDecimal(a.time.value)) else None))
  }

  /** A stop-time update is always listed, even when it comes out empty. */
  function ProjectStopTimeUpdate(u: StopTimeUpdate): StopTimeUpdateJson {
    StopTimeUpdateJson(u.stopId, if u.arrival.Some? then ProjectArrival(u.arrival.value) else None)
  }

  function ProjectStopTimeUpdates(us: seq<StopTimeUpdate>): seq<StopTimeUpdateJson> {
    seq(|us|, i requires 0 <= i < |us| => ProjectStopTimeUpdate(us[i]))
  }

  /** A trip update's `trip` is kept whenever it is set, even when empty;
      `stop_time_update` only when the list is not empty. */
  function ProjectTripUpdate(t: TripUpdate): Option<TripUpdateJson> {
    var stus := ProjectStopTimeUpdates(t.stopTimeUpdate);
    var j := TripUpdateJson(
      if t.trip.Some? then Some(ProjectTrip(t.trip.value)) else None,
      t.delay,
      if stus == [] then None else Some(stus));
    if j == TripUpdateJson(None, None, None) then None else Some(j)
  }

  function ProjectEntity(e: FeedEntity): Option<EntityJson> {
    var j := EntityJson(
      e.id,
      if e.vehicle.Some? then ProjectVehicle(e.vehicle.value) else None,
      if e.tripUpdate.Some? then ProjectTripUpdate(e.tripUpdate.value) else None);
    if j == EntityJson(None, None, None) then None else Some(j)
  }

  /** The entity list: the projections of the entities that do not come out
      empty, in feed order. */
  function ProjectEntities(es: seq<FeedEntity>): (r: seq<EntityJson>)
    ensures |r| <= |es|
  {
    if es == [] then []
    else
      var rest := ProjectEntities(es[1..]);
      match ProjectEntity(es[0])
      case None => rest
      case Some(j) => [j] + rest
  }

  /** `int(feed.header.timestamp)`, 0 when the header has none. */
  function HeaderTimestamp(h: FeedHeader): nat {
    h.timestamp.GetOr(0)
  }

  /** The document the server answers with for a decoded feed. */
  function Decode(msg: FeedMessage): FeedDoc {
    FeedDoc(ProjectEntities(msg.entity), HeaderTimestamp(msg.header))
  }

  lemma {:induction false} ProjectEntitiesAppend(a: seq<FeedEntity>, b: seq<FeedEntity>)
    ensures ProjectEntities(a + b) == ProjectEntities(a) + ProjectEntities(b)
    decreases |a|
  {
    if a != [] {
      assert (a + b)[0] == a[0];
      assert (a + b)[1..] == a[1..] + b;
      ProjectEntitiesAppend(a[1..], b);
    } else {
      assert a + b == b;
    }
  }

  /** The list holds exactly the projections of the entities that do not
      come out empty. */
  lemma {:induction false} ProjectEntitiesMembers(es: seq<FeedEntity>, x: EntityJson)
    ensures x in ProjectEntities(es) <==> exists i :: 0 <= i < |es| && ProjectEntity(es[i]) == Some(x)
    decreases |es|
  {
    if es != [] {
      ProjectEntitiesMembers(es[1..], x);
      if exists i :: 0 <= i < |es[1..]| && ProjectEntity(es[1..][i]) == Some(x) {
        var i :| 0 <= i < |es[1..]| && ProjectEntity(es[1..][i]) == Some(x);
        assert ProjectEntity(es[i + 1]) == Some(x);
      }
      if exists i :: 0 <= i < |es| && ProjectEntity(es[i]) == Some(x) {
        var i :| 0 <= i < |es| && ProjectEntity(es[i]) == Some(x);
        if i > 0 {
          assert ProjectEntity(es[1..][i - 1]) == Some(x);
        }
      }
    }
  }

  // ---------------------------------------------------------------------
  // The shape of the output

  /** `time` is the decimal text of some integer. */
  ghost predicate IsNumeral(s: string) {
    exists i :: s == IntToDecimal(i)
  }

  /** A document entity of the shape the projection writes: no object is
      empty except a trip update's `trip` and a stop-time update, no list is
      empty, and every `time` is a numeral. */
  ghost predicate WellFormedVehicle(v: VehicleJson) {
    && (v.position.Some? ==> v.position.value.latitude.Some? || v.position.value.longitude.Some?)
    && (v.trip.Some? ==> v.trip.value.tripId.Some? || v.trip.value.scheduleRelationship.Some?)
    && (v.vehicle.Some? ==> v.vehicle.value.labelText.Some?)
    && (v.position.Some? || v.trip.Some? || v.stopId.Some? || v.vehicle.Some?)
  }

  ghost predicate WellFormedArrival(a: ArrivalJson) {
    && (a.delay.Some? || a.time.Some?)
    && (a.time.Some? ==> IsNumeral(a.time.value))
  }

  ghost predicate WellFormedStopTimeUpdate(u: StopTimeUpdateJson) {
    u.arrival.Some? ==> WellFormedArrival(u.arrival.value)
  }

  ghost predicate WellFormedTripUpdate(t: TripUpdateJson) {
    && (t.stopTimeUpdate.Some? ==>
          && |t.stopTimeUpdate.value| > 0
          && forall i :: 0 <= i < |t.stopTimeUpdate.value| ==> WellFormedStopTimeUpdate(t.stopTimeUpdate.value[i]))
    && (t.trip.Some? || t.delay.Some? || t.stopTimeUpdate.Some?)
  }

  ghost predicate WellFormedEntity(e: EntityJson) {
    && (e.vehicle.Some? ==> WellFormedVehicle(e.vehicle.value))
    && (e.tripUpdate.Some? ==> WellFormedTripUpdate(e.tripUpdate.value))
    && (e.id.Some? || e.vehicle.Some? || e.tripUpdate.Some?)
  }

  /** Everything the projection writes has that shape. */
  lemma ProjectWellFormed(e: FeedEntity)
    ensures ProjectEntity(e).Some? ==> WellFormedEntity(ProjectEntity(e).value)
  {
    if e.tripUpdate.Some? && ProjectTripUpdate(e.tripUpdate.value).Some? {
      var us := e.tripUpdate.value.stopTimeUpdate;
      forall i | 0 <= i < |us| && us[i].arrival.Some? && us[i].arrival.value.time.Some?
        ensures IsNumeral(IntToDecimal(us[i].arrival.value.time.value))
      {
        var n := us[i].arrival.value.time.value;
        assert IntToDecimal(n) == IntToDecimal(n);
      }
    }
  }

  // ---------------------------------------------------------------------
  // Reading the document back

  function LiftTrip(t: TripJson): TripDescriptor {
    TripDescriptor(t.tripId, t.scheduleRelationship)
  }

  function LiftVehicle(v: VehicleJson): VehiclePosition {
    VehiclePosition(
      if v.trip.Some? then Some(LiftTrip(v.trip.value)) else None,
      if v.vehicle.Some? then Some(VehicleDescriptor(v.vehicle.value.labelText)) else None,
      if v.position.Some? then Some(Position(v.position.value.latitude, v.position.value.longitude)) else None,
      v.stopId)
  }

  function LiftArrival(a: ArrivalJson): StopTimeEvent {
    StopTimeEvent(a.delay, if a.time.Some? then ParseInt(a.time.value) else None)
  }

  function LiftStopTimeUpdate(u: StopTimeUpdateJson): StopTimeUpdate {
    StopTimeUpdate(u.stopId, if u.arrival.Some? then Some(LiftArrival(u.arrival.value)) else None)
  }

  function LiftStopTimeUpdates(us: seq<StopTimeUpdateJson>): (r: seq<StopTimeUpdate>)
    ensures |r| == |us|
    ensures forall i :: 0 <= i < |us| ==> r[i] == LiftStopTimeUpdate(us[i])
  {
    seq(|us|, i requires 0 <= i < |us| => LiftStopTimeUpdate(us[i]))
  }

  function LiftTripUpdate(t: TripUpdateJson): TripUpdate {
    TripUpdate(
      if t.trip.Some? then Some(LiftTrip(t.trip.value)) else None,
      t.delay,
      if t.stopTimeUpdate.Some? then LiftStopTimeUpdates(t.stopTimeUpdate.value) else [])
  }

  function LiftEntity(e: EntityJson): FeedEntity {
    FeedEntity(
      e.id,
      if e.vehicle.Some? then Some(LiftVehicle(e.vehicle.value)) else None,
      if e.tripUpdate.Some? then Some(LiftTripUpdate(e.tripUpdate.value)) else None)
  }

  /** Every object of that shape is what the projection writes for the
      message read back from it: the shape describes the output exactly. */
  lemma ProjectOfLift(j: EntityJson)
    requires WellFormedEntity(j)
    ensures ProjectEntity(LiftEntity(j)) == Some(j)
  {
    if j.tripUpdate.Some? {
      var t := j.tripUpdate.value;
      if t.stopTimeUpdate.Some? {
        var us := t.stopTimeUpdate.value;
        var back := ProjectStopTimeUpdates(LiftStopTimeUpdates(us));
        forall i | 0 <= i < |us| ensures back[i] == us[i] {
          assert WellFormedStopTimeUpdate(us[i]);
          if us[i].arrival.Some? && us[i].arrival.value.time.Some? {
            var n :| us[i].arrival.value.time.value == IntToDecimal(n);
            DecimalRoundTrip(n);
          }
        }
        assert back == us;
      }
      assert ProjectTripUpdate(LiftTripUpdate(t)) == Some(t);
    }
  }

  /** What the projection forgets: the sub-messages that come out empty. A
      message in this normal form is one the document determines. */
  function NormalPosition(p: Position): Option<Position> {
    if p.latitude.None? && p.longitude.None? then None else Some(p)
  }

  function NormalVehicleTrip(t: TripDescriptor): Option<TripDescriptor> {
    if t.tripId.None? && t.scheduleRelationship.None? then None else Some(t)
  }

  function NormalVehicle(v: VehiclePosition): Option<VehiclePosition> {
    var n := VehiclePosition(
      if v.trip.Some? then NormalVehicleTrip(v.trip.value) else None,
      if v.vehicle.Some? && v.vehicle.value.labelText.Some? then v.vehicle else None,
      if v.position.Some? then NormalPosition(v.position.value) else None,
      v.stopId);
    if n == VehiclePosition(None, None, None, None) then None else Some(n)
  }

  function NormalStopTimeUpdate(u: StopTimeUpdate): StopTimeUpdate {
    StopTimeUpdate(u.stopId,
      if u.arrival.Some? && (u.arrival.value.delay.Some? || u.arrival.value.time.Some?) then u.arrival else None)
  }

  function NormalTripUpdate(t: TripUpdate): Option<TripUpdate> {
    var n := TripUpdate(t.trip, t.delay,
      seq(|t.stopTimeUpdate|, i requires 0 <= i < |t.stopTimeUpdate| => NormalStopTimeUpdate(t.stopTimeUpdate[i])));
    if n == TripUpdate(None, None, []) then None else Some(n)
  }

  function NormalEntity(e: FeedEntity): Option<FeedEntity> {
    var n := FeedEntity(
      e.id,
      if e.vehicle.Some? then NormalVehicle(e.vehicle.value) else None,
      if e.tripUpdate.Some? then NormalTripUpdate(e.tripUpdate.value) else None);
    if n == FeedEntity(None, None, None) then None else Some(n)
  }

  /** Reading the document back gives the message with its empty
      sub-messages erased, and nothing else is lost: an entity is left out of
      the list exactly when it is empty in that sense. */
  lemma LiftOfProject(e: FeedEntity)
    ensures ProjectEntity(e).None? <==> NormalEntity(e).None?
    ensures ProjectEntity(e).Some? ==> LiftEntity(ProjectEntity(e).value) == NormalEntity(e).value
  {
    if e.tripUpdate.Some? {
      var t := e.tripUpdate.value;
      var us := t.stopTimeUpdate;
      var back := LiftStopTimeUpdates(ProjectStopTimeUpdates(us));
      forall i | 0 <= i < |us| ensures back[i] == NormalStopTimeUpdate(us[i]) {
        if us[i].arrival.Some? && us[i].arrival.value.time.Some? {
          DecimalRoundTrip(us[i].arrival.value.time.value);
        }
      }
      assert ProjectTripUpdate(t).None? <==> NormalTripUpdate(t).None?;
      if ProjectTripUpdate(t).Some? {
        assert LiftTripUpdate(ProjectTripUpdate(t).value) == NormalTripUpdate(t).value;
      }
    }
  }

  /** Two entities with the same document entity agree once their empty
      sub-messages are erased. */
  lemma ProjectDeterminesNormal(e1: FeedEntity, e2: FeedEntity)
    requires ProjectEntity(e1) == ProjectEntity(e2)
    ensures NormalEntity(e1) == NormalEntity(e2)
  {
    LiftOfProject(e1);
    LiftOfProject(e2);
  }

  // ---------------------------------------------------------------------
  // The asymmetries, on concrete messages

  /** A trip update whose `trip` is set but empty still yields a `trip`
      object, and with it the trip update and the entity. */
  lemma EmptyTripUpdateTripKept()
    ensures ProjectEntity(FeedEntity(None, None, Some(TripUpdate(Some(TripDescriptor(None, None)), None, []))))
         == Some(EntityJson(None, None, Some(TripUpdateJson(Some(TripJson(None, None)), None, None))))
  {
  }

  /** A vehicle whose only content is an empty `trip` yields nothing, and an
      entity with nothing else is not listed. */
  lemma EmptyVehicleTripDropped()
    ensures ProjectEntity(FeedEntity(None, Some(VehiclePosition(Some(TripDescriptor(None, None)), None, None, None)), None)) == None
  {
  }

  /** An empty stop-time update is still listed, as an empty object. */
  lemma EmptyStopTimeUpdateKept()
    ensures ProjectTripUpdate(TripUpdate(None, None, [StopTimeUpdate(None, None)]))
         == Some(TripUpdateJson(None, None, Some([StopTimeUpdateJson(None, None)])))
  {
    var stus := ProjectStopTimeUpdates([StopTimeUpdate(None, None)]);
    assert stus[0] == StopTimeUpdateJson(None, None);
    assert stus == [StopTimeUpdateJson(None, None)];
  }

  // ---------------------------------------------------------------------
  // Imperative construction, as the server builds the dictionaries

  /** The `for stu in ...` loop appending one dictionary per stop-time update. */
  method StopTimeUpdateList(us: seq<StopTimeUpdate>) returns (l: seq<StopTimeUpdateJson>)
    ensures l == ProjectStopTimeUpdates(us)
  {
    l := [];
    for i := 0 to |us|
      invariant |l| == i
      invariant forall k :: 0 <= k < i ==> l[k] == ProjectStopTimeUpdate(us[k])
    {
      var u := us[i];
      var arrival: Option<ArrivalJson> := None;
      if u.arrival.Some? {
        arrival := ProjectArrival(u.arrival.value);
      }
      l := l + [StopTimeUpdateJson(u.stopId, arrival)];
    }
  }

  method TripUpdateDict(t: TripUpdate) returns (d: Option<TripUpdateJson>)
    ensures d == ProjectTripUpdate(t)
  {
    var trip: Option<TripJson> := None;
    if t.trip.Some? {
      trip := Some(ProjectTrip(t.trip.value));
    }
    var stus := StopTimeUpdateList(t.stopTimeUpdate);
    var list: Option<seq<StopTimeUpdateJson>> := None;
    if stus != [] {
      list := Some(stus);
    }
    var j := TripUpdateJson(trip, t.delay, list);
    d := if j == TripUpdateJson(None, None, None) then None else Some(j);
  }

  /** The `vehicle = {}` dictionary filled key by key: `position` and `trip`
      only when they came out non-empty, `vehicle.label` only when set. */
  method VehicleDict(v: VehiclePosition) returns (d: Option<VehicleJson>)
    ensures d == ProjectVehicle(v)
  {
    var position: Option<PositionJson> := None;
    if v.position.Some? {
      var p := v.position.value;
      if p.latitude.Some? || p.longitude.Some? {
        position := Some(PositionJson(p.latitude, p.longitude));
      }
    }
    var trip: Option<TripJson> := None;
    if v.trip.Some? {
      var t := v.trip.value;
      if t.tripId.Some? || t.scheduleRelationship.Some? {
        trip := Some(TripJson(t.tripId, t.scheduleRelationship));
      }
    }
    var labelDict: Option<LabelJson> := None;
    if v.vehicle.Some? && v.vehicle.value.labelText.Some? {
      labelDict := Some(LabelJson(v.vehicle.value.labelText));
    }
    var j := VehicleJson(position, trip, v.stopId, labelDict);
    d := if j == VehicleJson(None, None, None, None) then None else Some(j);
  }

  method EntityDict(e: FeedEntity) returns (d: Option<EntityJson>)
    ensures d == ProjectEntity(e)
  {
    var vehicle: Option<VehicleJson> := None;
    if e.vehicle.Some? {
      vehicle := VehicleDict(e.vehicle.value);
    }
    var tripUpdate: Option<TripUpdateJson> := None;
    if e.tripUpdate.Some? {
      tripUpdate := TripUpdateDict(e.tripUpdate.value);
    }
    var j := EntityJson(e.id, vehicle, tripUpdate);
    d := if j == EntityJson(None, None, None) then None else Some(j);
  }

  /** The `for entity in feed.entity` loop and the result document. */
  method DecodeFeed(msg: FeedMessage) returns (doc: FeedDoc)
    ensures doc == Decode(msg)
  {
    var list: seq<EntityJson> := [];
    for i := 0 to |msg.entity|
      invariant list == ProjectEntities(msg.entity[..i])
    {
      var d := EntityDict(msg.entity[i]);
      if d.Some? {
        list := list + [d.value];
      }
      ProjectEntitiesAppend(msg.entity[..i], [msg.entity[i]]);
      assert msg.entity[..i + 1] == msg.entity[..i] + [msg.entity[i]];
    }
    assert msg.entity[..|msg.entity|] == msg.entity;
    doc := FeedDoc(list, HeaderTimestamp(msg.header));
  }
}
