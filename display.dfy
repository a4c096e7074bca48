/** The popup `updateMarker` builds for a train (app.js:228-256): its route,
    destination, current stop, platform and delay, as the values the popup
    shows. The HTML markup around them is not modelled. */
module Display {
  import opened Wrappers
  import opened Decimal
  import opened Catalog
  import opened Csv
  import opened Platform
  import opened Reconcile

  /** `Math.round(delay / 60)`: the delay in whole minutes, to the nearest
      minute, a half minute rounding up. */
  function DelayMinutes(delay: int): (m: int)
    ensures 60 * m - 30 <= delay < 60 * m + 30
  {
    (delay + 30) / 60
  }

  /** Rounding is monotone: a larger delay never shows fewer minutes. */
  lemma DelayMinutesMonotone(d1: int, d2: int)
    requires d1 <= d2
    ensures DelayMinutes(d1) <= DelayMinutes(d2)
  {
  }

  /** What the delay line says: late by some minutes, or on time (which a
      train running early also shows). */
  datatype DelayBadge = Late(minutes: nat) | OnTime

  function DelayBadgeOf(delay: int): (b: DelayBadge)
    ensures b.Late? <==> delay >= 30
    ensures b.Late? ==> b.minutes == DelayMinutes(delay) && b.minutes >= 1
  {
    var m := DelayMinutes(delay);
    if m > 0 then Late(m) else OnTime
  }

  /** The visible text of the delay line. */
  function DelayText(b: DelayBadge): string {
    match b
    case Late(m) => "+" + NatToDecimal(m) + " min de retraso"
    case OnTime => "A tiempo"
  }

  /** The two delay lines never read the same, and the late one names its
      minutes: its text between the plus sign and the unit is the decimal
      numeral of the minutes. */
  lemma DelayTextReadsBack(b: DelayBadge)
    ensures b.OnTime? <==> DelayText(b) == "A tiempo"
    ensures b.Late? ==> var t := DelayText(b);
                        |t| > 16 && ParseInt(t[1..|t| - 15]) == Some(b.minutes as int)
  {
    if b.Late? {
      var t := DelayText(b);
      var d := NatToDecimal(b.minutes);
      assert t[1..|t| - 15] == d;
      DecimalRoundTrip(b.minutes);
      assert t[0] == '+';
    }
  }

  /** The stop line: the catalog name of a known stop, the bare id of an
      unknown one, or a placeholder when the vehicle reports none. */
  datatype StopLine = KnownStop(name: string) | UnknownStop(id: string) | NotReported

  function StopLineOf(stopId: Option<string>, stops: map<string, StopInfo>): (l: StopLine)
    ensures l.NotReported? <==> !Truthy(stopId)
    ensures l.KnownStop? <==> Truthy(stopId) && stopId.value in stops
    ensures l.KnownStop? ==> l.name == stops[stopId.value].stopName
    ensures l.UnknownStop? ==> l.id == stopId.value
  {
    if Truthy(stopId) && stopId.value in stops then KnownStop(stops[stopId.value].stopName)
    else if Truthy(stopId) then UnknownStop(stopId.value)
    else NotReported
  }

  const NO_STOP_REPORTED := "ID no reportada / En ruta"

  function StopText(l: StopLine): string {
    match l
    case KnownStop(name) => name
    case UnknownStop(id) => "ID " + id + " (Nombre no encontrado)"
    case NotReported => NO_STOP_REPORTED
  }

  /** With a stop catalog read from `stops.txt` the stop line is never blank. */
  lemma StopTextNeverBlank(stopId: Option<string>, stopsText: string)
    ensures StopText(StopLineOf(stopId, Stops(map[], ParseCsv(stopsText)))) != ""
  {
    CatalogsFromCsvNonEmpty("", stopsText);
    var l := StopLineOf(stopId, Stops(map[], ParseCsv(stopsText)));
    if l.UnknownStop? {
      assert StopText(l)[0] == 'I';
    }
  }

  /** The platform line: a track number, or "not assigned". */
  datatype PlatformBadge = Track(code: string) | Unassigned

  function PlatformBadgeOf(platform: string): PlatformBadge {
    if platform != NO_PLATFORM then Track(platform) else Unassigned
  }

  function PlatformText(b: PlatformBadge): string {
    match b
    case Track(code) => "Vía " + code
    case Unassigned => "N/A (En tránsito o vía no asignada)"
  }

  /** For a platform taken from a vehicle label, the popup shows track `d`
      exactly when the label ends in `(d)` with `d` all digits, and "not
      assigned" exactly when it ends in no such group. */
  lemma PlatformBadgeFromLabel(text: Option<string>, d: string)
    ensures PlatformBadgeOf(PlatformCode(text)) == Track(d) <==> text.Some? && Matches(text.value, d)
    ensures PlatformBadgeOf(PlatformCode(text)) == Unassigned <==> text.None? || forall e :: !Matches(text.value, e)
  {
    PlatformCodeIff(text, d);
    if text.Some? && PlatformCode(text) != NO_PLATFORM {
      assert Matches(text.value, PlatformCode(text));
    }
    if text.Some? && !forall e :: !Matches(text.value, e) {
      var e :| Matches(text.value, e);
      PlatformCodeIff(text, e);
    }
  }

  /** `${data.route}` of a route without `route_short_name` prints "undefined". */
  function RouteText(route: Option<string>): (t: string)
    ensures route.Some? ==> t == route.value
    ensures route.None? ==> t == "undefined"
  {
    JsKey(route)
  }

  /** Everything the popup of a train shows. */
  datatype Popup = Popup(route: string, destination: string, stop: StopLine, platform: PlatformBadge, delay: DelayBadge)

  function PopupOf(rec: TrainRecord, stops: map<string, StopInfo>): Popup {
    Popup(RouteText(rec.route), rec.destination, StopLineOf(rec.currentStopId, stops),
          PlatformBadgeOf(rec.platform), DelayBadgeOf(rec.delay))
  }

  /** A popup determines the record's delay to the nearest minute (late
      trains) or bounds it below half a minute (on time), and the platform
      field exactly. */
  lemma PopupReflectsRecord(rec: TrainRecord, stops: map<string, StopInfo>)
    ensures var p := PopupOf(rec, stops);
            && (p.delay.OnTime? ==> rec.delay < 30)
            && (p.delay.Late? ==> 60 * p.delay.minutes - 30 <= rec.delay < 60 * p.delay.minutes + 30)
            && (p.platform.Track? ==> rec.platform == p.platform.code)
            && (p.platform.Unassigned? ==> rec.platform == NO_PLATFORM)
  {
  }
}
