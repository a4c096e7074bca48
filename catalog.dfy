/** The static GTFS catalogs `MapRoutes`, `MapTrips` and `MapStops` that
    `loadStaticData` fills from the parsed `routes.txt`, `trips.txt` and
    `stops.txt` (app.js:69-100). */
module Catalog {
  import opened Wrappers
  import opened JsString
  import opened Csv

  datatype RouteInfo = RouteInfo(shortName: Option<string>, longName: Option<string>)
  datatype TripInfo = TripInfo(routeId: Option<string>, headsign: string)
  datatype StopInfo = StopInfo(stopName: string)

  /** The headsign given to a trip whose `trip_headsign` is empty or absent. */
  const UNKNOWN_DESTINATION := "Destino Desconocido"

  /** `row.name`: the cell, or `undefined` when the row had no cell for it. */
  function Field(row: Record, name: string): (r: Option<string>)
    ensures r.Some? <==> name in row
  {
    if name in row then Some(row[name]) else None
  }

  /** JavaScript truthiness of a property holding a string or `undefined`. */
  predicate Truthy(v: Option<string>) {
    v.Some? && v.value != ""
  }

  /** The property name a JavaScript object uses for a key: `undefined`
      becomes the string "undefined". */
  function JsKey(k: Option<string>): string {
    match k
    case Some(s) => s
    case None => "undefined"
  }

  // Per row: the key it is stored under (None: the row is skipped) and the value.

  function RouteKey(row: Record): Option<string> {
    Some(JsKey(Field(row, "route_id")))
  }

  function RouteOf(row: Record): RouteInfo {
    RouteInfo(Field(row, "route_short_name"), Field(row, "route_long_name"))
  }

  function TripKey(row: Record): Option<string> {
    if Truthy(Field(row, "trip_id")) then Some(Trim(row["trip_id"])) else None
  }

  function TripOf(row: Record): TripInfo {
    var h := Field(row, "trip_headsign");
    TripInfo(Field(row, "route_id"), if Truthy(h) then Trim(h.value) else UNKNOWN_DESTINATION)
  }

  function StopKey(row: Record): Option<string> {
    if Truthy(Field(row, "stop_id")) && Truthy(Field(row, "stop_name")) then Some(Trim(row["stop_id"])) else None
  }

  function StopOf(row: Record): StopInfo {
    StopInfo(Trim(Field(row, "stop_name").GetOr("")))
  }

  /** `rows.forEach(row => { if (key) m[key] = value; })`: the rows stored one
      after the other, a later row replacing an earlier one with the same key. */
  function Upserts<V>(m: map<string, V>, rows: seq<Record>, key: Record -> Option<string>, val: Record -> V): map<string, V>
    decreases |rows|
  {
    if rows == [] then m
    else
      var prev := Upserts(m, rows[..|rows| - 1], key, val);
      var row := rows[|rows| - 1];
      match key(row)
      case None => prev
      case Some(k) => prev[k := val(row)]
  }

  /** The loop that fills one catalog. */
  method Fill<V>(m0: map<string, V>, rows: seq<Record>, key: Record -> Option<string>, val: Record -> V)
    returns (m: map<string, V>)
    ensures m == Upserts(m0, rows, key, val)
  {
    m := m0;
    var i := 0;
    while i < |rows|
      invariant 0 <= i <= |rows|
      invariant m == Upserts(m0, rows[..i], key, val)
    {
      assert rows[..i + 1][..i] == rows[..i];
      var row := rows[i];
      match key(row) {
        case Some(k) => m := m[k := val(row)];
        case None =>
      }
      i := i + 1;
    }
    assert rows[..i] == rows;
  }

  /** The keys of a filled catalog: the keys it had plus the key of every row
      that has one. */
  lemma {:induction false} UpsertsKeys<V>(m: map<string, V>, rows: seq<Record>, key: Record -> Option<string>, val: Record -> V, k: string)
    ensures k in Upserts(m, rows, key, val) <==> k in m || exists i :: 0 <= i < |rows| && key(rows[i]) == Some(k)
    decreases |rows|
  {
    if rows != [] {
      var n := |rows| - 1;
      UpsertsKeys(m, rows[..n], key, val, k);
      if exists i :: 0 <= i < |rows| && key(rows[i]) == Some(k) {
        var i :| 0 <= i < |rows| && key(rows[i]) == Some(k);
        if i < n {
          assert rows[..n][i] == rows[i];
        }
      }
      assert forall i :: 0 <= i < n ==> rows[..n][i] == rows[i];
    }
  }

  /** Filling never loses a key. */
  lemma {:induction false} UpsertsGrow<V>(m: map<string, V>, rows: seq<Record>, key: Record -> Option<string>, val: Record -> V)
    ensures m.Keys <= Upserts(m, rows, key, val).Keys
    decreases |rows|
  {
    if rows != [] {
      UpsertsGrow(m, rows[..|rows| - 1], key, val);
    }
  }

  /** The last row with a given key decides that key's value. */
  lemma {:induction false} UpsertsLastWins<V>(m: map<string, V>, rows: seq<Record>, key: Record -> Option<string>, val: Record -> V, i: int)
    requires 0 <= i < |rows| && key(rows[i]).Some?
    requires forall j :: i < j < |rows| ==> key(rows[j]) != key(rows[i])
    ensures key(rows[i]).value in Upserts(m, rows, key, val)
    ensures Upserts(m, rows, key, val)[key(rows[i]).value] == val(rows[i])
    decreases |rows|
  {
    var n := |rows| - 1;
    if i < n {
      assert rows[..n][i] == rows[i];
      assert forall j :: i < j < n ==> rows[..n][j] == rows[j];
      UpsertsLastWins(m, rows[..n], key, val, i);
    }
  }

  /** A key no row carries keeps the value it had. */
  lemma {:induction false} UpsertsUntouched<V>(m: map<string, V>, rows: seq<Record>, key: Record -> Option<string>, val: Record -> V, k: string)
    requires k in m
    requires forall j :: 0 <= j < |rows| ==> key(rows[j]) != Some(k)
    ensures k in Upserts(m, rows, key, val) && Upserts(m, rows, key, val)[k] == m[k]
    decreases |rows|
  {
    if rows != [] {
      var n := |rows| - 1;
      assert forall j :: 0 <= j < n ==> rows[..n][j] == rows[j];
      UpsertsUntouched(m, rows[..n], key, val, k);
    }
  }

  /** Every value of a filled catalog was already there or comes from a row
      stored under that key. */
  lemma {:induction false} UpsertsProvenance<V>(m: map<string, V>, rows: seq<Record>, key: Record -> Option<string>, val: Record -> V, k: string)
    requires k in Upserts(m, rows, key, val)
    ensures || (k in m && Upserts(m, rows, key, val)[k] == m[k])
            || (exists i :: 0 <= i < |rows| && key(rows[i]) == Some(k) && Upserts(m, rows, key, val)[k] == val(rows[i]))
    decreases |rows|
  {
    if rows != [] {
      var n := |rows| - 1;
      var row := rows[n];
      if key(row) != Some(k) {
        UpsertsProvenance(m, rows[..n], key, val, k);
        assert forall j :: 0 <= j < n ==> rows[..n][j] == rows[j];
      }
    }
  }

  // The three catalogs.

  function Routes(m: map<string, RouteInfo>, rows: seq<Record>): map<string, RouteInfo> {
    Upserts(m, rows, RouteKey, RouteOf)
  }

  function Trips(m: map<string, TripInfo>, rows: seq<Record>): map<string, TripInfo> {
    Upserts(m, rows, TripKey, TripOf)
  }

  function Stops(m: map<string, StopInfo>, rows: seq<Record>): map<string, StopInfo> {
    Upserts(m, rows, StopKey, StopOf)
  }

  /** Every route row is stored, under its `route_id`, or under "undefined" when
      the row has none; a later row wins. */
  lemma RoutesCatalog(m: map<string, RouteInfo>, rows: seq<Record>, i: int)
    requires 0 <= i < |rows|
    requires forall j :: i < j < |rows| ==> JsKey(Field(rows[j], "route_id")) != JsKey(Field(rows[i], "route_id"))
    ensures JsKey(Field(rows[i], "route_id")) in Routes(m, rows)
    ensures Routes(m, rows)[JsKey(Field(rows[i], "route_id"))]
            == RouteInfo(Field(rows[i], "route_short_name"), Field(rows[i], "route_long_name"))
  {
    UpsertsLastWins(m, rows, RouteKey, RouteOf, i);
  }

  /** The trip catalog gains exactly the rows with a non-empty `trip_id`,
      keyed by the trimmed id. */
  lemma TripsCatalogKeys(m: map<string, TripInfo>, rows: seq<Record>, k: string)
    ensures k in Trips(m, rows) <==>
            k in m || exists i :: 0 <= i < |rows| && Truthy(Field(rows[i], "trip_id")) && Trim(rows[i]["trip_id"]) == k
  {
    UpsertsKeys(m, rows, TripKey, TripOf, k);
    assert forall i :: 0 <= i < |rows| ==> (TripKey(rows[i]) == Some(k) <==>
      Truthy(Field(rows[i], "trip_id")) && Trim(rows[i]["trip_id"]) == k);
  }

  /** The last row with a given trimmed `trip_id` decides its route and its
      headsign: the trimmed `trip_headsign`, or "Destino Desconocido" when
      that is empty or absent. */
  lemma TripsCatalogValue(m: map<string, TripInfo>, rows: seq<Record>, i: int)
    requires 0 <= i < |rows| && Truthy(Field(rows[i], "trip_id"))
    requires forall j :: i < j < |rows| ==> TripKey(rows[j]) != TripKey(rows[i])
    ensures var k := Trim(rows[i]["trip_id"]);
            var h := Field(rows[i], "trip_headsign");
            && k in Trips(m, rows)
            && Trips(m, rows)[k].routeId == Field(rows[i], "route_id")
            && Trips(m, rows)[k].headsign == (if Truthy(h) then Trim(h.value) else UNKNOWN_DESTINATION)
  {
    UpsertsLastWins(m, rows, TripKey, TripOf, i);
  }

  /** The stop catalog gains exactly the rows with both `stop_id` and
      `stop_name` non-empty, keyed by the trimmed id. */
  lemma StopsCatalogKeys(m: map<string, StopInfo>, rows: seq<Record>, k: string)
    ensures k in Stops(m, rows) <==>
            k in m || exists i :: 0 <= i < |rows| && Truthy(Field(rows[i], "stop_id"))
                                  && Truthy(Field(rows[i], "stop_name")) && Trim(rows[i]["stop_id"]) == k
  {
    UpsertsKeys(m, rows, StopKey, StopOf, k);
    assert forall i :: 0 <= i < |rows| ==> (StopKey(rows[i]) == Some(k) <==>
      Truthy(Field(rows[i], "stop_id")) && Truthy(Field(rows[i], "stop_name")) && Trim(rows[i]["stop_id"]) == k);
  }

  /** The last row with a given trimmed `stop_id` decides its trimmed name. */
  lemma StopsCatalogValue(m: map<string, StopInfo>, rows: seq<Record>, i: int)
    requires 0 <= i < |rows| && StopKey(rows[i]).Some?
    requires forall j :: i < j < |rows| ==> StopKey(rows[j]) != StopKey(rows[i])
    ensures var k := Trim(rows[i]["stop_id"]);
            k in Stops(m, rows) && Stops(m, rows)[k].stopName == Trim(rows[i]["stop_name"])
  {
    UpsertsLastWins(m, rows, StopKey, StopOf, i);
  }

  /** A stored trip row whose cells are trimmed gives a non-empty id and a
      non-empty headsign. */
  lemma TripRowNonEmpty(row: Record)
    requires TripKey(row).Some?
    requires forall c :: c in row ==> IsTrimmed(row[c])
    ensures TripKey(row).value != "" && TripOf(row).headsign != ""
  {
    TrimOfTrimmed(row["trip_id"]);
    if Truthy(Field(row, "trip_headsign")) {
      TrimOfTrimmed(row["trip_headsign"]);
    }
  }

  /** A stored stop row whose cells are trimmed gives a non-empty name. */
  lemma StopRowNonEmpty(row: Record)
    requires StopKey(row).Some?
    requires forall c :: c in row ==> IsTrimmed(row[c])
    ensures StopOf(row).stopName != ""
  {
    TrimOfTrimmed(row["stop_name"]);
  }

  /** A trip catalog filled from rows of trimmed cells has no empty trip id
      and no empty headsign. */
  lemma TripsNonEmpty(rows: seq<Record>)
    requires CleanCells(rows)
    ensures forall k :: k in Trips(map[], rows) ==> k != "" && Trips(map[], rows)[k].headsign != ""
  {
    var m := Trips(map[], rows);
    forall k | k in m
      ensures k != "" && m[k].headsign != ""
    {
      UpsertsProvenance(map[], rows, TripKey, TripOf, k);
      var i :| 0 <= i < |rows| && TripKey(rows[i]) == Some(k) && m[k] == TripOf(rows[i]);
      TripRowNonEmpty(rows[i]);
    }
  }

  /** A stop catalog filled from rows of trimmed cells has no empty name. */
  lemma StopsNonEmpty(rows: seq<Record>)
    requires CleanCells(rows)
    ensures forall k :: k in Stops(map[], rows) ==> Stops(map[], rows)[k].stopName != ""
  {
    var m := Stops(map[], rows);
    forall k | k in m
      ensures m[k].stopName != ""
    {
      UpsertsProvenance(map[], rows, StopKey, StopOf, k);
      var i :| 0 <= i < |rows| && StopKey(rows[i]) == Some(k) && m[k] == StopOf(rows[i]);
      StopRowNonEmpty(rows[i]);
    }
  }

  /** Catalogs read from CSV text hold no empty trip id, no empty headsign and
      no empty stop name, since every cell `parseCSV` yields is trimmed. */
  lemma CatalogsFromCsvNonEmpty(tripsText: string, stopsText: string)
    ensures forall k :: k in Trips(map[], ParseCsv(tripsText)) ==>
              k != "" && Trips(map[], ParseCsv(tripsText))[k].headsign != ""
    ensures forall k :: k in Stops(map[], ParseCsv(stopsText)) ==>
              Stops(map[], ParseCsv(stopsText))[k].stopName != ""
  {
    ParseCsvClean(tripsText);
    TripsNonEmpty(ParseCsv(tripsText));
    ParseCsvClean(stopsText);
    StopsNonEmpty(ParseCsv(stopsText));
  }
}
