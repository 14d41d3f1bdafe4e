/** The airport map of `app.py`: one marker per airport record with both
  coordinates present, whose popup shows a dash (or the default unit) for
  missing fields; and `limpiar_valores_nan`, the blank-for-missing helper. */
module Markers {
  import opened Results
  import opened Frames
  import Routes
  import Seqs
  import Loader

  /** `limpiar_valores_nan`: an empty text for a missing value, the value otherwise. */
  function Clean(c: Cell): (r: Cell)
    ensures r != Missing
    ensures c != Missing ==> r == c
    ensures c == Missing ==> r == Str("")
  {
    OrText(c, "")
  }

  /** Cleaning a cleaned value changes nothing. */
  lemma CleanIdempotent(c: Cell)
    ensures Clean(Clean(c)) == Clean(c)
  {
  }

  /** What the popup shows, field by field. */
  datatype Popup = Popup(
    name: Cell, iata: Cell, icao: Cell, kind: Cell,
    elevation: Cell, elevationUnit: Cell, province: Cell, usage: Cell)

  datatype Marker = Marker(location: Routes.Point, popup: Popup, tooltip: Cell)

  /** The columns the popup text reads, in the order the f-string reads them. */
  const PopupColumns: seq<string> := ["denominacion", "iata", "oaci", "tipo", "elev", "uom_elev", "provincia", "uso"]

  /** The first label of `names` that is not a column, if any. */
  function FirstAbsent(columns: seq<string>, names: seq<string>): (r: Option<string>)
    ensures r.None? <==> forall i :: 0 <= i < |names| ==> names[i] in columns
    ensures r.Some? ==> r.value in names && r.value !in columns
  {
    if |names| == 0 then None
    else if names[0] !in columns then Some(names[0])
    else
      var r := FirstAbsent(columns, names[1..]);
      assert forall i :: 1 <= i < |names| ==> names[i] == names[1..][i - 1];
      r
  }

  /** The popup of a record: name, IATA code and elevation as they are; a dash
    for a missing ICAO code, type, province or use; `Metros` for a missing unit. */
  function PopupOf(columns: seq<string>, row: Row): Popup {
    var get := name => FieldOrMissing(columns, row, name);
    Popup(get("denominacion"), get("iata"), OrText(get("oaci"), "-"), OrText(get("tipo"), "-"),
          get("elev"), OrText(get("uom_elev"), "Metros"), OrText(get("provincia"), "-"), OrText(get("uso"), "-"))
  }

  /** The fallbacks never leave a missing value, and present values are shown unchanged. */
  lemma PopupFallbacks(columns: seq<string>, row: Row)
    ensures var p := PopupOf(columns, row);
            && p.icao != Missing && p.kind != Missing && p.elevationUnit != Missing
            && p.province != Missing && p.usage != Missing
    ensures FieldOrMissing(columns, row, "oaci") == Missing ==> PopupOf(columns, row).icao == Str("-")
    ensures FieldOrMissing(columns, row, "oaci") != Missing ==> PopupOf(columns, row).icao == FieldOrMissing(columns, row, "oaci")
    ensures FieldOrMissing(columns, row, "uom_elev") == Missing ==> PopupOf(columns, row).elevationUnit == Str("Metros")
    ensures FieldOrMissing(columns, row, "uom_elev") != Missing ==> PopupOf(columns, row).elevationUnit == FieldOrMissing(columns, row, "uom_elev")
    ensures FieldOrMissing(columns, row, "provincia") == Missing ==> PopupOf(columns, row).province == Str("-")
    ensures FieldOrMissing(columns, row, "provincia") != Missing ==> PopupOf(columns, row).province == FieldOrMissing(columns, row, "provincia")
    ensures FieldOrMissing(columns, row, "uso") == Missing ==> PopupOf(columns, row).usage == Str("-")
    ensures FieldOrMissing(columns, row, "uso") != Missing ==> PopupOf(columns, row).usage == FieldOrMissing(columns, row, "uso")
    ensures FieldOrMissing(columns, row, "tipo") == Missing ==> PopupOf(columns, row).kind == Str("-")
    ensures FieldOrMissing(columns, row, "tipo") != Missing ==> PopupOf(columns, row).kind == FieldOrMissing(columns, row, "tipo")
  {
  }

  /** The order in which a marker's coordinates are handed to folium, which
    reads the first as the latitude. `app.py` hands over `[longitud, latitud]`;
    the map centre and the route lines hand over latitude first. */
  datatype Placement = AsWritten | LatitudeFirst

  /** Both coordinates of a record are present. */
  predicate Placeable(columns: seq<string>, row: Row) {
    FieldOrMissing(columns, row, "longitud") != Missing && FieldOrMissing(columns, row, "latitud") != Missing
  }

  /** Where folium puts the marker of a record, under a placement. */
  function Location(placement: Placement, columns: seq<string>, row: Row): Routes.Point {
    var lat := FieldOrMissing(columns, row, "latitud");
    var lon := FieldOrMissing(columns, row, "longitud");
    match placement
    case AsWritten => Routes.Point(lon, lat)
    case LatitudeFirst => Routes.Point(lat, lon)
  }

  /** The marker of a record: at its location, with its popup, its name as tooltip. */
  function MarkerOf(placement: Placement, columns: seq<string>, row: Row): Marker {
    Marker(Location(placement, columns, row), PopupOf(columns, row), FieldOrMissing(columns, row, "denominacion"))
  }

  /** The marker `app.py` draws stands at latitude `longitud` and longitude
    `latitud` of its own record. */
  lemma AsWrittenMarkerSwapped(columns: seq<string>, row: Row)
    ensures MarkerOf(AsWritten, columns, row).location.lat == FieldOrMissing(columns, row, "longitud")
    ensures MarkerOf(AsWritten, columns, row).location.lon == FieldOrMissing(columns, row, "latitud")
  {
  }

  /** The marker as drawn and the corrected one agree exactly when the record's
    latitude and longitude are the same value; popup and tooltip never differ. */
  lemma AsWrittenAgreesOnlyOnDiagonal(columns: seq<string>, row: Row)
    ensures MarkerOf(AsWritten, columns, row) == MarkerOf(LatitudeFirst, columns, row) <==>
            FieldOrMissing(columns, row, "latitud") == FieldOrMissing(columns, row, "longitud")
    ensures MarkerOf(AsWritten, columns, row).popup == MarkerOf(LatitudeFirst, columns, row).popup
    ensures MarkerOf(AsWritten, columns, row).tooltip == MarkerOf(LatitudeFirst, columns, row).tooltip
  {
  }

  /** One record of the loop: `Ok(None)` when a coordinate is missing, its marker
    when both are present, or the `KeyError` of the first absent column read.
    The latitude is only read when the longitude is present, and the popup
    columns only when both are. */
  function MarkerFor(placement: Placement, columns: seq<string>, row: Row): (r: Result<Option<Marker>>)
    ensures r.Ok? && r.value.Some? <==> r.Ok? && Placeable(columns, row)
    ensures r.Ok? && r.value.Some? ==> r.value.value == MarkerOf(placement, columns, row)
    ensures "longitud" !in columns ==> r == Err(KeyError("longitud"))
    ensures "longitud" in columns && FieldOrMissing(columns, row, "longitud") != Missing && "latitud" !in columns ==>
              r == Err(KeyError("latitud"))
    ensures Placeable(columns, row) && FirstAbsent(columns, PopupColumns).Some? ==>
              r == Err(KeyError(FirstAbsent(columns, PopupColumns).value))
    ensures r.Err? <==>
              || "longitud" !in columns
              || (FieldOrMissing(columns, row, "longitud") != Missing && "latitud" !in columns)
              || (Placeable(columns, row) && FirstAbsent(columns, PopupColumns).Some?)
  {
    match Field(columns, row, "longitud")
    case None => Err(KeyError("longitud"))
    case Some(lon) =>
      if lon == Missing then Ok(None)
      else
        match Field(columns, row, "latitud")
        case None => Err(KeyError("latitud"))
        case Some(lat) =>
          if lat == Missing then Ok(None)
          else
            match FirstAbsent(columns, PopupColumns)
            case Some(name) => Err(KeyError(name))
            case None => Ok(Some(MarkerOf(placement, columns, row)))
  }

  /** Every column the loop may read is there. */
  predicate MarkerColumns(columns: seq<string>) {
    "longitud" in columns && "latitud" in columns && FirstAbsent(columns, PopupColumns).None?
  }

  /** The records that get a marker, in their order. */
  function PlaceableRows(columns: seq<string>, rows: seq<Row>): (r: seq<Row>)
    ensures |r| <= |rows|
    ensures forall row :: row in r ==> row in rows && Placeable(columns, row)
  {
    Seqs.Filter(rows, row => Placeable(columns, row))
  }

  /** One marker per placeable record, in record order. */
  function Placed(placement: Placement, columns: seq<string>, rows: seq<Row>): (ms: seq<Marker>)
    ensures |ms| == |PlaceableRows(columns, rows)|
  {
    var ps := PlaceableRows(columns, rows);
    seq(|ps|, i requires 0 <= i < |ps| => MarkerOf(placement, columns, ps[i]))
  }

  /** The loop over the records: their markers, or the error of the first record
    whose turn raises. */
  function MarkersOf(placement: Placement, columns: seq<string>, rows: seq<Row>): (r: Result<seq<Marker>>)
    ensures |rows| == 0 ==> r == Ok([])
    ensures MarkerColumns(columns) ==> r.Ok?
    ensures r.Ok? <==> forall i :: 0 <= i < |rows| ==> MarkerFor(placement, columns, rows[i]).Ok?
    ensures r.Ok? ==> r.value == Placed(placement, columns, rows)
  {
    if |rows| == 0 then Ok([])
    else
      var init := rows[..|rows| - 1];
      var last := rows[|rows| - 1];
      assert rows == init + [last];
      assert forall j :: 0 <= j < |init| ==> init[j] == rows[j];
      match MarkersOf(placement, columns, init)
      case Err(e) => Err(e)
      case Ok(ms) =>
        match MarkerFor(placement, columns, last)
        case Err(e) => Err(e)
        case Ok(m) =>
          assert PlaceableRows(columns, rows) ==
                 PlaceableRows(columns, init) + (if Placeable(columns, last) then [last] else []);
          if m.Some? then
            assert Placed(placement, columns, rows) == ms + [m.value];
            Ok(ms + [m.value])
          else
            assert Placed(placement, columns, rows) == ms;
            Ok(ms)
  }

  /** The error the loop raises is that of the first record whose turn raises. */
  lemma {:induction false} MarkersOfFailsAtFirst(placement: Placement, columns: seq<string>, rows: seq<Row>)
    requires MarkersOf(placement, columns, rows).Err?
    ensures exists i :: && 0 <= i < |rows| && MarkerFor(placement, columns, rows[i]).Err?
                        && MarkersOf(placement, columns, rows).error == MarkerFor(placement, columns, rows[i]).error
                        && forall j :: 0 <= j < i ==> MarkerFor(placement, columns, rows[j]).Ok?
  {
    var init := rows[..|rows| - 1];
    var last := rows[|rows| - 1];
    assert forall j :: 0 <= j < |init| ==> init[j] == rows[j];
    if MarkersOf(placement, columns, init).Err? {
      MarkersOfFailsAtFirst(placement, columns, init);
      var i :| && 0 <= i < |init| && MarkerFor(placement, columns, init[i]).Err?
               && MarkersOf(placement, columns, init).error == MarkerFor(placement, columns, init[i]).error
               && forall j :: 0 <= j < i ==> MarkerFor(placement, columns, init[j]).Ok?;
      assert init[i] == rows[i];
    } else {
      var i := |rows| - 1;
      assert MarkerFor(placement, columns, rows[i]).Err?;
    }
  }

  /** The placement decides where the markers stand and nothing else: the loop
    raises under one placement exactly when it raises under the other, and
    otherwise yields the same markers with each location's coordinates swapped. */
  lemma PlacementOnlyMovesMarkers(columns: seq<string>, rows: seq<Row>)
    ensures MarkersOf(AsWritten, columns, rows).Ok? <==> MarkersOf(LatitudeFirst, columns, rows).Ok?
    ensures MarkersOf(AsWritten, columns, rows).Ok? ==>
              var drawn := MarkersOf(AsWritten, columns, rows).value;
              var meant := MarkersOf(LatitudeFirst, columns, rows).value;
              && |drawn| == |meant|
              && forall i :: 0 <= i < |drawn| ==>
                   && drawn[i].location == Routes.Point(meant[i].location.lon, meant[i].location.lat)
                   && drawn[i].popup == meant[i].popup && drawn[i].tooltip == meant[i].tooltip
  {
    forall i | 0 <= i < |rows|
      ensures MarkerFor(AsWritten, columns, rows[i]).Ok? <==> MarkerFor(LatitudeFirst, columns, rows[i]).Ok?
    {
    }
  }

  /** Ezeiza (latitude -34.8222, longitude -58.5358), the one record of a
    complete airport table: the loop as written draws it at latitude -58.5358,
    in the South Atlantic; with latitude first it stands at its own position. */
  lemma AsWrittenMisplacesEzeiza()
    ensures var columns := PopupColumns + ["latitud", "longitud"];
            var row := [Str("Ezeiza"), Str("EZE"), Str("SAEZ"), Str("Aeropuerto"), Num(20.0),
                        Str("Metros"), Str("Buenos Aires"), Str("Publico"), Num(-34.8222), Num(-58.5358)];
            && MarkersOf(AsWritten, columns, [row]).Ok?
            && MarkersOf(AsWritten, columns, [row]).value[0].location == Routes.Point(Num(-58.5358), Num(-34.8222))
            && MarkersOf(LatitudeFirst, columns, [row]).value[0].location == Routes.Point(Num(-34.8222), Num(-58.5358))
  {
    var columns := PopupColumns + ["latitud", "longitud"];
    var row := [Str("Ezeiza"), Str("EZE"), Str("SAEZ"), Str("Aeropuerto"), Num(20.0),
                Str("Metros"), Str("Buenos Aires"), Str("Publico"), Num(-34.8222), Num(-58.5358)];
    assert Seqs.IndexOf(columns, "latitud") == 8 && Seqs.IndexOf(columns, "longitud") == 9;
    assert MarkerColumns(columns);
    assert Placeable(columns, row);
    assert PlaceableRows(columns, [row]) == [row];
  }

  /** A record gets a marker exactly when both of its coordinates are present, so
    there are never more markers than airports; each marker stands at its
    record's coordinates, both present. */
  lemma MarkersExactlyForPlaceable(placement: Placement, columns: seq<string>, rows: seq<Row>)
    ensures |Placed(placement, columns, rows)| <= |rows|
    ensures forall row :: row in rows && Placeable(columns, row) ==>
              MarkerOf(placement, columns, row) in Placed(placement, columns, rows)
    ensures forall m :: m in Placed(placement, columns, rows) ==>
              exists row :: row in rows && Placeable(columns, row) && m == MarkerOf(placement, columns, row)
    ensures forall m :: m in Placed(placement, columns, rows) ==> m.location.lat != Missing && m.location.lon != Missing
  {
    var ps := PlaceableRows(columns, rows);
    var ms := Placed(placement, columns, rows);
    Seqs.FilterMultiset(rows, row => Placeable(columns, row));
    forall row | row in rows && Placeable(columns, row) ensures MarkerOf(placement, columns, row) in ms {
      assert multiset(rows)[row] > 0;
      assert row in multiset(ps);
      var i :| 0 <= i < |ps| && ps[i] == row;
      assert ms[i] == MarkerOf(placement, columns, row);
    }
    forall m | m in ms
      ensures exists row :: row in rows && Placeable(columns, row) && m == MarkerOf(placement, columns, row)
    {
      var i :| 0 <= i < |ms| && ms[i] == m;
      assert ps[i] in ps;
    }
  }

  /** With latitude first, a marker stands exactly where the route lines of the
    analysis page put the same airport record. */
  lemma MarkerAgreesWithRoutes(airports: Table, k: nat)
    requires k < |airports.rows|
    ensures MarkerOf(LatitudeFirst, airports.columns, airports.rows[k]).location == Routes.PointOf(airports, k)
  {
  }

  /** When the airport file cannot be read, the map page shows no marker and
    raises nothing: the stored table is empty. */
  lemma FailedAirportsGiveNoMarkers(read: Loader.Reader, placement: Placement)
    requires read(Loader.PathOf(Loader.Sources[0])).Err?
    ensures Loader.Lookup(Loader.LoadApp(read).datos, "aeropuertos") == Some(Empty)
    ensures MarkersOf(placement, Empty.columns, Empty.rows) == Ok([])
  {
    Loader.LoadedLookup(read, Loader.KeepHeaders, 0);
  }
}
