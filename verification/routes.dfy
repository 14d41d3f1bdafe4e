/** The route map of the airline page: for each selected flight row, its two
  airport codes are looked up in the airport table by exact equality, and a
  line is drawn only when both ends are found, between the coordinates of the
  first matching airport records, origin first. */
module Routes {
  import opened Results
  import opened Frames
  import Seqs

  const OriginColumn: string := "Origen_/_Destino"
  const AirportColumn: string := "Aeropuerto"
  const LatitudeColumn: string := "latitud"
  const LongitudeColumn: string := "longitud"

  /** A map position, latitude first as folium takes it. */
  datatype Point = Point(lat: Cell, lon: Cell)

  datatype Line = Line(origin: Point, destination: Point)

  /** `aeropuertos['Aeropuerto'] == code` for one record: equal values, and a
    missing value equals nothing, not even another missing value. */
  predicate Matches(key: Cell, code: Cell) {
    code != Missing && key == code
  }

  /** The position of the first record whose code matches, if any
    (`.values[0]` of the matching records). */
  function FirstMatch(keys: seq<Cell>, code: Cell): (r: Option<nat>)
    ensures r.Some? <==> exists k :: 0 <= k < |keys| && Matches(keys[k], code)
    ensures r.Some? ==> r.value < |keys| && Matches(keys[r.value], code)
    ensures r.Some? ==> forall j :: 0 <= j < r.value ==> !Matches(keys[j], code)
  {
    if |keys| == 0 then None
    else if Matches(keys[0], code) then Some(0)
    else
      match FirstMatch(keys[1..], code)
      case None =>
        assert forall k :: 1 <= k < |keys| ==> keys[k] == keys[1..][k - 1];
        None
      case Some(k) => Some(k + 1)
  }

  /** The airport records matched by a flight row: (origin, destination). */
  function Endpoints(flightColumns: seq<string>, row: Row, keys: seq<Cell>): Option<(nat, nat)> {
    match (FirstMatch(keys, FieldOrMissing(flightColumns, row, OriginColumn)),
           FirstMatch(keys, FieldOrMissing(flightColumns, row, AirportColumn)))
    case (Some(o), Some(d)) => Some((o, d))
    case _ => None
  }

  /** The position of airport record `k`. */
  function PointOf(airports: Table, k: nat): Point
    requires k < |airports.rows|
  {
    Point(FieldOrMissing(airports.columns, airports.rows[k], LatitudeColumn),
          FieldOrMissing(airports.columns, airports.rows[k], LongitudeColumn))
  }

  /** The codes of the airport table, one per record. */
  function AirportKeys(airports: Table): (keys: seq<Cell>)
    ensures |keys| == |airports.rows|
  {
    seq(|airports.rows|, k requires 0 <= k < |airports.rows| => FieldOrMissing(airports.columns, airports.rows[k], AirportColumn))
  }

  /** Whether a flight row gets a line: both of its codes match some record. */
  predicate Resolves(flights: Table, airports: Table, row: Row) {
    Endpoints(flights.columns, row, AirportKeys(airports)).Some?
  }

  /** The line of a row that resolves. */
  function LineOf(flights: Table, airports: Table, row: Row): Line
    requires Resolves(flights, airports, row)
  {
    var e := Endpoints(flights.columns, row, AirportKeys(airports)).value;
    Line(PointOf(airports, e.0), PointOf(airports, e.1))
  }

  /** The rows that get a line, in their order. */
  function ResolvedRows(flights: Table, airports: Table): (rows: seq<Row>)
    ensures forall row :: row in rows ==> row in flights.rows && Resolves(flights, airports, row)
    ensures |rows| <= |flights.rows|
  {
    Seqs.Filter(flights.rows, row => Resolves(flights, airports, row))
  }

  /** One line per row that resolves, in row order. */
  function Lines(flights: Table, airports: Table): (lines: seq<Line>)
    ensures |lines| == |ResolvedRows(flights, airports)| <= |flights.rows|
  {
    var rows := ResolvedRows(flights, airports);
    seq(|rows|, i requires 0 <= i < |rows| => LineOf(flights, airports, rows[i]))
  }

  /** Every flight row that resolves contributes its line, and every line comes
    from a flight row that resolves. */
  lemma LinesExactlyFromResolvedRows(flights: Table, airports: Table)
    ensures forall row :: row in flights.rows && Resolves(flights, airports, row) ==>
              LineOf(flights, airports, row) in Lines(flights, airports)
    ensures forall l :: l in Lines(flights, airports) ==>
              exists row :: row in flights.rows && Resolves(flights, airports, row) && l == LineOf(flights, airports, row)
  {
    var rows := ResolvedRows(flights, airports);
    var lines := Lines(flights, airports);
    Seqs.FilterMultiset(flights.rows, row => Resolves(flights, airports, row));
    forall row | row in flights.rows && Resolves(flights, airports, row)
      ensures LineOf(flights, airports, row) in lines
    {
      assert multiset(flights.rows)[row] > 0;
      assert row in multiset(rows);
      var i :| 0 <= i < |rows| && rows[i] == row;
      assert lines[i] == LineOf(flights, airports, row);
    }
    forall l | l in lines
      ensures exists row :: row in flights.rows && Resolves(flights, airports, row) && l == LineOf(flights, airports, row)
    {
      var i :| 0 <= i < |lines| && lines[i] == l;
      assert rows[i] in rows;
    }
  }

  /** folium accepts a line only when none of its four coordinates is missing. */
  predicate Drawable(l: Line) {
    && l.origin.lat != Missing && l.origin.lon != Missing
    && l.destination.lat != Missing && l.destination.lon != Missing
  }

  /** What `folium.PolyLine` raises for a missing coordinate. */
  const NaNCoordinate: string := "ValueError: Location values cannot contain NaNs."

  /** The lines the loop draws, or what it raises. Per row it reads the airport
    code column of the airport table, then the row's origin, then the row's
    airport; the coordinate columns only for a row that resolves, and the line
    itself then refuses a missing coordinate. */
  function RouteLines(flights: Table, airports: Table): (r: Result<seq<Line>>)
    ensures |flights.rows| == 0 ==> r == Ok([])
    ensures |flights.rows| > 0 && AirportColumn !in airports.columns ==> r == Err(KeyError(AirportColumn))
    ensures |flights.rows| > 0 && AirportColumn in airports.columns && OriginColumn !in flights.columns ==>
              r == Err(KeyError(OriginColumn))
    ensures (|flights.rows| > 0 && AirportColumn in airports.columns && OriginColumn in flights.columns
             && AirportColumn !in flights.columns) ==> r == Err(KeyError(AirportColumn))
    ensures (&& OriginColumn in flights.columns && AirportColumn in flights.columns
             && AirportColumn in airports.columns && |ResolvedRows(flights, airports)| > 0) ==>
              && (LatitudeColumn !in airports.columns ==> r == Err(KeyError(LatitudeColumn)))
              && (LatitudeColumn in airports.columns && LongitudeColumn !in airports.columns ==> r == Err(KeyError(LongitudeColumn)))
    ensures (&& OriginColumn in flights.columns && AirportColumn in flights.columns
             && AirportColumn in airports.columns && LatitudeColumn in airports.columns
             && LongitudeColumn in airports.columns) ==>
              (r.Ok? <==> forall l :: l in Lines(flights, airports) ==> Drawable(l))
    ensures r.Err? <==>
              && |flights.rows| > 0
              && (|| AirportColumn !in airports.columns || OriginColumn !in flights.columns
                  || AirportColumn !in flights.columns
                  || (|ResolvedRows(flights, airports)| > 0
                      && (LatitudeColumn !in airports.columns || LongitudeColumn !in airports.columns))
                  || exists l :: l in Lines(flights, airports) && !Drawable(l))
    ensures (&& OriginColumn in flights.columns && AirportColumn in flights.columns
             && AirportColumn in airports.columns && LatitudeColumn in airports.columns
             && LongitudeColumn in airports.columns
             && exists l :: l in Lines(flights, airports) && !Drawable(l)) ==> r == Err(NaNCoordinate)
    ensures r.Ok? ==> r.value == Lines(flights, airports)
  {
    if |flights.rows| == 0 then Ok([])
    else if AirportColumn !in airports.columns then Err(KeyError(AirportColumn))
    else if OriginColumn !in flights.columns then Err(KeyError(OriginColumn))
    else if AirportColumn !in flights.columns then Err(KeyError(AirportColumn))
    else
      var lines := Lines(flights, airports);
      var resolved := |ResolvedRows(flights, airports)| > 0;
      if resolved && LatitudeColumn !in airports.columns then Err(KeyError(LatitudeColumn))
      else if resolved && LongitudeColumn !in airports.columns then Err(KeyError(LongitudeColumn))
      else if exists l :: l in lines && !Drawable(l) then Err(NaNCoordinate)
      else Ok(lines)
  }

  /** A line's origin is the position of the first airport record whose code
    equals the row's origin code, and its destination that of the first record
    whose code equals the row's airport code. */
  lemma LineEnds(flights: Table, airports: Table, row: Row, o: nat, d: nat)
    requires Resolves(flights, airports, row)
    requires o < |airports.rows| && Matches(AirportKeys(airports)[o], FieldOrMissing(flights.columns, row, OriginColumn))
    requires forall j :: 0 <= j < o ==> !Matches(AirportKeys(airports)[j], FieldOrMissing(flights.columns, row, OriginColumn))
    requires d < |airports.rows| && Matches(AirportKeys(airports)[d], FieldOrMissing(flights.columns, row, AirportColumn))
    requires forall j :: 0 <= j < d ==> !Matches(AirportKeys(airports)[j], FieldOrMissing(flights.columns, row, AirportColumn))
    ensures LineOf(flights, airports, row) == Line(PointOf(airports, o), PointOf(airports, d))
  {
    var keys := AirportKeys(airports);
    var oc := FieldOrMissing(flights.columns, row, OriginColumn);
    var dc := FieldOrMissing(flights.columns, row, AirportColumn);
    var fo := FirstMatch(keys, oc).value;
    var fd := FirstMatch(keys, dc).value;
    assert fo == o;
    assert fd == d;
  }

  /** A flight row resolves exactly when each of its two codes equals the code
    of some airport record. */
  lemma ResolvesIff(flights: Table, airports: Table, row: Row)
    ensures Resolves(flights, airports, row) <==>
            (exists k :: 0 <= k < |airports.rows| && Matches(AirportKeys(airports)[k], FieldOrMissing(flights.columns, row, OriginColumn))) &&
            (exists k :: 0 <= k < |airports.rows| && Matches(AirportKeys(airports)[k], FieldOrMissing(flights.columns, row, AirportColumn)))
  {
  }
}
