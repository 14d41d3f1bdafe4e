/** `analizar_por_aerolinea`: the airline option list, the selection filter over
  the 2024 table, the early return when there is no date column, the KPIs
  (flights, passenger total and mean), the flights per month and the route lines. */
module Airline {
  import opened Results
  import opened Frames
  import Seqs
  import Loader
  import Months
  import Routes

  const AllAirlines: Cell := Str("Todas")
  const AirlineColumn: string := "Aerolinea_Nombre"
  const DateColumn: string := "Fecha_UTC"
  const PassengerColumn: string := "Pasajeros"
  const Year: string := "2024"
  const AirportsKey: string := "aeropuertos"

  /** `airlines.unique().tolist()` with `"Todas"` inserted in front: each distinct
    airline value once, in order of first appearance, after the sentinel. */
  function AirlineOptions(airlines: seq<Cell>): (r: seq<Cell>)
    ensures |r| >= 1 && r[0] == AllAirlines
    ensures Seqs.Distinct(r[1..])
    ensures forall c :: c in r[1..] <==> c in airlines
    ensures forall i, j :: 1 <= i < j < |r| ==> Seqs.IndexOf(airlines, r[i]) < Seqs.IndexOf(airlines, r[j])
  {
    var u := Seqs.Unique(airlines);
    assert ([AllAirlines] + u)[1..] == u;
    [AllAirlines] + u
  }

  /** The row's airline is one of the selected values (`isin`, under which a
    missing value matches a selected missing value). */
  predicate Selected(columns: seq<string>, selection: seq<Cell>, row: Row) {
    FieldOrMissing(columns, row, AirlineColumn) in selection
  }

  /** The flights the page analyses: the whole table when `"Todas"` is selected,
    otherwise the rows whose airline is selected, in their order. Without an
    airline column the membership test raises. */
  function SelectFlights(t: Table, selection: seq<Cell>): (r: Result<Table>)
    ensures AllAirlines in selection ==> r == Ok(t)
    ensures r.Err? <==> AllAirlines !in selection && AirlineColumn !in t.columns
    ensures r.Ok? ==> r.value.columns == t.columns && |r.value.rows| <= |t.rows|
    ensures r.Ok? && AllAirlines !in selection ==>
              forall row :: row in r.value.rows ==> row in t.rows && Selected(t.columns, selection, row)
  {
    if AllAirlines in selection then Ok(t)
    else if AirlineColumn !in t.columns then Err(KeyError(AirlineColumn))
    else Ok(Table(t.columns, Seqs.Filter(t.rows, row => Selected(t.columns, selection, row))))
  }

  /** Without `"Todas"`, each selected row is kept as often as it occurs, every
    other row is dropped, and rows keep their relative order. */
  lemma SelectionExact(t: Table, selection: seq<Cell>, a: seq<Row>, b: seq<Row>)
    requires AllAirlines !in selection && AirlineColumn in t.columns
    ensures forall row :: multiset(SelectFlights(t, selection).value.rows)[row] ==
              if Selected(t.columns, selection, row) then multiset(t.rows)[row] else 0
    ensures t.rows == a + b ==>
              SelectFlights(t, selection).value.rows ==
              SelectFlights(Table(t.columns, a), selection).value.rows + SelectFlights(Table(t.columns, b), selection).value.rows
  {
    Seqs.FilterMultiset(t.rows, row => Selected(t.columns, selection, row));
    if t.rows == a + b {
      Seqs.FilterAppend(a, b, row => Selected(t.columns, selection, row));
    }
  }

  /** `Series.sum()` and `Series.mean()` of the passenger column, kept exact as
    the sum of the present values and how many there are. */
  datatype Passengers = Passengers(total: real, reported: nat) {
    /** The mean over the present values only; undefined (NaN) when there are none. */
    function Mean(): (m: Option<real>)
      ensures m.None? <==> reported == 0
      ensures m.Some? ==> m.value * reported as real == total
    {
      if reported == 0 then None else Some(total / reported as real)
    }
  }

  /** The numbers of a column, missing values skipped. */
  function Numbers(cells: seq<Cell>): (xs: seq<real>)
    ensures |xs| <= |cells|
  {
    if |cells| == 0 then []
    else
      var last := cells[|cells| - 1];
      Numbers(cells[..|cells| - 1]) + (if last.Num? then [last.number] else [])
  }

  /** Sum and count of the present passenger values; a text value makes the
    arithmetic raise. */
  function PassengerTotals(cells: seq<Cell>): (r: Result<Passengers>)
    ensures r.Ok? <==> forall i :: 0 <= i < |cells| ==> !cells[i].Str?
    ensures r.Ok? ==> r.value.total == Seqs.Sum(Numbers(cells))
    ensures r.Ok? ==> r.value.reported == |Numbers(cells)| <= |cells|
  {
    if |cells| == 0 then Ok(Passengers(0.0, 0))
    else
      var init := cells[..|cells| - 1];
      var last := cells[|cells| - 1];
      match PassengerTotals(init)
      case Err(e) => Err(e)
      case Ok(p) =>
        match last
        case Str(_) => Err("TypeError: unsupported operand type(s) for +")
        case Missing =>
          assert Numbers(cells) == Numbers(init) + [];
          assert Numbers(init) + [] == Numbers(init);
          Ok(p)
        case Num(x) =>
          assert Numbers(cells) == Numbers(init) + [x];
          Seqs.SumAppend(Numbers(init), [x]);
          assert Seqs.Sum([x]) == x by {
            assert [x][..0] == [];
          }
          Ok(Passengers(p.total + x, p.reported + 1))
  }

  /** The mean divides the sum of the present values by how many there are, not
    by the number of rows: a flight of 10 passengers and one with no figure give
    10, not 5. A column with no present value has no mean. */
  lemma MeanSkipsMissing(cells: seq<Cell>)
    requires PassengerTotals(cells).Ok?
    ensures |Numbers(cells)| > 0 ==>
              PassengerTotals(cells).value.Mean() == Some(Seqs.Sum(Numbers(cells)) / |Numbers(cells)| as real)
    ensures |Numbers(cells)| == 0 ==> PassengerTotals(cells).value.Mean() == None
    ensures PassengerTotals([Num(10.0), Missing]) == Ok(Passengers(10.0, 1))
    ensures PassengerTotals([Num(10.0), Missing]).value.Mean() == Some(10.0)
    ensures PassengerTotals([Missing]).value.Mean() == None
  {
    assert [Num(10.0), Missing][..1] == [Num(10.0)];
    assert [Num(10.0)][..0] == [];
  }

  /** The KPI figures: the flight count, and the passenger sum and mean. */
  datatype Kpis = Kpis(flights: nat, passengers: Passengers)

  /** What the page shows: either only the option list and the date-column
    error, or the full report. */
  datatype Page =
    | DateColumnMissing(options: seq<Cell>)
    | Report(options: seq<Cell>, flights: Table, kpis: Kpis, perMonth: seq<Months.Group>, routes: seq<Routes.Line>)

  /** Every selected option is a text, so `', '.join(selection)` can build the
    chart titles. */
  predicate Joinable(selection: seq<Cell>) {
    forall i :: 0 <= i < |selection| ==> selection[i].Str?
  }

  /** What `', '.join` raises for an option that is not a text (a missing airline). */
  const JoinError: string := "TypeError: sequence item: expected str instance"

  /** The whole page, in the order its statements run; `Err` is the exception
    that escapes it. */
  function Analyze(datos: Loader.Datos, selection: seq<Cell>, parse: Months.DateParser): (r: Result<Page>)
    ensures r.Ok? ==> |r.value.options| >= 1 && r.value.options[0] == AllAirlines
    ensures (r.Ok? && r.value.DateColumnMissing?) <==>
              && Loader.Lookup(datos, Year).Some?
              && AirlineColumn in Loader.Lookup(datos, Year).value.columns
              && DateColumn !in Loader.Lookup(datos, Year).value.columns
    ensures r.Ok? ==>
              && Loader.Lookup(datos, Year).Some?
              && Column(Loader.Lookup(datos, Year).value, AirlineColumn).Some?
              && r.value.options == AirlineOptions(Column(Loader.Lookup(datos, Year).value, AirlineColumn).value)
    ensures Loader.Lookup(datos, Year).None? ==> r == Err(KeyError(Year))
    ensures Loader.Lookup(datos, Year).Some? && AirlineColumn !in Loader.Lookup(datos, Year).value.columns ==>
              r == Err(KeyError(AirlineColumn))
    ensures r.Ok? && r.value.Report? ==>
              && Loader.Lookup(datos, Year).Some?
              && SelectFlights(Loader.Lookup(datos, Year).value, selection) == Ok(r.value.flights)
              && r.value.kpis.flights == |r.value.flights.rows|
              && Column(r.value.flights, PassengerColumn).Some?
              && PassengerTotals(Column(r.value.flights, PassengerColumn).value) == Ok(r.value.kpis.passengers)
              && Column(r.value.flights, DateColumn).Some?
              && Months.MonthKeys(Column(r.value.flights, DateColumn).value, parse).Ok?
              && r.value.perMonth == Months.GroupCounts(Months.MonthKeys(Column(r.value.flights, DateColumn).value, parse).value)
              && Months.TotalFlights(r.value.perMonth) == r.value.kpis.flights
              && Joinable(selection)
              && Loader.Lookup(datos, AirportsKey).Some?
              && r.value.routes == Routes.Lines(r.value.flights, Loader.Lookup(datos, AirportsKey).value)
    ensures Loader.Lookup(datos, Year).Some? && AirlineColumn in Loader.Lookup(datos, Year).value.columns
            && DateColumn in Loader.Lookup(datos, Year).value.columns ==>
              var flights := SelectFlights(Loader.Lookup(datos, Year).value, selection).value;
              var airports := Loader.Lookup(datos, AirportsKey);
              (r.Err? <==>
                 || PassengerColumn !in flights.columns
                 || PassengerTotals(Column(flights, PassengerColumn).value).Err?
                 || Months.MonthKeys(Column(flights, DateColumn).value, parse).Err?
                 || !Joinable(selection)
                 || airports.None?
                 || Routes.RouteLines(flights, airports.value).Err?)
    ensures Loader.Lookup(datos, Year).Some? && AirlineColumn in Loader.Lookup(datos, Year).value.columns
            && DateColumn in Loader.Lookup(datos, Year).value.columns ==>
              var flights := SelectFlights(Loader.Lookup(datos, Year).value, selection).value;
              var airports := Loader.Lookup(datos, AirportsKey);
              if PassengerColumn !in flights.columns then r == Err(KeyError(PassengerColumn))
              else if PassengerTotals(Column(flights, PassengerColumn).value).Err? then
                r == Err(PassengerTotals(Column(flights, PassengerColumn).value).error)
              else if Months.MonthKeys(Column(flights, DateColumn).value, parse).Err? then
                r == Err(Months.MonthKeys(Column(flights, DateColumn).value, parse).error)
              else if !Joinable(selection) then r == Err(JoinError)
              else if airports.None? then r == Err(KeyError(AirportsKey))
              else Routes.RouteLines(flights, airports.value).Err? ==>
                r == Err(Routes.RouteLines(flights, airports.value).error)
  {
    var year :- (match Loader.Lookup(datos, Year) case Some(t) => Ok(t) case None => Err(KeyError(Year)));
    var airlines :- (match Column(year, AirlineColumn) case Some(c) => Ok(c) case None => Err(KeyError(AirlineColumn)));
    var options := AirlineOptions(airlines);
    // The airline column exists, so the selection cannot raise.
    var flights := SelectFlights(year, selection).value;
    if DateColumn !in flights.columns then Ok(DateColumnMissing(options))
    else
      var passengerCells :- (match Column(flights, PassengerColumn) case Some(c) => Ok(c) case None => Err(KeyError(PassengerColumn)));
      var passengers :- PassengerTotals(passengerCells);
      var keys :- Months.MonthKeys(Column(flights, DateColumn).value, parse);
      var perMonth := Months.GroupCounts(keys);
      // The chart title joins the selected options.
      var _ :- (if Joinable(selection) then Ok(()) else Err(JoinError));
      var airports :- (match Loader.Lookup(datos, AirportsKey) case Some(t) => Ok(t) case None => Err(KeyError(AirportsKey)));
      var routes :- Routes.RouteLines(flights, airports);
      Ok(Report(options, flights, Kpis(|flights.rows|, passengers), perMonth, routes))
  }

  /** When the 2024 file cannot be read, the page does not render with zero
    counts: the empty table has no airline column and the page raises. */
  lemma FailedYearRaises(read: Loader.Reader, selection: seq<Cell>, parse: Months.DateParser)
    requires read(Loader.PathOf(Loader.Sources[6])).Err?
    ensures Analyze(Loader.LoadAnalysis(read).datos, selection, parse) == Err(KeyError(AirlineColumn))
  {
    Loader.LoadedLookup(read, Loader.NormalizeHeaders, 6);
  }

  /** With `"Todas"` selected and the columns in place, the report covers the
    whole 2024 table. */
  lemma AllSelectsWholeYear(datos: Loader.Datos, selection: seq<Cell>, parse: Months.DateParser)
    requires AllAirlines in selection
    ensures var r := Analyze(datos, selection, parse);
            r.Ok? && r.value.Report? ==> r.value.flights == Loader.Lookup(datos, Year).value
  {
  }
}
