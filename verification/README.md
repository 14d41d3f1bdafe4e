# Flight dashboard data preparation, modelled in Dafny

The dashboard (`app.py`, `verificacion.py`) shows Argentine flight-movement
reports (one CSV per year) and an airport reference table through Streamlit.
Underneath the UI calls there is a thin layer of data preparation. This
project models that layer as pure functions over immutable tables and proves
what it guarantees:

- `cargar_datos` loads every source on its own. A file that cannot be read
  leaves an empty table for its key and an error message. On the analysis
  page every header is also stripped, and its spaces become underscores.
- The introduction page counts the rows of every table and adds the counts
  up. The consolidated page concatenates all tables (`pd.concat`).
- The airport map places one marker per airport that has both coordinates.
  Its popup falls back to `-` or `Metros` for missing fields.
- The airline page (`analizar_por_aerolinea`) does the following:
  - It offers the distinct airlines after the sentinel `Todas`.
  - It filters the 2024 table by the selection.
  - It stops early when there is no `Fecha_UTC` column.
  - It computes the flight count and the passenger sum and mean, skipping missing values.
  - It counts flights per `"YYYY-MM"` month label.
  - It draws a route line for every flight whose two airport codes are found in the airport table.

A table is a header (`seq<string>`) plus rows of cells. A cell is `Missing`
(pandas NaN), `Str` or `Num` (an exact `real`). A column lookup
(`row[name]`) finds the first column with that label. An exception that the
Python code does not catch becomes `Err` of a `Result`. Examples are a
`KeyError` for an absent column, a failed date parse, or arithmetic on text.

Modules, one per concern: `Results`, `Seqs` (generic sequence helpers), `Text`
(Python `strip`, the header rewrite, and Python string order), `Frames`
(cells, tables, column lookup), `Loader`, `Consolidation`, `Months`, `Routes`,
`Markers` and `Airline`.

The model follows the code wherever the intended design of the dashboard
differs from it:

- A source that fails to load does not always leave a working page. If the
  2024 file fails, the airline page raises `KeyError: 'Aerolinea_Nombre'`
  (`Airline.FailedYearRaises`).
- The consolidated table is in source order. It is not sorted by date.
- Headers are only stripped and space-rewritten. There is no per-year mapping
  of column names.
- There is no top-routes ranking, no movement-type filter, no data-quality
  counter and no year/date consistency flag.
- The mean divides by the number of present passenger values, which is what
  pandas `mean()` does.

## Model

| member | source | states |
|---|---|---|
| `Loader.LoadSources` | app.py:14-33 | one entry per source, in source order, under the source's own key. A failed read stores the empty table. A successful read stores its table, with normalized headers under the analysis page's policy. Every failed source has its `Error al cargar <file>: <cause>` message, and every message comes from a failed source. |
| `Loader.LoadIsolation` | app.py:26-32 | a source's entry depends only on its own file. Two loads that read that file the same way store the same entry, whatever the other files do. |
| `Loader.SourceKeys` | app.py:15-23 | the keys are `aeropuertos`, then `2019` … `2024`, each once |
| `Loader.LoadedLookup` | verificacion.py:21-32 | whatever fails, the loaded dictionary has seven entries. Looking up any source's key gives that source's stored table, so an empty table on failure and the read table otherwise. |
| `Loader.NormalizeColumns` | verificacion.py:26-27 | the header keeps its length and each label is normalized in place. The rows are untouched, and a rectangular table stays rectangular. |
| `Text.Strip` | verificacion.py:26 | the result is the slice of the input that starts right after its leading whitespace (Python `isspace`). Everything after the slice is whitespace, and the result neither starts nor ends with whitespace. |
| `Text.NormalizeHeader` | verificacion.py:26-27 | a normalized label has the stripped label's length. Each of its characters is `_` where the stripped label has a space, and the stripped label's own character everywhere else. So it contains no space and neither starts nor ends with whitespace. |
| `Text.NormalizeHeaderIdempotent` | verificacion.py:26-27 | normalizing a label twice gives the same label as normalizing it once |
| `Text.NormalizeOriginHeader` | verificacion.py:83 | `"Origen / Destino"` becomes `"Origen_/_Destino"`, the label the route code reads |
| `Text.NormalizeDateHeader` | verificacion.py:50 | `" Fecha UTC\t"` becomes `"Fecha_UTC"`, the label the date check looks for |
| `Consolidation.Summarize` | app.py:110-115 | there is one box per dataset, in dictionary order, holding the key and that table's row count. The total is the sum of the counts, which is also the number of rows of the consolidated table. |
| `Consolidation.Concat` | app.py:189 | the consolidated header has every label of every table exactly once, in order of first appearance across the tables. Its rows are rectangular, and their number is the sum of the tables' row counts. |
| `Consolidation.ConcatCells` | app.py:189 | row `j` of table `i` sits at that table's offset plus `j`. Under every label it holds its own table's cell, or a missing value where its table lacks that label. |
| `Consolidation.ConcatPreservesRows` | app.py:189 | no row is dropped or duplicated: each table's block of rows fits inside the consolidated table, and the blocks of two tables never overlap |
| `Airline.AirlineOptions` | verificacion.py:39-40 | the option list starts with `Todas`. Each distinct airline value follows once, in order of first appearance, and no other value. |
| `Airline.SelectFlights` | verificacion.py:44-47 | with `Todas` selected, the result is the whole table. Otherwise it is the rows whose airline is selected, under the same header. It raises exactly when `Todas` is not selected and the airline column is absent. |
| `Airline.SelectionExact` | verificacion.py:47 | without `Todas`, each selected row is kept as often as it occurs and every other row is dropped. Selection distributes over concatenation, so the order is preserved. |
| `Airline.PassengerTotals` | verificacion.py:57-58 | the total is the sum of the present numeric passenger values and the count is how many there are. Missing values are skipped, and the computation raises exactly when a text value is present. |
| `Airline.Passengers.Mean` | verificacion.py:58 | there is a mean exactly when some value is present, and the mean times the number of present values is their total |
| `Airline.MeanSkipsMissing` | verificacion.py:57-58 | for every passenger column that does not raise, the mean is the sum of the present values divided by how many there are, and there is none when no value is present. `[10, NaN]` gives 10, not 5. |
| `Airline.Analyze` | verificacion.py:35-89 | the option list is `AirlineOptions` of the 2024 airline column, so it starts with `Todas`. The page stops before any KPI exactly when the 2024 table has an airline column but no `Fecha_UTC`. It raises `KeyError` for a missing 2024 table or airline column. In a report, the flights are the selection of the 2024 table, and the flight count is their number. The passenger figures are `PassengerTotals` of their `Pasajeros` column. The month groups are the groups of their month labels, and the routes are their route lines against the airport table. Past the date check, the page raises exactly when one of these raises: `Pasajeros` is absent or holds text, a date cannot be parsed, a selected option is not a text (the title's `', '.join`), the airport table is absent, or the route loop raises. The escaping error is the first of these in that order: `KeyError: 'Pasajeros'`, the passenger or date error, the join `TypeError`, `KeyError: 'aeropuertos'`, or the route loop's own error. |
| `Airline.FailedYearRaises` | verificacion.py:29-39 | when the 2024 file cannot be read, the page raises `KeyError: 'Aerolinea_Nombre'` instead of rendering |
| `Airline.AllSelectsWholeYear` | verificacion.py:44-45 | with `Todas` selected, a report covers the whole 2024 table |
| `Months.MonthKeys` | verificacion.py:67-68 | the column gets one label per row: `"NaT"` for a missing date and the month label of the parsed date otherwise. It raises exactly when some cell cannot be parsed. |
| `Months.DigitsOrder` | verificacion.py:68 | zero-padded numbers of the same width compare as strings exactly as they compare as numbers |
| `Months.MonthKeyOrder` | verificacion.py:68-69 | sorting the `"YYYY-MM"` labels as strings sorts the months by year, then by month |
| `Months.MonthKeySameMonth` | verificacion.py:68 | two dates share a label exactly when they are in the same month of the same year |
| `Months.NaTLast` | verificacion.py:68-69 | the `"NaT"` label is no month's label and sorts after all of them |
| `Months.Bump` | verificacion.py:69 | counting one more row under a label keeps the groups sorted. It adds one to that label's size and leaves every other label's size alone. |
| `Months.GroupCounts` | verificacion.py:69 | the groups are sorted by label and none is empty. Each label's size is the number of rows carrying it, and the sizes add up to the number of rows. |
| `Months.GroupsAreExact` | verificacion.py:69 | every row's label has a group, each group's size is the number of rows with its label, and no label has two groups |
| `Routes.FirstMatch` | verificacion.py:83-86 | there is a result exactly when some airport record's code equals the code (a missing code matches nothing). The result is the first such record. |
| `Routes.ResolvesIff` | verificacion.py:83-85 | a flight row gets a line exactly when both its `Origen_/_Destino` and its `Aeropuerto` codes equal some record's `Aeropuerto` |
| `Routes.LineEnds` | verificacion.py:83-87 | given the least record index whose code equals the row's origin and the least whose code equals its airport, the line runs between those two records' (latitud, longitud) points |
| `Routes.Lines` | verificacion.py:82-88 | there is one line per resolving row, so never more lines than rows |
| `Routes.LinesExactlyFromResolvedRows` | verificacion.py:82-88 | every resolving row contributes its line, and every line comes from a resolving row |
| `Routes.RouteLines` | verificacion.py:82-88 | no rows means no lines and no error. Otherwise it raises `KeyError` for an absent column, in the order the loop reads them: the airport table's `Aeropuerto`, then the row's `Origen_/_Destino`, then its `Aeropuerto`. It raises for `latitud`, then `longitud`, only when some row resolves. With all five columns present it raises exactly when some line has a missing coordinate, and then it raises folium's `ValueError`. It raises exactly in these cases, and on success the result is the lines of the resolving rows. |
| `Markers.Clean` | app.py:53-54 | a missing value becomes the empty text and a present value is returned unchanged, so the result is never missing |
| `Markers.CleanIdempotent` | app.py:53-54 | cleaning twice equals cleaning once |
| `Markers.PopupFallbacks` | app.py:234-241 | a missing `oaci`, `tipo`, `provincia` or `uso` shows `-`, and a missing `uom_elev` shows `Metros`. Present values show unchanged, and no fallback field is ever missing. |
| `Markers.MarkerFor` | app.py:233-247 | a record yields a marker exactly when both coordinates are present, and that marker is the record's marker. It raises exactly when a column it reads is absent: `KeyError('longitud')` first, `latitud` only when the longitude is present, and the first absent popup column only when both coordinates are. |
| `Markers.MarkersOf` | app.py:232-247 | no records means no markers and no error. The loop succeeds exactly when every record's turn succeeds, so with every column present it never raises. On success the result is the markers of the placeable records, in order. |
| `Markers.MarkersOfFailsAtFirst` | app.py:232-247 | a failing loop raises the error of the first record whose turn raises |
| `Markers.MarkersExactlyForPlaceable` | app.py:232-243 | a record gets a marker exactly when both its coordinates are present. There are never more markers than airports, and every marker's position has both coordinates. |
| `Markers.AsWrittenMarkerSwapped` | app.py:243 | the marker the code draws stands at latitude `longitud` and longitude `latitud` of its own record |
| `Markers.AsWrittenAgreesOnlyOnDiagonal` | app.py:243 | the drawn marker equals the corrected one exactly when the record's latitude equals its longitude, and the two always share popup and tooltip |
| `Markers.PlacementOnlyMovesMarkers` | app.py:232-247 | the loop raises as written exactly when it raises with latitude first. Otherwise it yields the same number of markers, with the same popups and tooltips and each location's coordinates swapped. |
| `Markers.AsWrittenMisplacesEzeiza` | app.py:243 | the loop as written draws an airport table holding only Ezeiza (-34.8222, -58.5358) at latitude -58.5358. With latitude first, the marker stands at (-34.8222, -58.5358). |
| `Markers.MarkerAgreesWithRoutes` | app.py:243 | with latitude first, an airport's marker stands exactly where the route lines put that record |
| `Markers.FailedAirportsGiveNoMarkers` | app.py:223-232 | when the airport file cannot be read, its stored table is empty and the map shows no marker and raises nothing |

## Findings

| source | as written | input that shows it | evidently intended | confidence | as-written member | corrected member |
|---|---|---|---|---|---|---|
| app.py:243 | the marker location lists the longitude first, then the latitude. folium reads the first element as the latitude. | an airport with `latitud` -34.8222 and `longitud` -58.5358 (Ezeiza) is drawn at latitude -58.5358, in the South Atlantic | latitude first, as the map centre at app.py:227 and the route lines at verificacion.py:86-87 give it | not executed; high | `Markers.AsWrittenMisplacesEzeiza` | `Markers.MarkerAgreesWithRoutes` |

The marker loop (`Markers.MarkersOf`) takes the coordinate order as a parameter (`Markers.Placement`). `AsWritten` is what `app.py` draws, and `LatitudeFirst` is the corrected order. `Markers.PlacementOnlyMovesMarkers` shows that the two differ only in where the markers stand.

## Left out

- Streamlit rendering is not modelled: `st.*` calls, session state, the option menu, CSS and HTML strings, and the `i % 3` column layout. They only display values.
- The login (`verificar_credenciales`) is not modelled. It is a fixed string comparison that only gates the UI.
- The clock thread and the loading animation are not modelled. They use wall-clock time and have no data dependency.
- `pd.read_csv` is a parameter (`Loader.Reader`). It maps a path to a table with distinct labels, or to the exception text.
- `pd.to_datetime(..., dayfirst=True)` is a parameter (`Months.DateParser`). It maps a non-missing cell to a date, to not-a-time, or to a failure. Its format inference across the rows of a column is library behaviour, so it is not modelled.
- `round(promedio, 2)` is not modelled. The mean is kept exact as a sum and a count (`Airline.Passengers`).
- The folium and plotly objects are not modelled: maps, `MarkerCluster`, `PolyLine`, the line and bar charts. Only the markers and lines the code would emit are.
- The row index labels that `pd.concat` keeps are not modelled. Neither is the dtype widening from int to float when missing values are introduced. Cells keep their values.
- Duplicate column labels are not modelled. `read_csv` never produces them, but the header rewrite can. pandas would then return a sub-frame for `df[name]`, while the model reads the first column with that label.
- `Airline.PassengerTotals`: a text value in the passenger column always raises in the model. pandas raises for mixed text and numbers, but concatenates a column made only of text before `mean()` fails.
- `Airline.Analyze`: the report's `flights` is the selected table before lines 67-68 convert `Fecha_UTC` and add the `Mes` column in place. The detailed flight table at line 93 shows it after them.
- `Airline.Analyze`: the error texts for a failed date parse, for text passengers and for the title join are generic. The exact messages that pandas and Python produce are not modelled.
- `Routes.RouteLines`: a coordinate that is a text is treated as drawable. folium converts coordinates with `float`, which raises only for non-numeric text, and the model does not parse numbers out of text. The same holds for the marker coordinates in `Markers.MarkersOf`.
- `Consolidation.Concat`: with no tables at all it returns the empty table, where `pd.concat([])` raises `ValueError`. app.py:189 always passes the seven loaded tables, so the case does not arise there.
