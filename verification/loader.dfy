/** `cargar_datos`: read the airport table and the six yearly reports, each on
  its own, so that a file that cannot be read leaves an empty table for its key
  and nothing else. The two pages of the dashboard load the same files; the
  analysis page additionally normalizes every header. */
module Loader {
  import opened Results
  import opened Frames
  import Seqs
  import Text

  /** A logical source name and the file it is read from. */
  datatype Source = Source(key: string, file: string)

  /** The sources in the order the loop visits them. */
  const Sources: seq<Source> := [
    Source("aeropuertos", "aeropuertos_detalle.csv"),
    Source("2019", "2019_informe_ministerio.csv"),
    Source("2020", "2020_informe_ministerio.csv"),
    Source("2021", "202112_informe_ministerio.csv"),
    Source("2022", "202212-informe-ministerio.csv"),
    Source("2023", "202312-informe-ministerio.csv"),
    Source("2024", "202405-informe-ministerio.csv")
  ]

  const BasePath: string := "data/"

  /** `os.path.join('data/', file)`. */
  function PathOf(s: Source): string {
    BasePath + s.file
  }

  /** Reading one file: the table `read_csv(path, delimiter=';')` returns, or the
    text of the exception it raises. File access itself is outside the model. */
  type Reader = string -> Result<Frame>

  /** One key of the `datos` dictionary with its table; the dictionary keeps
    insertion order, so it is a sequence of entries. */
  datatype Entry = Entry(key: string, table: Table)

  type Datos = seq<Entry>

  /** Whether the headers are kept as read or normalized after reading. */
  datatype HeaderPolicy = KeepHeaders | NormalizeHeaders

  /** The loaded tables and the messages shown with `st.error`, in order. */
  datatype Loaded = Loaded(datos: Datos, errors: seq<string>)

  /** `df.columns = [h.strip().replace(' ', '_') for h in df.columns]`: labels
    rewritten one by one, cells untouched. */
  function NormalizeColumns(t: Table): (r: Table)
    ensures |r.columns| == |t.columns|
    ensures forall i :: 0 <= i < |t.columns| ==> r.columns[i] == Text.NormalizeHeader(t.columns[i])
    ensures r.rows == t.rows
    ensures Rectangular(t) ==> Rectangular(r)
  {
    Table(seq(|t.columns|, i requires 0 <= i < |t.columns| => Text.NormalizeHeader(t.columns[i])), t.rows)
  }

  /** The table stored for one source, given what reading it produced. */
  function Stored(read: Result<Frame>, policy: HeaderPolicy): Table {
    match read
    case Err(_) => Empty
    case Ok(t) => if policy == NormalizeHeaders then NormalizeColumns(t) else t
  }

  function ErrorMessage(s: Source, cause: string): string {
    "Error al cargar " + s.file + ": " + cause
  }

  /** The loop over the sources: every source gets exactly one entry, at its own
    position; a failed read stores an empty table and adds one message. */
  function LoadSources(srcs: seq<Source>, read: Reader, policy: HeaderPolicy): (r: Loaded)
    ensures |r.datos| == |srcs|
    ensures forall i :: 0 <= i < |srcs| ==> r.datos[i].key == srcs[i].key
    ensures forall i :: 0 <= i < |srcs| && read(PathOf(srcs[i])).Err? ==> r.datos[i].table == Empty
    ensures forall i :: 0 <= i < |srcs| && read(PathOf(srcs[i])).Ok? ==>
              r.datos[i].table == Stored(read(PathOf(srcs[i])), policy)
    ensures |r.errors| <= |srcs|
    ensures forall i :: 0 <= i < |srcs| && read(PathOf(srcs[i])).Err? ==>
              ErrorMessage(srcs[i], read(PathOf(srcs[i])).error) in r.errors
    ensures forall k :: 0 <= k < |r.errors| ==>
              exists i :: 0 <= i < |srcs| && read(PathOf(srcs[i])).Err? &&
                          r.errors[k] == ErrorMessage(srcs[i], read(PathOf(srcs[i])).error)
  {
    if |srcs| == 0 then Loaded([], [])
    else
      var init := srcs[..|srcs| - 1];
      var s := srcs[|srcs| - 1];
      var before := LoadSources(init, read, policy);
      var outcome := read(PathOf(s));
      var errors := if outcome.Err? then before.errors + [ErrorMessage(s, outcome.error)] else before.errors;
      assert forall k :: 0 <= k < |before.errors| ==> errors[k] == before.errors[k];
      Loaded(before.datos + [Entry(s.key, Stored(outcome, policy))], errors)
  }

  /** A source's entry depends on nothing but its own file: two loads whose reads
    agree on that file store the same table for it, whatever the other files do. */
  lemma LoadIsolation(srcs: seq<Source>, read1: Reader, read2: Reader, policy: HeaderPolicy, i: nat)
    requires i < |srcs|
    requires read1(PathOf(srcs[i])) == read2(PathOf(srcs[i]))
    ensures LoadSources(srcs, read1, policy).datos[i] == LoadSources(srcs, read2, policy).datos[i]
  {
  }

  /** `datos[key]`: the table of the first entry with that key. */
  function Lookup(datos: Datos, key: string): (r: Option<Table>)
    ensures r.Some? <==> exists i :: 0 <= i < |datos| && datos[i].key == key
  {
    if |datos| == 0 then None
    else if datos[0].key == key then Some(datos[0].table)
    else
      var r := Lookup(datos[1..], key);
      assert forall i :: 1 <= i < |datos| ==> datos[i] == datos[1..][i - 1];
      r
  }

  /** Keys of a source list, in order. */
  function Keys(srcs: seq<Source>): seq<string> {
    seq(|srcs|, i requires 0 <= i < |srcs| => srcs[i].key)
  }

  /** With distinct keys, looking up a source's key finds that source's own entry. */
  lemma {:induction false} LookupLoaded(datos: Datos, srcs: seq<Source>, i: nat)
    requires |datos| == |srcs| && i < |srcs|
    requires forall j :: 0 <= j < |srcs| ==> datos[j].key == srcs[j].key
    requires Seqs.Distinct(Keys(srcs))
    ensures Lookup(datos, srcs[i].key) == Some(datos[i].table)
  {
    if i > 0 {
      assert Keys(srcs)[0] != Keys(srcs)[i];
      assert Seqs.Distinct(Keys(srcs[1..])) by {
        assert forall j :: 0 <= j < |srcs| - 1 ==> Keys(srcs[1..])[j] == Keys(srcs)[j + 1];
      }
      LookupLoaded(datos[1..], srcs[1..], i - 1);
    }
  }

  /** The page loaders: `app.py` keeps the headers, the analysis page normalizes them. */
  function LoadApp(read: Reader): Loaded {
    LoadSources(Sources, read, KeepHeaders)
  }

  function LoadAnalysis(read: Reader): Loaded {
    LoadSources(Sources, read, NormalizeHeaders)
  }

  /** The airport key and the six years, in that order, each once. */
  lemma SourceKeys()
    ensures Keys(Sources) == ["aeropuertos", "2019", "2020", "2021", "2022", "2023", "2024"]
    ensures Seqs.Distinct(Keys(Sources))
  {
    var ks := Keys(Sources);
    assert ks == ["aeropuertos", "2019", "2020", "2021", "2022", "2023", "2024"];
    forall i, j | 0 <= i < j < |ks| ensures ks[i] != ks[j] {
      if i == 0 {
        assert |ks[i]| != |ks[j]|;
      } else {
        assert ks[i][2..] != ks[j][2..];
      }
    }
  }

  /** Whatever fails, the dictionary has seven entries and each source's key
    finds that source's own table. */
  lemma LoadedLookup(read: Reader, policy: HeaderPolicy, i: nat)
    requires i < |Sources|
    ensures |LoadSources(Sources, read, policy).datos| == 7
    ensures Lookup(LoadSources(Sources, read, policy).datos, Sources[i].key) ==
            Some(Stored(read(PathOf(Sources[i])), policy))
  {
    SourceKeys();
    LookupLoaded(LoadSources(Sources, read, policy).datos, Sources, i);
  }
}
