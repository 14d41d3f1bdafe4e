/** The flights-per-month series: each date becomes its `"YYYY-MM"` period
  label (`to_period('M').astype(str)`), a missing date the label `"NaT"`, and
  `groupby('Mes').size()` counts the rows of each label, labels sorted. */
module Months {
  import opened Results
  import opened Frames
  import Text

  datatype Date = Date(year: int, month: int, day: int)

  /** The dates a parsed timestamp can carry (pandas timestamps stay within
    four-digit years). */
  predicate ValidDate(d: Date) {
    0 <= d.year <= 9999 && 1 <= d.month <= 12 && 1 <= d.day <= 31
  }

  type CalendarDate = d: Date | ValidDate(d) witness Date(2024, 1, 1)

  /** A parsed `Fecha_UTC` value: not-a-time, or a date. */
  datatype Moment = NaT | At(date: CalendarDate)

  /** `pd.to_datetime(cell, dayfirst=True)` for one non-missing cell: `None` when
    the parse raises. Its format inference is library behaviour outside the
    model, so it is a parameter. */
  type DateParser = Cell -> Option<Moment>

  /** A missing cell is not-a-time; anything else goes through the parser. */
  function MomentOf(parse: DateParser, c: Cell): Option<Moment> {
    if c == Missing then Some(NaT) else parse(c)
  }

  function Pow10(n: nat): (p: nat)
    ensures p >= 1
  {
    if n == 0 then 1 else 10 * Pow10(n - 1)
  }

  function DigitChar(d: nat): (c: char)
    requires d < 10
    ensures '0' <= c <= '9'
  {
    ('0' as int + d) as char
  }

  lemma DigitCharOrder(a: nat, b: nat)
    requires a < 10 && b < 10
    ensures DigitChar(a) < DigitChar(b) <==> a < b
    ensures DigitChar(a) == DigitChar(b) <==> a == b
  {
  }

  /** `x` written with exactly `width` decimal digits, zero-padded on the left. */
  function Digits(x: nat, width: nat): (s: string)
    requires x < Pow10(width)
    ensures |s| == width
    ensures forall i :: 0 <= i < width ==> '0' <= s[i] <= '9'
    decreases width
  {
    if width == 0 then []
    else Digits(x / 10, width - 1) + [DigitChar(x % 10)]
  }

  /** On numbers of the same width, string order of the padded digits is number order. */
  lemma {:induction false} DigitsOrder(x: nat, y: nat, width: nat)
    requires x < Pow10(width) && y < Pow10(width)
    ensures Text.Below(Digits(x, width), Digits(y, width)) <==> x < y
    decreases width
  {
    if width > 0 {
      var hx, hy := Digits(x / 10, width - 1), Digits(y / 10, width - 1);
      DigitsOrder(x / 10, y / 10, width - 1);
      DigitsOrder(y / 10, x / 10, width - 1);
      DigitCharOrder(x % 10, y % 10);
      Text.BelowConcat(hx, hy, [], [DigitChar(x % 10)], [DigitChar(y % 10)]);
      assert hx + [] + [DigitChar(x % 10)] == Digits(x, width);
      assert hy + [] + [DigitChar(y % 10)] == Digits(y, width);
      Text.BelowCons([DigitChar(x % 10)], [DigitChar(y % 10)]);
      if hx == hy && x / 10 != y / 10 {
        Text.BelowIrreflexive(hx);
      }
    }
  }

  /** The `"YYYY-MM"` label of the month of a date. */
  function MonthKey(d: CalendarDate): (k: string)
    ensures |k| == 7 && k[4] == '-'
    ensures '0' <= k[0] <= '9'
  {
    Digits(d.year, 4) + "-" + Digits(d.month, 2)
  }

  /** The label of a moment; not-a-time is shown as `"NaT"`. */
  function KeyOf(m: Moment): string {
    match m
    case NaT => "NaT"
    case At(d) => MonthKey(d)
  }

  /** Sorting the labels as strings sorts the months chronologically. */
  lemma MonthKeyOrder(a: CalendarDate, b: CalendarDate)
    ensures Text.Below(MonthKey(a), MonthKey(b)) <==>
            a.year < b.year || (a.year == b.year && a.month < b.month)
  {
    var ya, yb := Digits(a.year, 4), Digits(b.year, 4);
    Text.BelowConcat(ya, yb, "-", Digits(a.month, 2), Digits(b.month, 2));
    DigitsOrder(a.year, b.year, 4);
    DigitsOrder(b.year, a.year, 4);
    DigitsOrder(a.month, b.month, 2);
    Text.BelowTotal(ya, yb);
    if ya == yb && a.year != b.year {
      Text.BelowIrreflexive(ya);
    }
  }

  /** Two dates share a label exactly when they fall in the same month of the same year. */
  lemma MonthKeySameMonth(a: CalendarDate, b: CalendarDate)
    ensures MonthKey(a) == MonthKey(b) <==> a.year == b.year && a.month == b.month
  {
    MonthKeyOrder(a, b);
    MonthKeyOrder(b, a);
    Text.BelowIrreflexive(MonthKey(a));
  }

  /** The not-a-time label sorts after every month and is never a month's label. */
  lemma NaTLast(d: CalendarDate)
    ensures Text.Below(MonthKey(d), "NaT")
    ensures MonthKey(d) != "NaT"
  {
    assert "NaT"[0] == 'N';
  }

  /** One entry of `groupby('Mes').size()`. */
  datatype Group = Group(key: string, flights: nat)

  /** Labels strictly increasing, hence all different. */
  predicate SortedKeys(gs: seq<Group>) {
    forall i, j :: 0 <= i < j < |gs| ==> Text.Below(gs[i].key, gs[j].key)
  }

  /** Every group counts at least one row. */
  predicate Inhabited(gs: seq<Group>) {
    forall i :: 0 <= i < |gs| ==> gs[i].flights > 0
  }

  /** `x` sorts before every label of `gs`. */
  predicate LowerBound(x: string, gs: seq<Group>) {
    forall i :: 0 <= i < |gs| ==> Text.Below(x, gs[i].key)
  }

  /** The size of the group labelled `k`, zero when there is none. */
  function SizeOf(gs: seq<Group>, k: string): nat {
    if |gs| == 0 then 0
    else if gs[0].key == k then gs[0].flights
    else SizeOf(gs[1..], k)
  }

  function TotalFlights(gs: seq<Group>): nat {
    if |gs| == 0 then 0 else gs[0].flights + TotalFlights(gs[1..])
  }

  /** Count one more row under label `k`, keeping the labels sorted. */
  function Bump(gs: seq<Group>, k: string): (r: seq<Group>)
    requires SortedKeys(gs)
    ensures SortedKeys(r)
    ensures Inhabited(gs) ==> Inhabited(r)
    ensures forall x :: SizeOf(r, x) == SizeOf(gs, x) + (if x == k then 1 else 0)
    ensures TotalFlights(r) == TotalFlights(gs) + 1
    ensures forall x :: LowerBound(x, gs) && Text.Below(x, k) ==> LowerBound(x, r)
  {
    if |gs| == 0 then [Group(k, 1)]
    else if gs[0].key == k then
      var r := [Group(k, gs[0].flights + 1)] + gs[1..];
      assert r[1..] == gs[1..];
      r
    else if Text.Below(k, gs[0].key) then
      var r := [Group(k, 1)] + gs;
      assert r[1..] == gs;
      forall j | 0 <= j < |gs| ensures Text.Below(k, gs[j].key) {
        if j > 0 {
          Text.BelowTransitive(k, gs[0].key, gs[j].key);
        }
      }
      AbsentSize(gs, k);
      r
    else
      Text.BelowTotal(k, gs[0].key);
      var rest := Bump(gs[1..], k);
      var r := [gs[0]] + rest;
      assert r[1..] == rest;
      assert LowerBound(gs[0].key, gs[1..]);
      r
  }

  lemma {:induction false} AbsentSize(gs: seq<Group>, k: string)
    requires LowerBound(k, gs)
    ensures SizeOf(gs, k) == 0
  {
    if |gs| > 0 {
      Text.BelowIrreflexive(k);
      AbsentSize(gs[1..], k);
    }
  }

  /** `groupby(keys).size()`: one group per distinct label, labels sorted,
    each group's size the number of rows with its label, sizes adding up to
    the number of rows. */
  function GroupCounts(keys: seq<string>): (gs: seq<Group>)
    ensures SortedKeys(gs)
    ensures Inhabited(gs)
    ensures forall x :: SizeOf(gs, x) == multiset(keys)[x]
    ensures TotalFlights(gs) == |keys|
  {
    if |keys| == 0 then []
    else
      var init := keys[..|keys| - 1];
      assert keys == init + [keys[|keys| - 1]];
      Bump(GroupCounts(init), keys[|keys| - 1])
  }

  /** In sorted groups, the size listed for a label is the size of that label. */
  lemma {:induction false} SizeOfListed(gs: seq<Group>, i: nat)
    requires SortedKeys(gs) && i < |gs|
    ensures SizeOf(gs, gs[i].key) == gs[i].flights
  {
    if i > 0 {
      Text.BelowIrreflexive(gs[0].key);
      assert gs[0].key != gs[i].key;
      SizeOfListed(gs[1..], i - 1);
    }
  }

  /** Some group carries label `k`. */
  predicate Listed(gs: seq<Group>, k: string) {
    exists i :: 0 <= i < |gs| && gs[i].key == k
  }

  lemma {:induction false} ListedWhenSized(gs: seq<Group>, k: string)
    requires SizeOf(gs, k) > 0
    ensures Listed(gs, k)
  {
    if gs[0].key != k {
      ListedWhenSized(gs[1..], k);
      var i :| 0 <= i < |gs[1..]| && gs[1..][i].key == k;
      assert gs[i + 1].key == k;
    }
  }

  /** Each row falls into exactly one group: every label of the rows has a
    group, every group's size is the number of rows carrying its label (so it
    came from some row), and no label has two groups. */
  lemma GroupsAreExact(keys: seq<string>)
    ensures forall k :: k in keys ==> Listed(GroupCounts(keys), k)
    ensures forall i :: 0 <= i < |GroupCounts(keys)| ==>
              GroupCounts(keys)[i].flights == multiset(keys)[GroupCounts(keys)[i].key] > 0
    ensures forall i, j :: 0 <= i < j < |GroupCounts(keys)| ==> GroupCounts(keys)[i].key != GroupCounts(keys)[j].key
  {
    var gs := GroupCounts(keys);
    forall k | k in keys ensures Listed(gs, k) {
      assert multiset(keys)[k] > 0;
      ListedWhenSized(gs, k);
    }
    forall i | 0 <= i < |gs| ensures gs[i].flights == multiset(keys)[gs[i].key] {
      SizeOfListed(gs, i);
    }
    forall i, j | 0 <= i < j < |gs| ensures gs[i].key != gs[j].key {
      Text.BelowIrreflexive(gs[i].key);
    }
  }

  /** The labels of a column of dates, one per row; fails as soon as one cell
    cannot be parsed, as `pd.to_datetime` on the whole column raises. */
  function MonthKeys(cells: seq<Cell>, parse: DateParser): (r: Result<seq<string>>)
    ensures r.Ok? <==> forall i :: 0 <= i < |cells| ==> MomentOf(parse, cells[i]).Some?
    ensures r.Ok? ==> |r.value| == |cells|
    ensures r.Ok? ==> forall i :: 0 <= i < |cells| ==> r.value[i] == KeyOf(MomentOf(parse, cells[i]).value)
  {
    if |cells| == 0 then Ok([])
    else
      var init := cells[..|cells| - 1];
      match MonthKeys(init, parse)
      case Err(e) => Err(e)
      case Ok(keys) =>
        match MomentOf(parse, cells[|cells| - 1])
        case None => Err("ValueError: unparsable Fecha_UTC")
        case Some(m) => Ok(keys + [KeyOf(m)])
  }
}
