/**
 Cells and sheets: how a value becomes cell text, with the guard against formulas, and how a grid of
 cells is read back into a tab of rows.
 */
module SheetCells {
  import opened Text
  import opened ImportRows
  import opened ImportPlan
  import opened ImportPreview
  import opened ExportRows

  // ----- one cell -----

  /** A character that makes spreadsheet programs read a cell as a formula. */
  predicate Trigger(c: char) {
    c == '=' || c == '+' || c == '-' || c == '@' || c == '\t' || c == '\r'
  }

  function Rendered(c: CellValue): string {
    match c
    case Scalar(v) => if v.Null? then "" else ValueText(v)
    case Items(items) => Join(items, '|')
  }

  function Guarded(text: string): string {
    if text != "" && Trigger(text[0]) then "'" + text else text
  }

  function CellText(c: CellValue): string {
    Guarded(Rendered(c))
  }

  function Unguarded(text: string): string {
    if LooksGuarded(text) then text[1..] else text
  }

  /** An apostrophe followed by a trigger. */
  predicate LooksGuarded(text: string) {
    |text| >= 2 && text[0] == '\'' && Trigger(text[1])
  }

  /** The guard is taken off again exactly for the texts that do not look guarded themselves. */
  lemma GuardRestored(text: string)
    ensures Unguarded(Guarded(text)) == text <==> !LooksGuarded(text)
    ensures Guarded(text) == "" || Guarded(text)[0] !in "=+-@\t\r"
    ensures Guarded(text) == text || (Guarded(text) == "'" + text && text != "" && text[0] in "=+-@\t\r")
  {
    assert forall c: char :: c in "=+-@\t\r" <==> c == '=' || c == '+' || c == '-' || c == '@' || c == '\t' || c == '\r';
  }

  lemma QuotedFormulaIsChanged()
    ensures Unguarded(Guarded("'=1")) == "=1" != "'=1"
  {
    assert "'=1"[1..] == "=1";
    assert |"'=1"| != |"=1"|;
  }

  // ----- a sheet -----

  /** Column index and header of every column with a header. */
  function Indexed(header: seq<string>, n: nat): (r: seq<(nat, string)>)
    requires n <= |header|
    ensures forall k | 0 <= k < |r| :: r[k].0 < n
  {
    if n == 0 then []
    else
      var name := Strip(Unguarded(header[n - 1]));
      Indexed(header, n - 1) + if name != "" then [(n - 1, name)] else []
  }

  function CellAt(values: seq<string>, i: nat): string {
    if i < |values| then Unguarded(values[i]) else ""
  }

  /** `row[header] = cell` */
  function PutCell(row: Row, header: string, cell: string): Row {
    if row == [] then [(header, cell)]
    else if row[0].0 == header then [(header, cell)] + row[1..]
    else [row[0]] + PutCell(row[1..], header, cell)
  }

  function RowOf(indexed: seq<(nat, string)>, values: seq<string>): Row {
    if indexed == [] then []
    else
      var n := |indexed| - 1;
      PutCell(RowOf(indexed[..n], values), indexed[n].1, CellAt(values, indexed[n].0))
  }

  predicate HasValue(indexed: seq<(nat, string)>, values: seq<string>) {
    exists k | 0 <= k < |indexed| :: !Blank(CellAt(values, indexed[k].0))
  }

  function DataRows(indexed: seq<(nat, string)>, rows: seq<seq<string>>): seq<Row> {
    if rows == [] then []
    else
      var n := |rows| - 1;
      DataRows(indexed, rows[..n]) + if HasValue(indexed, rows[n]) then [RowOf(indexed, rows[n])] else []
  }

  /** The filled cells under a header in one row. */
  function FilledIn(indexed: seq<(nat, string)>, values: seq<string>, header: string): seq<string> {
    if indexed == [] then []
    else
      var n := |indexed| - 1;
      var cell := CellAt(values, indexed[n].0);
      FilledIn(indexed[..n], values, header) + if indexed[n].1 == header && !Blank(cell) then [cell] else []
  }

  function FilledUnder(indexed: seq<(nat, string)>, rows: seq<seq<string>>, header: string): seq<string> {
    if rows == [] then []
    else FilledUnder(indexed, rows[..|rows| - 1], header) + FilledIn(indexed, rows[|rows| - 1], header)
  }

  function FirstFew(cells: seq<string>, n: nat): (r: seq<string>)
    ensures |r| <= n
  {
    if |cells| <= n then cells else cells[..n]
  }

  function ColumnsOf(indexed: seq<(nat, string)>, rows: seq<seq<string>>, sampleSize: nat): (r: seq<Column>)
    ensures |r| == |indexed|
    ensures forall k | 0 <= k < |r| :: r[k].header == indexed[k].1
  {
    seq(|indexed|, k requires 0 <= k < |indexed| =>
      Column(indexed[k].1, FirstFew(FilledUnder(indexed, rows, indexed[k].1), sampleSize)))
  }

  const CONTENT_TYPE_HEADERS: set<string> := {"content type", "video type", "type"}

  predicate Eligible(indexed: seq<(nat, string)>) {
    && (exists k | 0 <= k < |indexed| :: Lower(indexed[k].1) == "title")
    && (exists k | 0 <= k < |indexed| :: Lower(indexed[k].1) == "year")
    && (exists k | 0 <= k < |indexed| :: Lower(indexed[k].1) in CONTENT_TYPE_HEADERS)
  }

  /** The tab a grid of cells stands for. */
  /** A header of that name, in any case. */
  predicate HasHeader(indexed: seq<(nat, string)>, name: string) {
    exists k | 0 <= k < |indexed| :: Lower(indexed[k].1) == name
  }

  /** A sheet can be imported exactly when it has a title, a year and a kind of film. */
  lemma EligibleIff(indexed: seq<(nat, string)>)
    ensures Eligible(indexed) <==>
              && HasHeader(indexed, "title") && HasHeader(indexed, "year")
              && (HasHeader(indexed, "content type") || HasHeader(indexed, "video type") || HasHeader(indexed, "type"))
  {
    hide Lower;
    if exists k | 0 <= k < |indexed| :: Lower(indexed[k].1) in CONTENT_TYPE_HEADERS {
      var k :| 0 <= k < |indexed| && Lower(indexed[k].1) in CONTENT_TYPE_HEADERS;
      assert HasHeader(indexed, Lower(indexed[k].1));
    }
  }

  function TabOf(name: string, grid: seq<seq<string>>, sampleSize: nat): Tab {
    if grid == [] then Tab(name, false, [], [])
    else
      var indexed := Indexed(grid[0], |grid[0]|);
      Tab(name, Eligible(indexed), ColumnsOf(indexed, grid[1..], sampleSize), DataRows(indexed, grid[1..]))
  }

  type Samples = map<string, seq<string>>

  /** The filled cells under `h` in the rows read so far and the first `i` cells of the current one. */
  function SeenUnder(indexed: seq<(nat, string)>, rows: seq<seq<string>>, values: seq<string>, i: nat, h: string)
    : seq<string>
    requires i <= |indexed|
  {
    FilledUnder(indexed, rows, h) + FilledIn(indexed[..i], values, h)
  }

  /** The samples collected so far. */
  ghost predicate Sampled(samples: Samples, indexed: seq<(nat, string)>, rows: seq<seq<string>>, values: seq<string>,
                          i: nat, sampleSize: nat)
    requires i <= |indexed|
  {
    forall k | 0 <= k < |indexed| ::
      indexed[k].1 in samples
      && samples[indexed[k].1] == FirstFew(SeenUnder(indexed, rows, values, i, indexed[k].1), sampleSize)
  }

  lemma SeenStep(indexed: seq<(nat, string)>, rows: seq<seq<string>>, values: seq<string>, i: nat, h: string,
      sampleSize: nat)
    requires i < |indexed|
    ensures var cell := CellAt(values, indexed[i].0);
            var before := FirstFew(SeenUnder(indexed, rows, values, i, h), sampleSize);
            FirstFew(SeenUnder(indexed, rows, values, i + 1, h), sampleSize)
            == if h == indexed[i].1 && !Blank(cell) && |before| < sampleSize then before + [cell] else before
  {
    hide CellAt, Blank;
    assert indexed[..i + 1][..i] == indexed[..i];
    var all := SeenUnder(indexed, rows, values, i, h);
    var cell := CellAt(values, indexed[i].0);
    if h == indexed[i].1 && !Blank(cell) {
      assert SeenUnder(indexed, rows, values, i + 1, h) == all + [cell];
    } else {
      assert SeenUnder(indexed, rows, values, i + 1, h) == all;
    }
  }

  function Sample(samples: Samples, header: string, cell: string, sampleSize: nat): Samples {
    if header in samples && !Blank(cell) && |samples[header]| < sampleSize then samples[header := samples[header] + [cell]]
    else samples
  }

  lemma SampledStep(samples: Samples, indexed: seq<(nat, string)>, rows: seq<seq<string>>, values: seq<string>,
                    i: nat, sampleSize: nat)
    requires i < |indexed| && Sampled(samples, indexed, rows, values, i, sampleSize)
    ensures Sampled(Sample(samples, indexed[i].1, CellAt(values, indexed[i].0), sampleSize), indexed, rows, values,
        i + 1, sampleSize)
  {
    hide CellAt, Blank, SeenUnder, FirstFew;
    forall k | 0 <= k < |indexed| {
      SeenStep(indexed, rows, values, i, indexed[k].1, sampleSize);
    }
  }

  lemma SampledNext(samples: Samples, indexed: seq<(nat, string)>, rows: seq<seq<string>>, r: nat, next: seq<string>,
      sampleSize: nat)
    requires r < |rows| && Sampled(samples, indexed, rows[..r], rows[r], |indexed|, sampleSize)
    ensures Sampled(samples, indexed, rows[..r + 1], next, 0, sampleSize)
  {
    hide FirstFew, FilledIn;
    assert rows[..r + 1][..r] == rows[..r] && indexed[..|indexed|] == indexed && indexed[..0] == [];
    forall k | 0 <= k < |indexed|
      ensures SeenUnder(indexed, rows[..r + 1], next, 0, indexed[k].1) == SeenUnder(indexed, rows[..r], rows[r],
          |indexed|, indexed[k].1)
    {
      NoneFilled(next, indexed[k].1);
    }
  }

  lemma NoneFilled(values: seq<string>, h: string)
    ensures FilledIn([], values, h) == []
  {
  }

  /** One data row: its cells under their headers, the filled ones sampled. */
  method ReadRow(indexed: seq<(nat, string)>, values: seq<string>, before: Samples, sampleSize: nat,
                 ghost rows: seq<seq<string>>)
      returns (row: Row, hasValue: bool, samples: Samples)
    requires Sampled(before, indexed, rows, values, 0, sampleSize)
    ensures row == RowOf(indexed, values) && hasValue == HasValue(indexed, values)
    ensures Sampled(samples, indexed, rows, values, |indexed|, sampleSize)
  {
    hide CellAt, Blank, PutCell, HasValue, Sampled, RowOf;
    row, hasValue, samples := [], false, before;
    EmptyRow(values);
    for i := 0 to |indexed|
      invariant row == RowOf(indexed[..i], values) && hasValue == HasValue(indexed[..i], values)
      invariant Sampled(samples, indexed, rows, values, i, sampleSize)
    {
      var (index, header) := indexed[i];
      var cell := CellAt(values, index);
      RowStep(indexed, values, i);
      SampledStep(samples, indexed, rows, values, i, sampleSize);
      row := PutCell(row, header, cell);
      hasValue := hasValue || !Blank(cell);
      samples := Sample(samples, header, cell, sampleSize);
    }
    assert indexed[..|indexed|] == indexed;
  }

  lemma EmptyRow(values: seq<string>)
    ensures RowOf([], values) == [] && !HasValue([], values)
  {
  }

  lemma RowStep(indexed: seq<(nat, string)>, values: seq<string>, i: nat)
    requires i < |indexed|
    ensures var cell := CellAt(values, indexed[i].0);
            && RowOf(indexed[..i + 1], values) == PutCell(RowOf(indexed[..i], values), indexed[i].1, cell)
            && HasValue(indexed[..i + 1], values) == (HasValue(indexed[..i], values) || !Blank(cell))
  {
    hide CellAt, PutCell, Blank;
    HasValueStep(indexed, values, i);
    assert indexed[..i + 1][..i] == indexed[..i];
  }

  lemma HasValueStep(indexed: seq<(nat, string)>, values: seq<string>, i: nat)
    requires i < |indexed|
    ensures HasValue(indexed[..i + 1], values) == (HasValue(indexed[..i], values) || !Blank(CellAt(values, indexed[i].0)))
  {
    hide CellAt, Blank;
    if HasValue(indexed[..i], values) {
      var k :| 0 <= k < i && !Blank(CellAt(values, indexed[..i][k].0));
      assert !Blank(CellAt(values, indexed[..i + 1][k].0));
    }
    if !Blank(CellAt(values, indexed[i].0)) {
      assert !Blank(CellAt(values, indexed[..i + 1][i].0));
    }
  }

  method BuildTab(name: string, grid: seq<seq<string>>, sampleSize: nat) returns (tab: Tab)
    ensures tab == TabOf(name, grid, sampleSize)
  {
    hide CellAt, Blank, HasValue, RowOf, Eligible, Sampled, FirstFew, FilledUnder;
    if grid == [] {
      return Tab(name, false, [], []);
    }
    var indexed: seq<(nat, string)> := [];
    for i := 0 to |grid[0]|
      invariant indexed == Indexed(grid[0], i)
    {
      hide Strip, Unguarded;
      var header := Strip(Unguarded(grid[0][i]));
      if header != "" {
        indexed := indexed + [(i, header)];
      }
    }
    var rows := grid[1..];
    var samples: Samples := map h | h in HeadersIn(indexed) :: [];
    SampledNone(samples, indexed, if rows == [] then [] else rows[0], sampleSize);
    var data: seq<Row> := [];
    for r := 0 to |rows|
      invariant data == DataRows(indexed, rows[..r])
      invariant Sampled(samples, indexed, rows[..r], if r < |rows| then rows[r] else [], 0, sampleSize)
    {
      var row, hasValue;
      row, hasValue, samples := ReadRow(indexed, rows[r], samples, sampleSize, rows[..r]);
      assert rows[..r + 1][..r] == rows[..r];
      SampledNext(samples, indexed, rows, r, if r + 1 < |rows| then rows[r + 1] else [], sampleSize);
      if hasValue {
        data := data + [row];
      }
    }
    assert rows[..|rows|] == rows;
    SampledMeans(samples, indexed, rows, sampleSize);
    var columns := seq(|indexed|, k requires 0 <= k < |indexed| =>
      Column(indexed[k].1, if indexed[k].1 in samples then samples[indexed[k].1] else []));
    tab := Tab(name, Eligible(indexed), columns, data);
  }

  function HeadersIn(indexed: seq<(nat, string)>): set<string> {
    set k | 0 <= k < |indexed| :: indexed[k].1
  }

  lemma SampledNone(samples: Samples, indexed: seq<(nat, string)>, values: seq<string>, sampleSize: nat)
    requires samples == map h | h in HeadersIn(indexed) :: []
    ensures Sampled(samples, indexed, [], values, 0, sampleSize)
  {
    forall k | 0 <= k < |indexed|
      ensures indexed[k].1 in samples && SeenUnder(indexed, [], values, 0, indexed[k].1) == []
    {
      assert indexed[..0] == [];
      NoneFilled(values, indexed[k].1);
    }
  }

  lemma SampledMeans(samples: Samples, indexed: seq<(nat, string)>, rows: seq<seq<string>>, sampleSize: nat)
    requires Sampled(samples, indexed, rows, [], 0, sampleSize)
    ensures forall k | 0 <= k < |indexed| ::
              indexed[k].1 in samples && samples[indexed[k].1] == FirstFew(FilledUnder(indexed, rows, indexed[k].1),
                  sampleSize)
  {
    hide FirstFew, FilledIn;
    forall k | 0 <= k < |indexed|
      ensures SeenUnder(indexed, rows, [], 0, indexed[k].1) == FilledUnder(indexed, rows, indexed[k].1)
    {
      assert indexed[..0] == [];
      NoneFilled([], indexed[k].1);
    }
  }
}
