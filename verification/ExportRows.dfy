/** A stored movie as one row of an exported sheet: which columns there are and what each holds. */
module ExportRows {
  import opened Common
  import opened Text
  import opened MovieStore
  import opened ImportRows

  /** What a cell holds before it is rendered. */
  datatype CellValue = Scalar(v: Value) | Items(items: seq<string>)

  const SCALAR_COLUMNS: seq<(string, string)> := [
    ("Title", "title"), ("Year", "year"), ("Video Type", "contentType"), ("Language", "language"),
    ("Original Title", "originalTitle"), ("Release Date", "releaseDate"), ("Runtime", "runtime"),
    ("MPAA", "rated"), ("Owned", "owned"), ("Ripped", "ripped"), ("Children's", "childrens"),
    ("Set", "movieSet"), ("Outline", "outline"), ("Plot", "plot")
  ]

  const MULTI_COLUMNS: seq<(string, string)> := [
    ("Directors", "directors"), ("Actors", "actors"), ("Genres", "genres"), ("Tags", "tags"),
    ("Media", "ownedMedia"), ("Rip Quality", "ripQuality")
  ]

  /** System, id column, URL column. */
  const EXTERNAL_COLUMNS: seq<(string, string, string)> :=
    [("IMDB", "IMDB Id", "IMDB URL"), ("TMDB", "TMDB Id", "TMDB URL")]

  /** The columns that hold one attribute each. */
  const EXPORT_COLUMNS: seq<string> := [
    "Title", "Year", "Video Type", "Language", "Original Title", "Release Date", "Runtime", "MPAA", "Owned",
    "Ripped", "Children's", "Set", "Outline", "Plot", "Directors", "Actors", "Genres", "Tags", "Media",
    "Rip Quality", "IMDB Id", "IMDB URL", "TMDB Id", "TMDB URL"
  ]

  function UpperChar(c: char): char {
    if 'a' <= c <= 'z' then c - 'a' + 'A' else c
  }

  function Upper(s: string): (t: string)
    ensures |t| == |s|
  {
    seq(|s|, i requires 0 <= i < |s| => UpperChar(s[i]))
  }

  predicate Truthy(v: Value) {
    match v
    case Null => false
    case Flag(b) => b
    case Num(n) => n != 0
    case Text(s) => s != ""
    case Many(items) => items != []
    case Links(ids) => ids != []
  }

  function ScalarCell(attribute: string, v: Value): CellValue {
    if v == Null then Scalar(Value.Text(""))
    else if attribute in BOOLEAN_ATTRS then Scalar(Value.Text(if Truthy(v) then "Yes" else "No"))
    else Scalar(v)
  }

  function MultiCell(v: Value): CellValue {
    Items(if v.Many? then v.items else [])
  }

  /** The last id filed under a system, up to case and white space. */
  function BySystem(ids: seq<ExternalId>, system: string): Option<ExternalId> {
    if ids == [] then None
    else if Upper(Strip(ids[|ids| - 1].system)) == system then Some(ids[|ids| - 1])
    else BySystem(ids[..|ids| - 1], system)
  }

  function IdCell(id: Option<ExternalId>): CellValue {
    Scalar(Value.Text(if id.Some? then id.value.uniqueId else ""))
  }

  function UrlCell(id: Option<ExternalId>): CellValue {
    Scalar(Value.Text(if id.Some? && id.value.url.Some? then id.value.url.value else ""))
  }

  function LinksOf(movie: Attrs): seq<ExternalId> {
    var v := Field(movie, "externalIds");
    if v.Links? then v.ids else []
  }

  /** What column `i` of the sheet holds. */
  function CellFor(movie: Attrs, i: nat): CellValue
    requires i < 24
  {
    if i < 14 then ScalarCell(SCALAR_COLUMNS[i].1, Field(movie, SCALAR_COLUMNS[i].1))
    else if i < 20 then MultiCell(Field(movie, MULTI_COLUMNS[i - 14].1))
    else
      var id := BySystem(LinksOf(movie), EXTERNAL_COLUMNS[(i - 20) / 2].0);
      if i % 2 == 0 then IdCell(id) else UrlCell(id)
  }

  // ----- the columns are different, whatever their case -----

  /** The place of a column, told by the length and the first letter of its lower-case header. */
  function PlaceOf(n: nat, c: char): int {
    if n == 3 then 11
    else if n == 4 then (if c == 'y' then 1 else if c == 'm' then 7 else if c == 'p' then 13 else 17)
    else if n == 5 then (if c == 't' then 0 else if c == 'o' then 8 else 18)
    else if n == 6 then (if c == 'r' then 9 else if c == 'a' then 15 else 16)
    else if n == 7 then (if c == 'r' then 6 else if c == 'o' then 12 else if c == 'i' then 20 else 22)
    else if n == 8 then (if c == 'l' then 3 else if c == 'i' then 21 else 23)
    else if n == 9 then 14
    else if n == 10 then (if c == 'v' then 2 else 10)
    else if n == 11 then 19
    else if n == 12 then 5
    else 4
  }

  lemma PlaceOfColumn(i: nat)
    requires i < 24
    ensures var h := Lower(EXPORT_COLUMNS[i]); h != "" && PlaceOf(|h|, h[0]) == i
  {
  }

  lemma ColumnsDiffer(i: nat, j: nat)
    requires i < 24 && j < 24 && i != j
    ensures Lower(EXPORT_COLUMNS[i]) != Lower(EXPORT_COLUMNS[j])
  {
    PlaceOfColumn(i);
    PlaceOfColumn(j);
    hide *;
  }

  lemma ColumnNames(i: nat)
    requires i < 24
    ensures i < 14 ==> EXPORT_COLUMNS[i] == SCALAR_COLUMNS[i].0
    ensures 14 <= i < 20 ==> EXPORT_COLUMNS[i] == MULTI_COLUMNS[i - 14].0
    ensures i >= 20 ==> EXPORT_COLUMNS[i] == if i % 2 == 0 then EXTERNAL_COLUMNS[(i - 20) / 2].1
                                             else EXTERNAL_COLUMNS[(i - 20) / 2].2
  {
  }

  ghost predicate Filled(movie: Attrs, row: map<string, CellValue>, n: nat)
    requires n <= 24
  {
    forall i | 0 <= i < n :: EXPORT_COLUMNS[i] in row && row[EXPORT_COLUMNS[i]] == CellFor(movie, i)
  }

  lemma FilledStep(movie: Attrs, row: map<string, CellValue>, n: nat)
    requires n < 24 && Filled(movie, row, n)
    ensures Filled(movie, row[EXPORT_COLUMNS[n] := CellFor(movie, n)], n + 1)
  {
    hide CellFor;
    forall i | 0 <= i < n ensures EXPORT_COLUMNS[i] != EXPORT_COLUMNS[n] {
      ColumnsDiffer(i, n);
    }
  }

  lemma ScalarStep(movie: Attrs, row: map<string, CellValue>, i: nat)
    requires i < 14 && Filled(movie, row, i)
    ensures var (header, attribute) := SCALAR_COLUMNS[i];
            Filled(movie, row[header := ScalarCell(attribute, Field(movie, attribute))], i + 1)
  {
    hide Filled, ScalarCell;
    FilledStep(movie, row, i);
    ColumnNames(i);
  }

  lemma MultiStep(movie: Attrs, row: map<string, CellValue>, i: nat)
    requires i < 6 && Filled(movie, row, 14 + i)
    ensures var (header, attribute) := MULTI_COLUMNS[i];
            Filled(movie, row[header := MultiCell(Field(movie, attribute))], 15 + i)
  {
    hide Filled, MultiCell;
    FilledStep(movie, row, 14 + i);
    ColumnNames(14 + i);
  }

  lemma ExternalStep(movie: Attrs, row: map<string, CellValue>, i: nat)
    requires i < 2 && Filled(movie, row, 20 + 2 * i)
    ensures var (system, idHeader, urlHeader) := EXTERNAL_COLUMNS[i];
            var id := BySystem(LinksOf(movie), system);
            Filled(movie, row[idHeader := IdCell(id)][urlHeader := UrlCell(id)], 22 + 2 * i)
  {
    hide Filled, BySystem, IdCell, UrlCell, LinksOf;
    var (system, idHeader, urlHeader) := EXTERNAL_COLUMNS[i];
    var id := BySystem(LinksOf(movie), system);
    FilledStep(movie, row, 20 + 2 * i);
    ColumnNames(20 + 2 * i);
    FilledStep(movie, row[idHeader := IdCell(id)], 21 + 2 * i);
    ColumnNames(21 + 2 * i);
  }

  method MovieToExportRow(movie: Attrs) returns (row: map<string, CellValue>)
    ensures Filled(movie, row, 24)
  {
    hide Filled, ScalarCell, MultiCell, BySystem, IdCell, UrlCell, LinksOf, Field;
    row := map[];
    NothingFilled(movie);
    for i := 0 to |SCALAR_COLUMNS|
      invariant Filled(movie, row, i)
    {
      var (header, attribute) := SCALAR_COLUMNS[i];
      ScalarStep(movie, row, i);
      row := row[header := ScalarCell(attribute, Field(movie, attribute))];
    }
    for i := 0 to |MULTI_COLUMNS|
      invariant Filled(movie, row, 14 + i)
    {
      var (header, attribute) := MULTI_COLUMNS[i];
      MultiStep(movie, row, i);
      row := row[header := MultiCell(Field(movie, attribute))];
    }
    for i := 0 to |EXTERNAL_COLUMNS|
      invariant Filled(movie, row, 20 + 2 * i)
    {
      var (system, idHeader, urlHeader) := EXTERNAL_COLUMNS[i];
      var id := BySystem(LinksOf(movie), system);
      ExternalStep(movie, row, i);
      row := row[idHeader := IdCell(id)];
      row := row[urlHeader := UrlCell(id)];
    }
  }

  lemma NothingFilled(movie: Attrs)
    ensures Filled(movie, map[], 0)
  {
  }
}
