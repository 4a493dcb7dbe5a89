/**
 Exporting a collection and importing the sheet again: no attribute is lost or changed.
 */
module SheetRoundTrip {
  import opened Common
  import opened Text
  import opened MovieStore
  import opened ImportRows
  import opened ImportPreview
  import opened ExportRows
  import opened SheetCells

  // ----- which movies survive -----

  predicate Tidy(s: string) {
    s != "" && Trimmed(s)
  }

  predicate TidyItems(items: seq<string>) {
    forall x | x in items :: Tidy(x) && '|' !in x
  }

  predicate IdOf(id: ExternalId, system: string) {
    id.system == system && Tidy(id.uniqueId) && (id.url.Some? ==> Tidy(id.url.value))
  }

  /** At most one IMDB id, then at most one TMDB id. */
  predicate OrderedIds(ids: seq<ExternalId>) {
    || ids == []
    || (|ids| == 1 && (IdOf(ids[0], "IMDB") || IdOf(ids[0], "TMDB")))
    || (|ids| == 2 && IdOf(ids[0], "IMDB") && IdOf(ids[1], "TMDB"))
  }

  /** A value a sheet can carry for an attribute. */
  predicate Portable(attribute: string, v: Value) {
    || v.Null?
    || (if attribute in BOOLEAN_ATTRS then v.Flag?
        else if attribute in INT_ATTRS then v.Num?
        else if attribute == "externalIds" then v.Links? && OrderedIds(v.ids)
        else if attribute in MULTI_VALUE then v.Many? && TidyItems(v.items)
        else if attribute == "contentType" then v.Text? && Tidy(v.s) && ContentType(v.s) == v.s
        else if attribute == "rated" then v.Text? && v.s in VALID_RATINGS
        else if attribute == "title" then v.Text? && Tidy(v.s) && NormalizeTitleArticle(v.s).normalized == v.s
        else v.Text? && Tidy(v.s))
  }

  function AttributeAt(i: nat): string
    requires i < 20
  {
    if i < 14 then SCALAR_COLUMNS[i].1 else MULTI_COLUMNS[i - 14].1
  }

  /** The attributes of the first `n` columns. */
  function AttributesBefore(n: nat): (r: set<string>)
    requires n <= 20
    ensures forall i | 0 <= i < n :: AttributeAt(i) in r
  {
    if n == 0 then {} else AttributesBefore(n - 1) + {AttributeAt(n - 1)}
  }

  ghost predicate Exportable(movie: Attrs) {
    && movie.Keys <= AttributesBefore(20) + {"externalIds"}
    && (forall a | a in movie :: Portable(a, movie[a]))
    && (forall i | 0 <= i < 24 :: !LooksGuarded(Rendered(CellFor(movie, i))))
  }

  predicate Kept(v: Value) {
    !v.Null? && v != Many([]) && v != Links([])
  }

  /** The attributes that hold something. */
  function Content(movie: Attrs): Attrs {
    map a | a in movie && Kept(movie[a]) :: movie[a]
  }

  // ----- the exported row as it is read back -----

  function ExportedCells(movie: Attrs): (r: seq<string>)
    ensures |r| == 24
  {
    seq(24, i requires 0 <= i < 24 => CellText(CellFor(movie, i)))
  }

  function ReadBack(movie: Attrs): (r: Row)
    ensures |r| == 24
  {
    seq(24, i requires 0 <= i < 24 => (EXPORT_COLUMNS[i], Unguarded(CellText(CellFor(movie, i)))))
  }

  lemma {:induction false} CellAmong(row: Row, i: nat)
    requires i < |row| && forall j, k | 0 <= j < k < |row| :: Lower(row[j].0) != Lower(row[k].0)
    ensures Cell(row, row[i].0) == row[i].1 && LookupCell(row, row[i].0) == row[i].1
  {
    if i > 0 {
      assert Lower(row[0].0) != Lower(row[i].0);
      assert row[1..][i - 1] == row[i];
      CellAmong(row[1..], i - 1);
    }
  }

  lemma ReadBackCell(movie: Attrs, i: nat)
    requires i < 24 && Exportable(movie)
    ensures Cell(ReadBack(movie), EXPORT_COLUMNS[i]) == Rendered(CellFor(movie, i))
    ensures LookupCell(ReadBack(movie), EXPORT_COLUMNS[i]) == Rendered(CellFor(movie, i))
  {
    var row := ReadBack(movie);
    GuardRestored(Rendered(CellFor(movie, i)));
    hide Portable, Rendered, CellFor, Unguarded, Guarded, LooksGuarded, Cell, LookupCell, AttributesBefore, Lower;
    forall j, k | 0 <= j < k < |row| ensures Lower(row[j].0) != Lower(row[k].0) {
      ColumnsDiffer(j, k);
    }
    CellAmong(row, i);
  }

  // ----- one attribute -----

  lemma {:induction false} StripAllTidy(items: seq<string>)
    requires forall x | x in items :: Tidy(x)
    ensures StripAll(items) == items
  {
    if items != [] {
      assert items[0] in items;
      StripTrims(items[0]);
      assert forall x | x in items[1..] :: x in items;
      StripAllTidy(items[1..]);
    }
  }

  lemma {:induction false} JoinTidy(items: seq<string>)
    requires items != [] && forall x | x in items :: Tidy(x)
    ensures Tidy(Join(items, '|'))
  {
    assert items[0] in items;
    if |items| > 1 {
      assert forall x | x in items[1..] :: x in items;
      JoinTidy(items[1..]);
      var t := Join(items[1..], '|');
      var s := items[0] + ['|'] + t;
      assert s[|s| - 1] == t[|t| - 1];
    }
  }

  /** A list cell gives back its list; an empty one supplies nothing. */
  lemma ListBack(attribute: string, items: seq<string>)
    requires TidyItems(items)
    ensures CoerceValue(attribute, Join(items, '|'), true) == if items != [] then Some(Many(items)) else None
  {
    hide Tidy;
    if items == [] {
      assert Strip("") == "" && Split("", '|') == [""] && StripAll([""]) == [] by { EmptyCell(); }
    } else {
      JoinTidy(items);
      TidyStrips(Join(items, '|'));
      SplitJoin(items, '|');
      StripAllTidy(items);
    }
  }

  lemma EmptyCell()
    ensures Strip("") == "" && Split("", '|') == [""] && StripAll([""]) == []
  {
    StripTrims("");
    assert [""][1..] == [];
  }

  lemma TidyStrips(s: string)
    requires Tidy(s)
    ensures Strip(s) == s && !Blank(s)
  {
    StripTrims(s);
  }

  lemma YesNoBack(attribute: string, b: bool)
    requires attribute in BOOLEAN_ATTRS
    ensures CoerceValue(attribute, if b then "Yes" else "No", false) == Some(Flag(b))
  {
    StripTrims("Yes");
    StripTrims("No");
    assert Lower("Yes") == "yes" && Lower("No") == "no";
    hide Strip, Lower;
  }

  lemma RatingsAreTidy(s: string)
    requires s in VALID_RATINGS
    ensures Tidy(s)
  {
  }

  lemma TextBack(attribute: string, s: string)
    requires attribute !in BOOLEAN_ATTRS && attribute !in INT_ATTRS && attribute !in MULTI_VALUE
    requires Portable(attribute, Value.Text(s))
    ensures CoerceValue(attribute, s, false) == Some(Value.Text(s))
  {
    assert attribute != "externalIds";
    if attribute == "rated" { RatingsAreTidy(s); }
    TidyStrips(s);
    hide Strip, Lower, NormalizeTitleArticle;
  }

  lemma BlankBack(attribute: string)
    ensures CoerceValue(attribute, "", false) == None
  {
    StripTrims("");
  }

  lemma NumberBack(attribute: string, n: int)
    requires attribute in INT_ATTRS
    ensures CoerceValue(attribute, IntText(n), false) == Some(Num(n))
  {
    ParseIntText(n);
    assert attribute !in BOOLEAN_ATTRS;
    StripTrims(IntText(n));
    ParseStripped(IntText(n));
    hide ParseInt, IntText, Strip;
  }

  lemma ParseStripped(s: string)
    requires Strip(s) == s
    ensures ParseInt(Strip(s)) == ParseInt(s)
  {
  }

  lemma ScalarNames(i: nat)
    requires i < 14
    ensures SCALAR_COLUMNS[i].1 !in MULTI_VALUE && SCALAR_COLUMNS[i].1 != "externalIds"
  {
  }

  lemma MultiNames(i: nat)
    requires i < 6
    ensures MULTI_COLUMNS[i].1 in MULTI_VALUE && MULTI_COLUMNS[i].1 != "externalIds"
    ensures MULTI_COLUMNS[i].1 !in BOOLEAN_ATTRS && MULTI_COLUMNS[i].1 !in INT_ATTRS
  {
  }

  function KeptValue(movie: Attrs, a: string): Option<Value> {
    if a in movie && Kept(movie[a]) then Some(movie[a]) else None
  }

  lemma ScalarBack(a: string, v: Value)
    requires a !in MULTI_VALUE && a != "externalIds" && Portable(a, v)
    ensures CoerceValue(a, Rendered(ScalarCell(a, v)), false) == if Kept(v) then Some(v) else None
  {
    BlankBack(a);
    if v.Flag? {
      YesNoBack(a, v.b);
    } else if v.Num? {
      NumberBack(a, v.n);
    } else if v.Text? {
      TextBack(a, v.s);
    }
    hide CoerceValue, IntText, ContentType, NormalizeTitleArticle, VALID_RATINGS, Trimmed;
  }

  lemma MultiBack(a: string, v: Value)
    requires a in MULTI_VALUE && a != "externalIds" && a !in BOOLEAN_ATTRS && a !in INT_ATTRS && Portable(a, v)
    ensures CoerceValue(a, Rendered(MultiCell(v)), true) == if Kept(v) then Some(v) else None
  {
    hide Tidy;
    ListBack(a, if v.Many? then v.items else []);
    hide CoerceValue, Join, TidyItems;
  }

  /** Each typed column supplies exactly the movie's attribute. */
  lemma AttributeBack(movie: Attrs, i: nat)
    requires i < 20 && Exportable(movie)
    ensures var a := AttributeAt(i);
            CoerceValue(a, Cell(ReadBack(movie), EXPORT_COLUMNS[i]), a in MULTI_VALUE) == KeptValue(movie, a)
    ensures AttributeAt(i) != "externalIds"
  {
    var a := AttributeAt(i);
    ReadBackCell(movie, i);
    var v := Field(movie, a);
    hide ReadBack, Cell, LookupCell, LooksGuarded, Rendered, ScalarCell, MultiCell, CoerceValue, AttributesBefore,
        EXPORT_COLUMNS;
    assert Portable(a, v);
    if i < 14 {
      ScalarNames(i);
      ScalarBack(a, v);
    } else {
      MultiNames(i - 14);
      MultiBack(a, v);
    }
  }

  // ----- the whole row -----

  /** The columns as the exported headers are understood on import. */
  ghost predicate Understood(mappings: seq<ColumnMapping>) {
    && |mappings| == 24
    && (forall i | 0 <= i < 20 ::
          mappings[i] == ColumnMapping(EXPORT_COLUMNS[i], Some(AttributeAt(i)), High, AttributeAt(i) in MULTI_VALUE, []))
    && (forall i | 20 <= i < 24 ::
          mappings[i].attribute.None? || mappings[i].confidence != High || mappings[i].attribute == Some("externalIds"))
  }

  function ContentIn(movie: Attrs, names: set<string>): Attrs {
    map a | a in movie && a in names && Kept(movie[a]) :: movie[a]
  }

  lemma ContentStep(movie: Attrs, names: set<string>, a: string)
    ensures ContentIn(movie, names + {a})
            == match KeptValue(movie, a) { case Some(v) => ContentIn(movie,
                names)[a := v] case None => ContentIn(movie, names) }
  {
  }

  lemma SupplyTyped(movie: Attrs, mappings: seq<ColumnMapping>, before: Attrs, i: nat)
    requires i < 20 && Exportable(movie) && Understood(mappings)
    ensures Supply(before, ReadBack(movie), mappings[i])
            == match KeptValue(movie, AttributeAt(i)) { case Some(v) => before[AttributeAt(i) := v] case None => before }
  {
    AttributeBack(movie, i);
    hide Exportable, ReadBack, CoerceValue, Cell, KeptValue, AttributeAt, EXPORT_COLUMNS;
  }

  lemma SupplyOther(row: Row, mappings: seq<ColumnMapping>, before: Attrs, i: nat)
    requires 20 <= i < 24 && Understood(mappings)
    ensures Supply(before, row, mappings[i]) == before
  {
    hide CoerceValue, Cell;
  }

  lemma {:induction false} SuppliedBack(movie: Attrs, mappings: seq<ColumnMapping>, n: nat)
    requires n <= 24 && Exportable(movie) && Understood(mappings)
    ensures Supplied(ReadBack(movie), mappings[..n]) == ContentIn(movie, AttributesBefore(if n < 20 then n else 20))
  {
    if n > 0 {
      hide Exportable, Understood, ReadBack, Supply, ContentIn, KeptValue, AttributeAt;
      SuppliedBack(movie, mappings, n - 1);
      assert mappings[..n][..n - 1] == mappings[..n - 1] && mappings[..n][n - 1] == mappings[n - 1] by { Lengths(mappings); }
      Lengths(mappings);
      var before := Supplied(ReadBack(movie), mappings[..n - 1]);
      if n <= 20 {
        SupplyTyped(movie, mappings, before, n - 1);
        ContentStep(movie, AttributesBefore(n - 1), AttributeAt(n - 1));
      } else {
        SupplyOther(ReadBack(movie), mappings, before, n - 1);
      }
    } else {
      hide Exportable, Understood, ReadBack;
    }
  }

  lemma Lengths(mappings: seq<ColumnMapping>)
    requires Understood(mappings)
    ensures |mappings| == 24
  {
  }

  lemma SystemNames(system: string)
    requires system == "IMDB" || system == "TMDB"
    ensures Upper(Strip(system)) == system
  {
    StripTrims(system);
    assert Upper(system) == system;
  }

  lemma BySystemOne(x: ExternalId, system: string)
    requires (system == "IMDB" || system == "TMDB") && (x.system == "IMDB" || x.system == "TMDB")
    ensures BySystem([x], system) == if x.system == system then Some(x) else None
  {
    SystemNames(x.system);
    hide Upper, Strip;
    assert [x][..0] == [] && BySystem([], system) == None;
  }

  lemma BySystemTwo(x: ExternalId, y: ExternalId, system: string)
    requires (system == "IMDB" || system == "TMDB") && x.system == "IMDB" && y.system == "TMDB"
    ensures BySystem([x, y], system) == if system == "IMDB" then Some(x) else Some(y)
  {
    SystemNames(y.system);
    BySystemOne(x, system);
    hide Upper, Strip;
    assert [x, y][..1] == [x];
    assert "IMDB"[0] == 'I' && "TMDB"[0] == 'T';
  }

  lemma IdBack(row: Row, system: string, idHeader: string, urlHeader: string, id: Option<ExternalId>)
    requires LookupCell(row, idHeader) == Rendered(IdCell(id)) && LookupCell(row, urlHeader) == Rendered(UrlCell(id))
    requires id.Some? ==> IdOf(id.value, system)
    ensures ExternalIdFrom(row, system, idHeader, urlHeader) == if id.Some? then [id.value] else []
  {
    StripTrims("");
    if id.Some? {
      TidyStrips(id.value.uniqueId);
      if id.value.url.Some? { TidyStrips(id.value.url.value); }
    }
    hide LookupCell, Strip, Trimmed;
  }

  lemma ExternalColumns()
    ensures EXPORT_COLUMNS[20] == "IMDB Id" && EXPORT_COLUMNS[21] == "IMDB URL"
    ensures EXPORT_COLUMNS[22] == "TMDB Id" && EXPORT_COLUMNS[23] == "TMDB URL"
  {
  }

  lemma IdCells(movie: Attrs)
    ensures CellFor(movie, 20) == IdCell(BySystem(LinksOf(movie), "IMDB"))
    ensures CellFor(movie, 21) == UrlCell(BySystem(LinksOf(movie), "IMDB"))
    ensures CellFor(movie, 22) == IdCell(BySystem(LinksOf(movie), "TMDB"))
    ensures CellFor(movie, 23) == UrlCell(BySystem(LinksOf(movie), "TMDB"))
  {
    hide BySystem, LinksOf, ScalarCell, MultiCell;
  }

  function Listed(id: Option<ExternalId>): seq<ExternalId> {
    if id.Some? then [id.value] else []
  }

  lemma LinksSplit(ids: seq<ExternalId>)
    requires OrderedIds(ids)
    ensures var imdb, tmdb := BySystem(ids, "IMDB"), BySystem(ids, "TMDB");
            && ids == Listed(imdb) + Listed(tmdb)
            && (imdb.Some? ==> IdOf(imdb.value, "IMDB"))
            && (tmdb.Some? ==> IdOf(tmdb.value, "TMDB"))
  {
    assert "IMDB"[0] == 'I' && "TMDB"[0] == 'T';
    if |ids| == 1 {
      assert ids == [ids[0]];
      BySystemOne(ids[0], "IMDB");
      BySystemOne(ids[0], "TMDB");
    } else if |ids| == 2 {
      assert ids == [ids[0], ids[1]];
      BySystemTwo(ids[0], ids[1], "IMDB");
      BySystemTwo(ids[0], ids[1], "TMDB");
    }
    hide BySystem, Tidy;
  }

  lemma SystemBack(movie: Attrs, i: nat)
    requires i < 2 && Exportable(movie)
    ensures var (system, idHeader, urlHeader) := EXTERNAL_COLUMNS[i];
            var id := BySystem(LinksOf(movie), system);
            (id.Some? ==> IdOf(id.value, system)) ==>
              ExternalIdFrom(ReadBack(movie), system, idHeader, urlHeader) == Listed(id)
  {
    ReadBackCell(movie, 20 + 2 * i);
    ReadBackCell(movie, 21 + 2 * i);
    ExternalColumns();
    IdCells(movie);
    hide Exportable, ReadBack, LookupCell, Cell, Rendered, BySystem, IdCell, UrlCell, EXPORT_COLUMNS, CellFor,
        LinksOf, ExternalIdFrom, IdOf;
    var (system, idHeader, urlHeader) := EXTERNAL_COLUMNS[i];
    var id := BySystem(LinksOf(movie), system);
    if id.Some? ==> IdOf(id.value, system) {
      IdBack(ReadBack(movie), system, idHeader, urlHeader, id);
    }
  }

  lemma LinksBack(movie: Attrs)
    requires Exportable(movie)
    ensures AssembleExternalIds(ReadBack(movie)) == LinksOf(movie)
  {
    var ids := LinksOf(movie);
    assert OrderedIds(ids) by { assert Portable("externalIds", Field(movie, "externalIds")); }
    LinksSplit(ids);
    hide Exportable, ReadBack, BySystem, LinksOf, ExternalIdFrom, IdOf, Listed, OrderedIds;
    SystemBack(movie, 0);
    SystemBack(movie, 1);
  }

  lemma LinksContent(movie: Attrs)
    requires Exportable(movie)
    ensures Content(movie)
            == if LinksOf(movie) != [] then ContentIn(movie, AttributesBefore(20))["externalIds" := Links(LinksOf(movie))]
               else ContentIn(movie, AttributesBefore(20))
  {
    NoLinksColumn(20);
    hide AttributesBefore;
    if "externalIds" in movie { assert Portable("externalIds", movie["externalIds"]); }
  }

  lemma {:induction false} NoLinksColumn(n: nat)
    requires n <= 20
    ensures "externalIds" !in AttributesBefore(n)
  {
    if n > 0 {
      NoLinksColumn(n - 1);
      if n <= 14 { ScalarNames(n - 1); } else { MultiNames(n - 15); }
      hide SCALAR_COLUMNS, MULTI_COLUMNS;
    }
  }

  lemma TitleKept(movie: Attrs)
    requires Exportable(movie)
    ensures WithTitle(Content(movie), map[]) == Content(movie)
  {
    var content := Content(movie);
    if "title" in content {
      assert Portable("title", movie["title"]);
      assert content["title"] == movie["title"] && movie["title"].Text?;
      TidyStrips(movie["title"].s);
      hide NormalizeTitleArticle, Strip, Exportable, Content;
      assert content["title" := content["title"]] == content;
    }
  }

  /** What the sheet gives back is what the movie held. */
  lemma RowIsLossless(movie: Attrs, mappings: seq<ColumnMapping>)
    requires Exportable(movie) && Understood(mappings)
    ensures RowPayload(ReadBack(movie), mappings, map[]) == Content(movie)
  {
    SuppliedBack(movie, mappings, 24);
    Lengths(mappings);
    assert mappings[..24] == mappings;
    LinksBack(movie);
    LinksContent(movie);
    TitleKept(movie);
    hide Exportable, Understood, Supplied, AssembleExternalIds, ReadBack, Content, ContentIn, LinksOf, WithTitle,
        AttributesBefore;
  }

  // ----- the headers -----

  /** A header of one or two words is normalised by its case alone. */
  lemma TwoWords(a: string, b: string)
    requires (forall c | c in a :: !White(c)) && (forall c | c in b :: !White(c)) && a != ""
    ensures b == "" ==> NormalizeHeader(a) == Lower(a)
    ensures b != "" ==> NormalizeHeader(a + " " + b) == Lower(a + " " + b) && Words(a + " " + b) == [a, b]
  {
    assert "" + a == a;
    if b == "" {
      WordsOfOne(a, "");
    } else {
      WordsOfTwo(a, b, "");
      assert [a, b][1..] == [b];
      assert Join([a, b], ' ') == a + " " + b;
    }
  }

  lemma FirstHeadersFold(i: nat)
    requires 0 <= i < 8
    ensures NormalizeHeader(EXPORT_COLUMNS[i]) == Lower(EXPORT_COLUMNS[i])
  {
    hide NormalizeHeader, Lower;
    if i == 0 {
      TwoWords("Title", "");
    } else if i == 1 {
      TwoWords("Year", "");
    } else if i == 2 {
      TwoWords("Video", "Type"); assert "Video" + " " + "Type" == "Video Type";
    } else if i == 3 {
      TwoWords("Language", "");
    } else if i == 4 {
      TwoWords("Original", "Title"); assert "Original" + " " + "Title" == "Original Title";
    } else if i == 5 {
      TwoWords("Release", "Date"); assert "Release" + " " + "Date" == "Release Date";
    } else if i == 6 {
      TwoWords("Runtime", "");
    } else {
      TwoWords("MPAA", "");
    }
  }

  lemma MiddleHeadersFold(i: nat)
    requires 8 <= i < 16
    ensures NormalizeHeader(EXPORT_COLUMNS[i]) == Lower(EXPORT_COLUMNS[i])
  {
    hide NormalizeHeader, Lower;
    if i == 8 {
      TwoWords("Owned", "");
    } else if i == 9 {
      TwoWords("Ripped", "");
    } else if i == 10 {
      TwoWords("Children's", "");
    } else if i == 11 {
      TwoWords("Set", "");
    } else if i == 12 {
      TwoWords("Outline", "");
    } else if i == 13 {
      TwoWords("Plot", "");
    } else if i == 14 {
      TwoWords("Directors", "");
    } else {
      TwoWords("Actors", "");
    }
  }

  lemma LastHeadersFold(i: nat)
    requires 16 <= i < 24
    ensures NormalizeHeader(EXPORT_COLUMNS[i]) == Lower(EXPORT_COLUMNS[i])
  {
    hide NormalizeHeader, Lower;
    if i == 16 {
      TwoWords("Genres", "");
    } else if i == 17 {
      TwoWords("Tags", "");
    } else if i == 18 {
      TwoWords("Media", "");
    } else if i == 19 {
      TwoWords("Rip", "Quality"); assert "Rip" + " " + "Quality" == "Rip Quality";
    } else if i == 20 {
      TwoWords("IMDB", "Id"); assert "IMDB" + " " + "Id" == "IMDB Id";
    } else if i == 21 {
      TwoWords("IMDB", "URL"); assert "IMDB" + " " + "URL" == "IMDB URL";
    } else if i == 22 {
      TwoWords("TMDB", "Id"); assert "TMDB" + " " + "Id" == "TMDB Id";
    } else {
      TwoWords("TMDB", "URL"); assert "TMDB" + " " + "URL" == "TMDB URL";
    }
  }

  /** Every exported header is normalised by its case alone. */
  lemma HeaderFolds(i: nat)
    requires i < 24
    ensures NormalizeHeader(EXPORT_COLUMNS[i]) == Lower(EXPORT_COLUMNS[i])
  {
    hide *;
    if i < 8 {
      FirstHeadersFold(i);
    } else if i < 16 {
      MiddleHeadersFold(i);
    } else {
      LastHeadersFold(i);
    }
  }

  lemma FirstHeadersMean(i: nat)
    requires 0 <= i < 3
    ensures Lower(EXPORT_COLUMNS[i]) in ALIASES && ALIASES[Lower(EXPORT_COLUMNS[i])] == AttributeAt(i)
  {
    if i == 0 {
      assert Lower("Title") == "title" && ALIASES["title"] == "title";
    } else if i == 1 {
      assert Lower("Year") == "year" && ALIASES["year"] == "year";
    } else {
      assert Lower("Video Type") == "video type" && ALIASES["video type"] == "contentType";
    }
  }

  lemma SecondHeadersMean(i: nat)
    requires 3 <= i < 6
    ensures Lower(EXPORT_COLUMNS[i]) in ALIASES && ALIASES[Lower(EXPORT_COLUMNS[i])] == AttributeAt(i)
  {
    if i == 3 {
      assert Lower("Language") == "language" && ALIASES["language"] == "language";
    } else if i == 4 {
      assert Lower("Original Title") == "original title" && ALIASES["original title"] == "originalTitle";
    } else {
      assert Lower("Release Date") == "release date" && ALIASES["release date"] == "releaseDate";
    }
  }

  lemma ThirdHeadersMean(i: nat)
    requires 6 <= i < 9
    ensures Lower(EXPORT_COLUMNS[i]) in ALIASES && ALIASES[Lower(EXPORT_COLUMNS[i])] == AttributeAt(i)
  {
    if i == 6 {
      assert Lower("Runtime") == "runtime" && ALIASES["runtime"] == "runtime";
    } else if i == 7 {
      assert Lower("MPAA") == "mpaa" && ALIASES["mpaa"] == "rated";
    } else {
      assert Lower("Owned") == "owned" && ALIASES["owned"] == "owned";
    }
  }

  lemma FourthHeadersMean(i: nat)
    requires 9 <= i < 12
    ensures Lower(EXPORT_COLUMNS[i]) in ALIASES && ALIASES[Lower(EXPORT_COLUMNS[i])] == AttributeAt(i)
  {
    if i == 9 {
      assert Lower("Ripped") == "ripped" && ALIASES["ripped"] == "ripped";
    } else if i == 10 {
      assert Lower("Children's") == "children's" && ALIASES["children's"] == "childrens";
    } else {
      assert Lower("Set") == "set" && ALIASES["set"] == "movieSet";
    }
  }

  lemma FifthHeadersMean(i: nat)
    requires 12 <= i < 15
    ensures Lower(EXPORT_COLUMNS[i]) in ALIASES && ALIASES[Lower(EXPORT_COLUMNS[i])] == AttributeAt(i)
  {
    if i == 12 {
      assert Lower("Outline") == "outline" && ALIASES["outline"] == "outline";
    } else if i == 13 {
      assert Lower("Plot") == "plot" && ALIASES["plot"] == "plot";
    } else {
      assert Lower("Directors") == "directors" && ALIASES["directors"] == "directors";
    }
  }

  lemma SixthHeadersMean(i: nat)
    requires 15 <= i < 18
    ensures Lower(EXPORT_COLUMNS[i]) in ALIASES && ALIASES[Lower(EXPORT_COLUMNS[i])] == AttributeAt(i)
  {
    if i == 15 {
      assert Lower("Actors") == "actors" && ALIASES["actors"] == "actors";
    } else if i == 16 {
      assert Lower("Genres") == "genres" && ALIASES["genres"] == "genres";
    } else {
      assert Lower("Tags") == "tags" && ALIASES["tags"] == "tags";
    }
  }

  lemma SeventhHeadersMean(i: nat)
    requires 18 <= i < 20
    ensures Lower(EXPORT_COLUMNS[i]) in ALIASES && ALIASES[Lower(EXPORT_COLUMNS[i])] == AttributeAt(i)
  {
    if i == 18 {
      assert Lower("Media") == "media" && ALIASES["media"] == "ownedMedia";
    } else {
      assert Lower("Rip Quality") == "rip quality" && ALIASES["rip quality"] == "ripQuality";
    }
  }

  lemma TypedHeader(i: nat, column: Column)
    requires i < 20 && column.header == EXPORT_COLUMNS[i]
    ensures ResolveColumn(column)
            == ColumnMapping(EXPORT_COLUMNS[i], Some(AttributeAt(i)), High, AttributeAt(i) in MULTI_VALUE, [])
  {
    HeaderFolds(i);
    hide EXPORT_COLUMNS, ALIASES, NormalizeHeader, Lower, AttributeAt, SCALAR_COLUMNS, MULTI_COLUMNS, MULTI_VALUE;
    if i < 3 {
      FirstHeadersMean(i);
    } else if i < 6 {
      SecondHeadersMean(i);
    } else if i < 9 {
      ThirdHeadersMean(i);
    } else if i < 12 {
      FourthHeadersMean(i);
    } else if i < 15 {
      FifthHeadersMean(i);
    } else if i < 18 {
      SixthHeadersMean(i);
    } else {
      SeventhHeadersMean(i);
    }
  }

  lemma ExternalHeadersMean()
    ensures Lower("IMDB Id") in ALIASES && ALIASES[Lower("IMDB Id")] == "externalIds"
    ensures Lower("IMDB URL") in ALIASES && ALIASES[Lower("IMDB URL")] == "externalIds"
    ensures Lower("TMDB Id") in ALIASES && ALIASES[Lower("TMDB Id")] == "externalIds"
  {
    assert Lower("IMDB Id") == "imdb id" && Lower("IMDB URL") == "imdb url" && Lower("TMDB Id") == "tmdb id";
  }

  lemma UrlHeaderMeansNothing()
    ensures Lower("TMDB URL") !in ALIASES
    ensures "rating" !in Words(Lower("TMDB URL")) && "score" !in Words(Lower("TMDB URL"))
  {
    assert Lower("TMDB URL") == "tmdb url";
    TwoWords("tmdb", "url");
    assert "tmdb" + " " + "url" == "tmdb url";
  }

  lemma ExternalHeader(i: nat, column: Column)
    requires 20 <= i < 24 && column.header == EXPORT_COLUMNS[i]
    ensures var m := ResolveColumn(column);
            m.attribute.None? || m.confidence != High || m.attribute == Some("externalIds")
  {
    HeaderFolds(i);
    ExternalColumns();
    ExternalHeadersMean();
    UrlHeaderMeansNothing();
    hide ALIASES, NormalizeHeader, Lower, Words, LooksMpaa, LooksNumeric, EXPORT_COLUMNS, MULTI_VALUE;
  }

  ghost predicate ExportHeaders(columns: seq<Column>) {
    |columns| == 24 && forall i | 0 <= i < 24 :: columns[i].header == EXPORT_COLUMNS[i]
  }

  lemma HeadersAreUnderstood(columns: seq<Column>)
    requires ExportHeaders(columns)
    ensures Understood(ResolveColumns(columns))
  {
    hide ResolveColumn, AttributeAt, EXPORT_COLUMNS, MULTI_VALUE;
    forall i | 0 <= i < 20 { TypedHeader(i, columns[i]); }
    forall i | 20 <= i < 24 { ExternalHeader(i, columns[i]); }
  }

  // ----- the whole sheet -----

  /** The sheet of a collection: the header row, then one row of cells for each movie. */
  function SheetOf(movies: seq<Attrs>): (grid: seq<seq<string>>)
    ensures |grid| == |movies| + 1
  {
    [EXPORT_COLUMNS] + SheetRows(movies)
  }

  function SheetRows(movies: seq<Attrs>): (rows: seq<seq<string>>)
    ensures |rows| == |movies|
  {
    seq(|movies|, k requires 0 <= k < |movies| => ExportedCells(movies[k]))
  }

  function Places(n: nat): (r: seq<(nat, string)>)
    requires n <= 24
    ensures |r| == n
  {
    seq(n, i requires 0 <= i < n => (i, EXPORT_COLUMNS[i]))
  }

  lemma HeaderIsPlain(i: nat)
    requires i < 24
    ensures var h := EXPORT_COLUMNS[i]; h != "" && Trimmed(h) && Unguarded(h) == h
  {
  }

  lemma IndexedStep(header: seq<string>, n: nat)
    requires 0 < n <= |header| && header[n - 1] != "" && Trimmed(header[n - 1]) && Unguarded(header[n - 1]) == header[n - 1]
    ensures Indexed(header, n) == Indexed(header, n - 1) + [(n - 1, header[n - 1])]
  {
    StripTrims(header[n - 1]);
    hide Strip, Unguarded, Trimmed;
  }

  lemma {:induction false} HeadersIndexed(n: nat)
    requires n <= 24
    ensures Indexed(EXPORT_COLUMNS, n) == Places(n)
  {
    if n > 0 {
      HeaderCount();
      hide *;
      HeadersIndexed(n - 1);
      HeaderIsPlain(n - 1);
      IndexedStep(EXPORT_COLUMNS, n);
      PlacesStep(n);
    }
  }

  lemma {:induction false} PutNew(row: Row, header: string, cell: string)
    requires forall k | 0 <= k < |row| :: row[k].0 != header
    ensures PutCell(row, header, cell) == row + [(header, cell)]
  {
    if row != [] {
      PutNew(row[1..], header, cell);
    }
  }

  lemma PlacesStep(n: nat)
    requires 0 < n <= 24
    ensures Places(n) == Places(n - 1) + [(n - 1, EXPORT_COLUMNS[n - 1])]
  {
    hide EXPORT_COLUMNS;
  }

  lemma RowOfSnoc(indexed: seq<(nat, string)>, values: seq<string>, i: nat, header: string)
    ensures RowOf(indexed + [(i, header)], values) == PutCell(RowOf(indexed, values), header, CellAt(values, i))
  {
    hide PutCell, CellAt;
    assert (indexed + [(i, header)])[..|indexed|] == indexed;
  }

  lemma ReadBackStep(movie: Attrs, n: nat)
    requires 0 < n <= 24
    ensures PutCell(ReadBack(movie)[..n - 1], EXPORT_COLUMNS[n - 1], CellAt(ExportedCells(movie), n - 1))
            == ReadBack(movie)[..n]
  {
    hide CellFor, CellText, Unguarded, Lower, PutCell;
    var all := ReadBack(movie);
    var row := all[..n - 1];
    assert all[n - 1] == (EXPORT_COLUMNS[n - 1], CellAt(ExportedCells(movie), n - 1));
    assert all[..n] == row + [all[n - 1]];
    forall k | 0 <= k < |row| ensures row[k].0 != EXPORT_COLUMNS[n - 1] {
      ColumnsDiffer(k, n - 1);
    }
    PutNew(row, EXPORT_COLUMNS[n - 1], CellAt(ExportedCells(movie), n - 1));
  }

  lemma {:induction false} RowReadBack(movie: Attrs, n: nat)
    requires n <= 24
    ensures RowOf(Places(n), ExportedCells(movie)) == ReadBack(movie)[..n]
  {
    if n > 0 {
      hide *;
      RowReadBack(movie, n - 1);
      PlacesStep(n);
      HeaderCount();
      RowOfSnoc(Places(n - 1), ExportedCells(movie), n - 1, EXPORT_COLUMNS[n - 1]);
      ReadBackStep(movie, n);
    } else {
      hide ReadBack, ExportedCells;
    }
  }

  lemma HeaderCount()
    ensures |EXPORT_COLUMNS| == 24
  {
  }

  ghost predicate Titled(movie: Attrs) {
    "title" in movie && movie["title"].Text?
  }

  lemma TitleCell(movie: Attrs)
    requires Titled(movie)
    ensures CellFor(movie, 0) == Scalar(movie["title"])
  {
    assert SCALAR_COLUMNS[0].1 == "title";
    assert "title" !in BOOLEAN_ATTRS;
  }

  lemma TitledHasValue(movie: Attrs)
    requires Exportable(movie) && Titled(movie)
    ensures HasValue(Places(24), ExportedCells(movie))
  {
    assert Portable("title", movie["title"]);
    TidyStrips(movie["title"].s);
    TitleCell(movie);
    assert !LooksGuarded(Rendered(CellFor(movie, 0)));
    GuardRestored(movie["title"].s);
    hide Blank, Exportable, CellFor, Portable, Strip, LooksGuarded, Guarded, Unguarded;
    assert CellAt(ExportedCells(movie), 0) == movie["title"].s;
    assert Places(24)[0].0 == 0;
  }

  ghost predicate AllExportable(movies: seq<Attrs>) {
    forall k | 0 <= k < |movies| :: Exportable(movies[k]) && Titled(movies[k])
  }

  function ReadBackAll(movies: seq<Attrs>): (r: seq<Row>)
    ensures |r| == |movies|
  {
    seq(|movies|, k requires 0 <= k < |movies| => ReadBack(movies[k]))
  }

  lemma RowSnoc(movies: seq<Attrs>, movie: Attrs)
    ensures SheetRows(movies + [movie]) == SheetRows(movies) + [ExportedCells(movie)]
    ensures ReadBackAll(movies + [movie]) == ReadBackAll(movies) + [ReadBack(movie)]
  {
    hide ExportedCells, ReadBack;
  }

  lemma DataSnoc(indexed: seq<(nat, string)>, rows: seq<seq<string>>, values: seq<string>)
    requires HasValue(indexed, values)
    ensures DataRows(indexed, rows + [values]) == DataRows(indexed, rows) + [RowOf(indexed, values)]
  {
    hide HasValue, RowOf;
    assert (rows + [values])[..|rows|] == rows;
  }

  lemma {:induction false} RowsReadBack(movies: seq<Attrs>)
    requires AllExportable(movies)
    ensures DataRows(Places(24), SheetRows(movies)) == ReadBackAll(movies)
  {
    hide Exportable, Titled, ReadBack, ExportedCells, HasValue, RowOf, Places;
    if movies != [] {
      var n := |movies| - 1;
      var before, movie := movies[..n], movies[n];
      assert movies == before + [movie];
      RowsReadBack(before);
      hide SheetRows, ReadBackAll, DataRows;
      RowSnoc(before, movie);
      TitledHasValue(movie);
      RowReadBack(movie, 24);
      assert ReadBack(movie)[..24] == ReadBack(movie);
      DataSnoc(Places(24), SheetRows(before), ExportedCells(movie));
    }
  }

  lemma ExportIsEligible()
    ensures Eligible(Places(24))
  {
    var p := Places(24);
    assert Lower("Title") == "title" && Lower("Year") == "year" && Lower("Video Type") == "video type";
    assert p[0].1 == "Title" && p[1].1 == "Year" && p[2].1 == "Video Type";
  }

  lemma TabParts(name: string, header: seq<string>, rows: seq<seq<string>>, sampleSize: nat)
    ensures var tab, indexed := TabOf(name, [header] + rows, sampleSize), Indexed(header, |header|);
            tab == Tab(name, Eligible(indexed), ColumnsOf(indexed, rows, sampleSize), DataRows(indexed, rows))
  {
    hide Indexed, Eligible, ColumnsOf, DataRows;
    assert ([header] + rows)[1..] == rows;
  }

  lemma PlacedHeaders(rows: seq<seq<string>>, sampleSize: nat)
    ensures ExportHeaders(ColumnsOf(Places(24), rows, sampleSize))
  {
    hide FilledUnder, FirstFew, EXPORT_COLUMNS;
  }

  lemma SheetReadBack(name: string, movies: seq<Attrs>, sampleSize: nat)
    requires AllExportable(movies)
    ensures var tab := TabOf(name, SheetOf(movies), sampleSize);
            tab.eligible && tab.rows == ReadBackAll(movies) && ExportHeaders(tab.columns)
  {
    HeaderCount();
    hide TabOf, Indexed, DataRows, Eligible, AllExportable, ReadBackAll, ColumnsOf, SheetRows, EXPORT_COLUMNS,
        ExportHeaders, Places;
    HeadersIndexed(24);
    RowsReadBack(movies);
    ExportIsEligible();
    PlacedHeaders(SheetRows(movies), sampleSize);
    TabParts(name, EXPORT_COLUMNS, SheetRows(movies), sampleSize);
  }

  /**
   A collection exported to a sheet, the sheet parsed and its rows typed again: one row for each movie,
   in order, holding exactly what the movie held.
   */
  lemma SheetIsLossless(name: string, movies: seq<Attrs>, sampleSize: nat)
    requires AllExportable(movies)
    ensures var tab := TabOf(name, SheetOf(movies), sampleSize);
            && tab.eligible && |tab.rows| == |movies|
            && forall k | 0 <= k < |movies| ::
                 RowPayload(tab.rows[k], ResolveColumns(tab.columns), map[]) == Content(movies[k])
  {
    hide TabOf, Exportable, ReadBack, Content, RowPayload, Understood, ResolveColumns, ExportHeaders;
    SheetReadBack(name, movies, sampleSize);
    var tab := TabOf(name, SheetOf(movies), sampleSize);
    HeadersAreUnderstood(tab.columns);
    forall k | 0 <= k < |movies|
      ensures RowPayload(tab.rows[k], ResolveColumns(tab.columns), map[]) == Content(movies[k])
    {
      RowIsLossless(movies[k], ResolveColumns(tab.columns));
    }
  }
}
