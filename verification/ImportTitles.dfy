/**
 Which uncertain titles of a sheet the member is asked about.  The questions look for a row's title under
 the headers "Title" and "title"; the import takes it from whatever column was understood as the title.
 */
module ImportTitles {
  import opened Common
  import opened Text
  import M = MovieStore
  import opened ImportRows
  import opened ImportPreview
  import opened PickOption
  import opened Replies
  import opened ImportWizard

  /** The title the mapped columns of a row supply. */
  function ImportedTitle(row: Row, mappings: seq<ColumnMapping>): Option<string> {
    var supplied := Supplied(row, mappings);
    if "title" in supplied then Some(Strip(TitleText(supplied["title"]))) else None
  }

  /** Some row to be imported shows the title under "Title", or under "title" when the former is empty. */
  ghost predicate Shown(tabs: seq<Tab>, title: string) {
    exists tab, row :: tab in tabs && tab.eligible && row in tab.rows && RowTitle(row) == title
  }

  /** A row without the header "Title", or with nothing in it, shows what it has under "title", and no other header
      counts. */
  lemma WhatARowShows(row: Row, title: string)
    requires title != ""
    ensures RowTitle(row) == title <==>
              || (Cell(row, "Title") != "" && Strip(Cell(row, "Title")) == title)
              || (Cell(row, "Title") == "" && Strip(Cell(row, "title")) == title)
  {
    hide Cell, Strip;
  }

  ghost predicate AsksAbout(prompts: seq<Prompt>, title: string) {
    exists p | p in prompts :: p.key == title
  }

  lemma {:induction false} RowsAskAboutShown(rows: seq<Row>)
    ensures forall p | p in ArticleCandidatesIn(rows) :: exists row | row in rows :: RowTitle(row) == p.key
  {
    if rows != [] {
      hide RowTitle, Uncertain, ArticlePrompt;
      var before, last := rows[..|rows| - 1], rows[|rows| - 1];
      RowsAskAboutShown(before);
      PromptKeys(ColumnMapping("", None, Low, false, []), RowTitle(last));
      RowTitleTrimmed(last);
      assert last in rows && forall row | row in before :: row in rows;
    }
  }

  lemma {:induction false} AskedIsShown(tabs: seq<Tab>)
    ensures forall p | p in ArticleCandidates(tabs) :: Shown(tabs, p.key)
  {
    if tabs != [] {
      hide RowTitle, ArticleCandidatesIn;
      var before, tab := tabs[..|tabs| - 1], tabs[|tabs| - 1];
      AskedIsShown(before);
      RowsAskAboutShown(tab.rows);
      forall p | p in ArticleCandidates(tabs)
        ensures Shown(tabs, p.key)
      {
        if p in ArticleCandidates(before) {
          var t, row :| t in before && t.eligible && row in t.rows && RowTitle(row) == p.key;
          assert t in tabs;
        } else {
          var row :| row in tab.rows && RowTitle(row) == p.key;
          assert tab in tabs;
        }
      }
    }
  }

  /** An uncertain title is among the article questions of a file exactly when some row shows it. */
  lemma AskedIffShown(tabs: seq<Tab>, title: string)
    requires Uncertain(title)
    ensures AsksAbout(ArticleCandidates(tabs), title) <==> Shown(tabs, title)
  {
    hide RowTitle, Uncertain, ArticlePrompt, ArticleCandidates, ArticleCandidatesIn;
    AskedIsShown(tabs);
    if Shown(tabs, title) {
      var tab, row :| tab in tabs && tab.eligible && row in tab.rows && RowTitle(row) == title;
      TabRaises(tabs, [], tab);
      RowRaises(tab.rows, row);
      PromptKeys(ColumnMapping("", None, Low, false, []), title);
      RowTitleTrimmed(row);
      assert ArticlePrompt(title).key == title;
    }
  }

  // ----- over a whole conversation -----

  /** Every title decided so far was shown. */
  ghost predicate DecidedWereShown(book: Book, res: Resolutions) {
    forall title | title in res.article :: Shown(book.tabs, title)
  }

  function ResolutionsOf(w: Wizard): Resolutions {
    match w
    case Asking(res, _, _, _) => res
    case Planning(res) => res
    case _ => NO_RESOLUTIONS
  }

  /** A question left that is about a title is about one that is shown. */
  lemma LeftIsShown(book: Book, res: Resolutions, p: Prompt)
    requires p in Left(book, res) && p.kind.ArticleQuestion?
    ensures Shown(book.tabs, p.key) && Strip(p.key) == p.key
  {
    hide CollectionCandidates, ColumnCandidates, ArticleCandidates, Open, Strip, Shown;
    var cs, hs, ts := CollectionCandidates(book.tabs, book.collections), ColumnCandidates(book.tabs),
        ArticleCandidates(book.tabs);
    CandidateKinds(book.tabs, book.collections);
    OpenIsAsked(cs, res.collection.Keys, false);
    OpenIsAsked(hs, res.column.Keys, true);
    OpenIsAsked(ts, res.article.Keys, true);
    AskedIsShown(book.tabs);
    assert p in cs || p in hs || p in ts;
  }

  lemma ReplyKeepsShown(book: Book, w: Wizard, text: string)
    requires w.Asking? && Valid(book, w) && DecidedWereShown(book, w.res)
    ensures DecidedWereShown(book, ResolutionsOf(Reply(book, w, text)))
  {
    hide IsCancelImport, ResolveOption, Sound, CountRows, Outstanding, Shown, Strip;
    if w.prompt.kind.ArticleQuestion? {
      LeftIsShown(book, w.res, w.prompt);
    }
  }

  lemma {:induction false} ConversationKeepsShown(book: Book, w: Wizard, replies: seq<string>)
    requires Valid(book, w) && DecidedWereShown(book, ResolutionsOf(w))
    ensures DecidedWereShown(book, ResolutionsOf(Converse(book, w, replies)))
    decreases |replies|
  {
    if replies != [] && w.Asking? {
      ReplyKeepsShown(book, w, replies[0]);
      ReplyIsValid(book, w, replies[0]);
      hide Reply, Valid, DecidedWereShown;
      ConversationKeepsShown(book, Reply(book, w, replies[0]), replies[1..]);
    }
  }

  /** An undecided title with an uncertain ending is stored as it stands. */
  lemma UndecidedIsKept(row: Row, mappings: seq<ColumnMapping>, articles: map<string, string>, title: string)
    requires ImportedTitle(row, mappings) == Some(title) && Uncertain(title) && title !in articles
    ensures M.Field(RowPayload(row, mappings, articles), "title") == M.Text(title)
  {
    hide Supplied, AssembleExternalIds, LastComma, Article, Blank;
    StripTrims(TitleText(Supplied(row, mappings)["title"]));
    StripTrims(title);
  }

  /**
   Whatever the member replies: when an import is ready to be planned, an uncertain title that a row's
   columns supply has been decided exactly when some row shows it under "Title" or "title"; the row's own
   title is such a title when the row shows what it supplies.  A title not decided is stored as it stands.
   */
  lemma UncertainTitleIsDecidedIffShown(book: Book, replies: seq<string>, tab: Tab, row: Row, title: string)
    requires var w := Converse(book, Start(book), replies);
             w.Planning? && ImportedTitle(row, MappingsOf(tab.columns, w.final.column)) == Some(title)
    requires tab in book.tabs && tab.eligible && row in tab.rows && Uncertain(title)
    ensures var res := Converse(book, Start(book), replies).final;
            && (title in res.article <==> Shown(book.tabs, title))
            && (RowTitle(row) == title ==> title in res.article)
            && (title !in res.article ==>
                  M.Field(RowPayload(row, MappingsOf(tab.columns, res.column), res.article), "title") == M.Text(title))
  {
    hide MappingsOf, ImportedTitle, Uncertain, RowTitle, RowPayload;
    var w := Converse(book, Start(book), replies);
    AskOrPlanIsValid(book, NO_RESOLUTIONS);
    ConversationKeepsShown(book, Start(book), replies);
    PlanningIsComplete(book, replies);
    hide Converse, Start;
    if Shown(book.tabs, title) {
      var t, r :| t in book.tabs && t.eligible && r in t.rows && RowTitle(r) == title;
      assert Settled(t, book.collections, w.final);
    }
    if title !in w.final.article {
      UndecidedIsKept(row, MappingsOf(tab.columns, w.final.column), w.final.article, title);
    }
  }

  // ----- sheets whose titles are not asked about -----

  lemma SplitAtComma(head: string, word: string)
    requires Trimmed(word) && word != [] && ',' !in word && head != [] && !White(head[0])
    ensures var title := head + "," + (" " + word);
            && Strip(title) == title && LastComma(title) == Some(|head|)
            && title[|head| + 1..] == " " + word && title[..|head|] == head && Strip(" " + word) == word
  {
    var title := head + "," + (" " + word);
    LastCommaAt(head, " " + word);
    StripTrims(title);
    StripLead(word);
    hide LastComma, Strip;
  }

  /** One word after the last comma, not an article, needs asking. */
  lemma OneWordIsUncertain(head: string, word: string)
    requires Trimmed(word) && word != [] && ',' !in word && ' ' !in word && Article(word).None?
    requires head != [] && !White(head[0]) && '\n' !in head
    ensures NormalizeTitleArticle(head + "," + (" " + word)).needsConfirm
  {
    hide LastComma, Strip, Article;
    SplitAtComma(head, word);
  }

  lemma ImportedAs(column: Column)
    requires NormalizeHeader(column.header) == "title"
    ensures ResolveColumn(column) == ColumnMapping(column.header, Some("title"), High, false, [])
  {
    hide NormalizeHeader;
    assert "title" in ALIASES && ALIASES["title"] == "title" && "title" !in MULTI_VALUE;
  }

  lemma TitleHeader(header: string)
    requires Lower(header) == "title" && (forall c | c in header :: !White(c)) && header != ""
    ensures NormalizeHeader(header) == "title"
  {
    WordsOfOne(header, "");
    assert "" + header == header;
  }

  lemma LeninIsUncertain()
    ensures Uncertain("Goodbye, Lenin") && Strip("Goodbye, Lenin") == "Goodbye, Lenin"
  {
    LeninIsNoArticle();
    hide Strip, NormalizeTitleArticle, LastComma, Article;
    OneWordIsUncertain("Goodbye", "Lenin");
    assert "Goodbye" + "," + (" " + "Lenin") == "Goodbye, Lenin";
    SplitAtComma("Goodbye", "Lenin");
  }

  lemma LeninIsNoArticle()
    ensures Article("Lenin").None?
  {
    assert Lower("Lenin")[0] == 'l';
  }

  const SHOUTED := Tab("Films", true, [Column("TITLE", [])], [[("TITLE", "Goodbye, Lenin")]])

  lemma OneCell(header: string, text: string, m: ColumnMapping)
    requires m == ColumnMapping(header, Some("title"), High, false, []) && Strip(text) == text && text != ""
    ensures ImportedTitle([(header, text)], [m]) == Some(text)
  {
    hide Strip;
    assert [m][..0] == [];
    assert Supplied([(header, text)], [m]) == Supply(map[], [(header, text)], m);
  }

  lemma ShoutedHeader()
    ensures NormalizeHeader("TITLE") == "title"
  {
    assert Lower("TITLE") == "title";
    TitleHeader("TITLE");
  }

  lemma NothingShown()
    ensures RowTitle(SHOUTED.rows[0]) == ""
  {
    assert "TITLE"[1] == 'I' && "Title"[1] == 'i' && "title"[1] == 'i';
    var row := SHOUTED.rows[0];
    assert row[1..] == [] && Cell([], "Title") == "" && Cell([], "title") == "";
    assert Cell(row, "Title") == "" && Cell(row, "title") == "";
    TrimmedIsKept("");
  }

  lemma ShoutedIsImported()
    ensures ImportedTitle(SHOUTED.rows[0], MappingsOf(SHOUTED.columns, map[])) == Some("Goodbye, Lenin")
  {
    hide NormalizeHeader, ResolveColumn, Strip, ImportedTitle, Uncertain;
    ShoutedHeader();
    ImportedAs(Column("TITLE", []));
    LeninIsUncertain();
    assert MappingsOf(SHOUTED.columns, map[]) == [ColumnMapping("TITLE", Some("title"), High, false, [])];
    OneCell("TITLE", "Goodbye, Lenin", ColumnMapping("TITLE", Some("title"), High, false, []));
  }

  /** A column headed "TITLE" is imported as the title, but its titles are not shown. */
  lemma ShoutedTitlesAreNotAsked()
    ensures var row, title := SHOUTED.rows[0], "Goodbye, Lenin";
            && ImportedTitle(row, MappingsOf(SHOUTED.columns, map[])) == Some(title) && Uncertain(title)
            && !AsksAbout(ArticleCandidates([SHOUTED]), title)
  {
    hide ArticleCandidates, Uncertain, Strip, RowTitle, ImportedTitle, MappingsOf;
    ShoutedIsImported();
    NothingShown();
    LeninIsUncertain();
    AskedIffShown([SHOUTED], "Goodbye, Lenin");
  }

  /** Both headers: the later column is imported, the earlier one is shown. */
  const TWICE := Tab("Films", true, [Column("Title", []), Column("title", [])],
                     [[("Title", "Alien"), ("title", "Goodbye, Lenin")]])

  lemma TwoCells(row: Row, a: ColumnMapping, b: ColumnMapping, text: string)
    requires b == ColumnMapping(b.header, Some("title"), High, false, []) && Cell(row, b.header) == text
    requires Strip(text) == text && text != ""
    ensures ImportedTitle(row, [a, b]) == Some(text)
  {
    hide Strip, Cell;
    assert [a, b][..1] == [a];
    var before := Supplied(row, [a]);
    assert Supplied(row, [a, b]) == Supply(before, row, b);
    hide Supplied;
  }

  lemma ShownOfTwice()
    ensures RowTitle(TWICE.rows[0]) == "Alien" && Cell(TWICE.rows[0], "title") == "Goodbye, Lenin"
  {
    assert "Title"[0] == 'T' && "title"[0] == 't';
    var row := TWICE.rows[0];
    assert row[1..] == [("title", "Goodbye, Lenin")];
    assert Cell(row, "Title") == "Alien" && Cell(row, "title") == Cell(row[1..], "title") == "Goodbye, Lenin";
    TrimmedIsKept("Alien");
  }

  lemma SmallHeader()
    ensures NormalizeHeader("title") == "title"
  {
    assert Lower("title") == "title";
    TitleHeader("title");
  }

  lemma SecondIsImported()
    ensures ImportedTitle(TWICE.rows[0], MappingsOf(TWICE.columns, map[])) == Some("Goodbye, Lenin")
  {
    hide NormalizeHeader, ResolveColumn, Strip, RowTitle, Uncertain, ImportedTitle, Cell, Lower;
    SmallHeader();
    ShownOfTwice();
    LeninIsUncertain();
    ImportedAs(Column("title", []));
    var ms := MappingsOf(TWICE.columns, map[]);
    assert ms == [ms[0], ColumnMapping("title", Some("title"), High, false, [])];
    TwoCells(TWICE.rows[0], ms[0], ms[1], "Goodbye, Lenin");
  }

  lemma SecondTitleIsNotAsked()
    ensures var row, title := TWICE.rows[0], "Goodbye, Lenin";
            && ImportedTitle(row, MappingsOf(TWICE.columns, map[])) == Some(title) && Uncertain(title)
            && RowTitle(row) == "Alien"
            && !AsksAbout(ArticleCandidates([TWICE]), title)
  {
    hide ArticleCandidates, Uncertain, Strip, RowTitle, ImportedTitle, MappingsOf;
    SecondIsImported();
    ShownOfTwice();
    LeninIsUncertain();
    assert "Alien"[0] != "Goodbye, Lenin"[0];
    AskedIffShown([TWICE], "Goodbye, Lenin");
  }

  lemma TrimmedIsKept(s: string)
    requires Trimmed(s)
    ensures Strip(s) == s
  {
    StripTrims(s);
  }

  lemma {:induction false} LastCommaAt(before: string, after: string)
    requires ',' !in after
    ensures LastComma(before + "," + after) == Some(|before|)
  {
    var s := before + "," + after;
    if after != [] {
      assert s[..|s| - 1] == before + "," + after[..|after| - 1];
      LastCommaAt(before, after[..|after| - 1]);
      assert s[|s| - 1] == after[|after| - 1];
    }
  }
}
