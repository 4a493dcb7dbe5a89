/**
 The import's questions: what still needs the member's decision is computed again from the sheets and
 the answers so far after every reply, until nothing is left to ask.
 */
module ImportWizard {
  import opened Common
  import opened Text
  import opened MovieStore
  import opened ImportRows
  import opened Proposals
  import opened ImportPlan
  import opened Reimport
  import opened ImportPreview
  import opened PickOption
  import opened Replies

  datatype Kind = CollectionQuestion | ColumnQuestion | ArticleQuestion

  datatype Prompt = Prompt(kind: Kind, key: string, options: seq<Choice>)

  // ----- the three kinds of question -----

  function CollectionChoices(candidates: seq<Collection>): (r: seq<Choice>)
    ensures |r| == |candidates|
  {
    seq(|candidates|, i requires 0 <= i < |candidates| =>
      Choice(candidates[i].id, candidates[i].name, None, candidates[i].id))
  }

  function CollectionPrompt(tab: string, candidates: seq<Collection>): Prompt {
    Prompt(CollectionQuestion, tab, CollectionChoices(candidates))
  }

  function ColumnChoices(candidates: seq<string>): (r: seq<Choice>)
    ensures |r| == |candidates|
  {
    seq(|candidates|, i requires 0 <= i < |candidates| => Choice(candidates[i], candidates[i], None, candidates[i]))
  }

  function ColumnPrompt(header: string, candidates: seq<string>): Prompt {
    Prompt(ColumnQuestion, header,
           ColumnChoices(candidates) + [Choice(IGNORE_COLUMN, "Ignore this column", None, IGNORE_COLUMN)])
  }

  /** The last comma-separated chunk moved to the front. */
  function ReorderTrailing(title: string): string {
    var comma := LastComma(title);
    if comma.None? then title
    else
      var head, suffix := Strip(title[..comma.value]), Strip(title[comma.value + 1..]);
      if head != "" && suffix != "" then Strip(suffix + " " + head) else title
  }

  function ArticlePrompt(raw: string): Prompt {
    var title := Strip(raw);
    var reordered := ReorderTrailing(title);
    Prompt(ArticleQuestion, title,
           [Choice("keep", title, None, title)]
           + if reordered != "" && reordered != title then [Choice("reorder", reordered, None, reordered)] else [])
  }

  // ----- what could be asked, whatever has been answered -----

  function CollectionCandidates(tabs: seq<Tab>, collections: seq<Collection>): seq<Prompt> {
    if tabs == [] then []
    else
      var n := |tabs| - 1;
      var (target, options) := ResolveTabCollection(tabs[n].name, collections);
      CollectionCandidates(tabs[..n], collections)
      + if tabs[n].eligible && target.None? then [CollectionPrompt(tabs[n].name, options)] else []
  }

  function ColumnCandidatesIn(columns: seq<Column>): seq<Prompt> {
    if columns == [] then []
    else
      var n := |columns| - 1;
      var m := ResolveColumn(columns[n]);
      ColumnCandidatesIn(columns[..n])
      + if m.confidence == Medium then [ColumnPrompt(m.header, m.candidates)] else []
  }

  function ColumnCandidates(tabs: seq<Tab>): seq<Prompt> {
    if tabs == [] then []
    else
      var n := |tabs| - 1;
      ColumnCandidates(tabs[..n]) + if tabs[n].eligible then ColumnCandidatesIn(tabs[n].columns) else []
  }

  /** The title a row shows under the header "Title" or "title". */
  function RowTitle(row: Row): string {
    Strip(if Cell(row, "Title") != "" then Cell(row, "Title") else Cell(row, "title"))
  }

  predicate Uncertain(title: string) {
    title != "" && NormalizeTitleArticle(title).needsConfirm
  }

  function ArticleCandidatesIn(rows: seq<Row>): seq<Prompt> {
    if rows == [] then []
    else
      var n := |rows| - 1;
      ArticleCandidatesIn(rows[..n])
      + if Uncertain(RowTitle(rows[n])) then [ArticlePrompt(RowTitle(rows[n]))] else []
  }

  function ArticleCandidates(tabs: seq<Tab>): seq<Prompt> {
    if tabs == [] then []
    else
      var n := |tabs| - 1;
      ArticleCandidates(tabs[..n]) + if tabs[n].eligible then ArticleCandidatesIn(tabs[n].rows) else []
  }

  // ----- what is still to be asked -----

  predicate KeyIn(prompts: seq<Prompt>, n: nat, key: string)
    requires n <= |prompts|
  {
    exists j | 0 <= j < n :: prompts[j].key == key
  }

  /** The questions not answered yet; with `once`, each key is asked the first time it comes up. */
  function Open(prompts: seq<Prompt>, answered: set<string>, once: bool): seq<Prompt> {
    if prompts == [] then []
    else
      var n := |prompts| - 1;
      Open(prompts[..n], answered, once)
      + if prompts[n].key in answered || (once && KeyIn(prompts, n, prompts[n].key)) then [] else [prompts[n]]
  }

  function Outstanding(tabs: seq<Tab>, collections: seq<Collection>, res: Resolutions): seq<Prompt> {
    Open(CollectionCandidates(tabs, collections), res.collection.Keys, false)
    + Open(ColumnCandidates(tabs), res.column.Keys, true)
    + Open(ArticleCandidates(tabs), res.article.Keys, true)
  }

  /** One more candidate question. */
  lemma OpenSnoc(prompts: seq<Prompt>, p: Prompt, answered: set<string>, once: bool)
    ensures Open(prompts + [p], answered, once)
            == Open(prompts, answered, once)
               + if p.key in answered || (once && KeyIn(prompts, |prompts|, p.key)) then [] else [p]
  {
    var all := prompts + [p];
    assert all[..|prompts|] == prompts;
    assert KeyIn(all, |prompts|, p.key) == KeyIn(prompts, |prompts|, p.key);
  }

  /** Keys asked so far. */
  ghost predicate SeenSoFar(seen: set<string>, prompts: seq<Prompt>, answered: set<string>) {
    forall k :: k in seen <==> KeyIn(prompts, |prompts|, k) && k !in answered
  }

  lemma SeenSnoc(seen: set<string>, prompts: seq<Prompt>, p: Prompt, answered: set<string>)
    requires SeenSoFar(seen, prompts, answered)
    ensures SeenSoFar(if p.key in answered then seen else seen + {p.key}, prompts + [p], answered)
  {
    forall k
      ensures KeyIn(prompts + [p], |prompts| + 1, k) <==> KeyIn(prompts, |prompts|, k) || k == p.key
    {
      if KeyIn(prompts, |prompts|, k) {
        var j :| 0 <= j < |prompts| && prompts[j].key == k;
        assert (prompts + [p])[j].key == k;
      }
      assert (prompts + [p])[|prompts|] == p;
    }
  }

  lemma ColumnsSnoc(columns: seq<Column>, i: nat, before: seq<Prompt>)
    requires i < |columns|
    ensures var m := ResolveColumn(columns[i]);
            before + ColumnCandidatesIn(columns[..i + 1])
            == if m.confidence == Medium
               then before + ColumnCandidatesIn(columns[..i]) + [ColumnPrompt(m.header, m.candidates)]
               else before + ColumnCandidatesIn(columns[..i])
  {
    hide ResolveColumn, ColumnPrompt;
    assert columns[..i + 1][..i] == columns[..i];
  }

  lemma ArticlesSnoc(rows: seq<Row>, i: nat, before: seq<Prompt>)
    requires i < |rows|
    ensures var t := RowTitle(rows[i]);
            before + ArticleCandidatesIn(rows[..i + 1])
            == if Uncertain(t) then before + ArticleCandidatesIn(rows[..i]) + [ArticlePrompt(t)]
               else before + ArticleCandidatesIn(rows[..i])
  {
    hide RowTitle, Uncertain, ArticlePrompt;
    assert rows[..i + 1][..i] == rows[..i];
  }

  lemma TabsSnoc(tabs: seq<Tab>, i: nat, collections: seq<Collection>)
    requires i < |tabs|
    ensures var tab := tabs[i];
            var (target, options) := ResolveTabCollection(tab.name, collections);
            && CollectionCandidates(tabs[..i + 1], collections)
               == (if tab.eligible && target.None?
                   then CollectionCandidates(tabs[..i], collections) + [CollectionPrompt(tab.name, options)]
                   else CollectionCandidates(tabs[..i], collections))
            && ColumnCandidates(tabs[..i + 1])
               == (if tab.eligible then ColumnCandidates(tabs[..i]) + ColumnCandidatesIn(tab.columns)
                   else ColumnCandidates(tabs[..i]))
            && ArticleCandidates(tabs[..i + 1])
               == (if tab.eligible then ArticleCandidates(tabs[..i]) + ArticleCandidatesIn(tab.rows)
                   else ArticleCandidates(tabs[..i]))
  {
    hide ResolveTabCollection, CollectionPrompt, ColumnCandidatesIn, ArticleCandidatesIn;
    assert tabs[..i + 1][..i] == tabs[..i];
  }

  method AskColumns(columns: seq<Column>, answered: map<string, string>, ghost before: seq<Prompt>,
                    asked: seq<Prompt>, seen: set<string>)
      returns (asked': seq<Prompt>, seen': set<string>)
    requires asked == Open(before, answered.Keys, true) && SeenSoFar(seen, before, answered.Keys)
    ensures asked' == Open(before + ColumnCandidatesIn(columns), answered.Keys, true)
    ensures SeenSoFar(seen', before + ColumnCandidatesIn(columns), answered.Keys)
  {
    hide ResolveColumn, ColumnPrompt, Open, SeenSoFar, KeyIn, ColumnCandidatesIn;
    NoCandidates();
    asked', seen' := asked, seen;
    assert before + [] == before;
    for i := 0 to |columns|
      invariant asked' == Open(before + ColumnCandidatesIn(columns[..i]), answered.Keys, true)
      invariant SeenSoFar(seen', before + ColumnCandidatesIn(columns[..i]), answered.Keys)
    {
      var m := ResolveColumn(columns[i]);
      ghost var so := before + ColumnCandidatesIn(columns[..i]);
      ColumnsSnoc(columns, i, before);
      if m.confidence == Medium {
        var p := ColumnPrompt(m.header, m.candidates);
        OpenSnoc(so, p, answered.Keys, true);
        SeenSnoc(seen', so, p, answered.Keys);
        PromptKeys(m, "");
        SeenMeans(seen', so, answered.Keys, p.key);
        if m.header !in answered && m.header !in seen' {
          seen' := seen' + {m.header};
          asked' := asked' + [p];
        }
      }
    }
    assert columns[..|columns|] == columns;
  }

  lemma PromptKeys(m: ColumnMapping, title: string)
    ensures ColumnPrompt(m.header, m.candidates).key == m.header
    ensures ArticlePrompt(title).key == Strip(title)
  {
  }

  lemma SeenMeans(seen: set<string>, prompts: seq<Prompt>, answered: set<string>, k: string)
    requires SeenSoFar(seen, prompts, answered)
    ensures k !in answered ==> (k in seen <==> KeyIn(prompts, |prompts|, k))
    ensures k in seen ==> seen + {k} == seen
  {
  }

  method AskArticles(rows: seq<Row>, answered: map<string, string>, ghost before: seq<Prompt>,
                     asked: seq<Prompt>, seen: set<string>)
      returns (asked': seq<Prompt>, seen': set<string>)
    requires asked == Open(before, answered.Keys, true) && SeenSoFar(seen, before, answered.Keys)
    ensures asked' == Open(before + ArticleCandidatesIn(rows), answered.Keys, true)
    ensures SeenSoFar(seen', before + ArticleCandidatesIn(rows), answered.Keys)
  {
    hide NormalizeTitleArticle, ArticlePrompt, Open, SeenSoFar, KeyIn, RowTitle, Strip, ArticleCandidatesIn;
    NoCandidates();
    asked', seen' := asked, seen;
    assert before + [] == before;
    for i := 0 to |rows|
      invariant asked' == Open(before + ArticleCandidatesIn(rows[..i]), answered.Keys, true)
      invariant SeenSoFar(seen', before + ArticleCandidatesIn(rows[..i]), answered.Keys)
    {
      var title := RowTitle(rows[i]);
      ghost var so := before + ArticleCandidatesIn(rows[..i]);
      ArticlesSnoc(rows, i, before);
      ghost var p := ArticlePrompt(title);
      OpenSnoc(so, p, answered.Keys, true);
      SeenSnoc(seen', so, p, answered.Keys);
      PromptKeys(ColumnMapping("", None, Low, false, []), title);
      RowTitleTrimmed(rows[i]);
      SeenMeans(seen', so, answered.Keys, title);
      if title == "" || title in answered || title in seen' {
        continue;
      }
      if NormalizeTitleArticle(title).needsConfirm {
        seen' := seen' + {title};
        asked' := asked' + [ArticlePrompt(title)];
      }
    }
    assert rows[..|rows|] == rows;
  }

  lemma RowTitleTrimmed(row: Row)
    ensures Strip(RowTitle(row)) == RowTitle(row)
  {
    var raw := if Cell(row, "Title") != "" then Cell(row, "Title") else Cell(row, "title");
    StripTrims(raw);
    StripTrims(Strip(raw));
  }

  method CollectImportDisambiguations(tabs: seq<Tab>, collections: seq<Collection>, res: Resolutions)
      returns (prompts: seq<Prompt>)
    ensures prompts == Outstanding(tabs, collections, res)
  {
    hide ResolveTabCollection, CollectionPrompt, ColumnCandidatesIn, ArticleCandidatesIn, Open, SeenSoFar,
        CollectionCandidates, ColumnCandidates, ArticleCandidates;
    NoCandidates();
    var collectionPrompts: seq<Prompt>, columnPrompts: seq<Prompt>, articlePrompts: seq<Prompt> := [], [], [];
    var seenColumns: set<string>, seenTitles: set<string> := {}, {};
    NothingOpen(res);
    for i := 0 to |tabs|
      invariant collectionPrompts == Open(CollectionCandidates(tabs[..i], collections), res.collection.Keys, false)
      invariant columnPrompts == Open(ColumnCandidates(tabs[..i]), res.column.Keys, true)
      invariant SeenSoFar(seenColumns, ColumnCandidates(tabs[..i]), res.column.Keys)
      invariant articlePrompts == Open(ArticleCandidates(tabs[..i]), res.article.Keys, true)
      invariant SeenSoFar(seenTitles, ArticleCandidates(tabs[..i]), res.article.Keys)
    {
      var tab := tabs[i];
      TabsSnoc(tabs, i, collections);
      var (target, options) := ResolveTabCollection(tab.name, collections);
      OpenSnoc(CollectionCandidates(tabs[..i], collections), CollectionPrompt(tab.name, options),
          res.collection.Keys, false);
      if !tab.eligible {
        continue;
      }
      CollectionKey(tab.name, options);
      if tab.name !in res.collection {
        if target.None? {
          collectionPrompts := collectionPrompts + [CollectionPrompt(tab.name, options)];
        }
      }
      columnPrompts, seenColumns :=
        AskColumns(tab.columns, res.column, ColumnCandidates(tabs[..i]), columnPrompts, seenColumns);
      articlePrompts, seenTitles :=
        AskArticles(tab.rows, res.article, ArticleCandidates(tabs[..i]), articlePrompts, seenTitles);
    }
    assert tabs[..|tabs|] == tabs;
    prompts := collectionPrompts + columnPrompts + articlePrompts;
  }

  lemma NoCandidates()
    ensures ColumnCandidatesIn([]) == [] && ArticleCandidatesIn([]) == []
    ensures forall collections :: CollectionCandidates([], collections) == []
    ensures ColumnCandidates([]) == [] && ArticleCandidates([]) == []
  {
  }

  lemma NothingOpen(res: Resolutions)
    ensures Open([], res.collection.Keys, false) == [] && Open([], res.column.Keys, true) == []
    ensures Open([], res.article.Keys, true) == []
    ensures SeenSoFar({}, [], res.column.Keys) && SeenSoFar({}, [], res.article.Keys)
  {
  }

  lemma CollectionKey(tab: string, options: seq<Collection>)
    ensures CollectionPrompt(tab, options).key == tab
  {
  }

  // ----- an answer -----

  function ApplyPick(res: Resolutions, p: Prompt, choice: Choice): Resolutions {
    match p.kind
    case CollectionQuestion => res.(collection := res.collection[p.key := choice.value])
    case ColumnQuestion => res.(column := res.column[p.key := choice.value])
    case ArticleQuestion => res.(article := res.article[Strip(p.key) := Strip(choice.title)])
  }

  function OtherKey(key: string): Prompt -> bool {
    (p: Prompt) => p.key != key
  }

  function OtherQuestion(kind: Kind, key: string): Prompt -> bool {
    (p: Prompt) => !(p.kind == kind && p.key == key)
  }

  lemma {:induction false} OpenAnswered(prompts: seq<Prompt>, answered: set<string>, key: string, once: bool)
    ensures Open(prompts, answered + {key}, once) == Filter(OtherKey(key), Open(prompts, answered, once))
  {
    if prompts != [] {
      var n := |prompts| - 1;
      OpenAnswered(prompts[..n], answered, key, once);
      FilterSnoc(OtherKey(key), Open(prompts[..n], answered, once), prompts[n]);
      hide Filter, KeyIn;
      assert Open(prompts[..n], answered, once) + [] == Open(prompts[..n], answered, once);
    }
  }

  ghost predicate AllOf(kind: Kind, prompts: seq<Prompt>) {
    forall p | p in prompts :: p.kind == kind
  }

  lemma {:induction false} ColumnKinds(columns: seq<Column>)
    ensures AllOf(ColumnQuestion, ColumnCandidatesIn(columns))
  {
    if columns != [] {
      hide ResolveColumn, ColumnChoices;
      ColumnKinds(columns[..|columns| - 1]);
    }
  }

  lemma {:induction false} ArticleKinds(rows: seq<Row>)
    ensures forall p | p in ArticleCandidatesIn(rows) :: p.kind.ArticleQuestion? && Strip(p.key) == p.key
  {
    if rows != [] {
      hide RowTitle, Uncertain, ReorderTrailing;
      ArticleKinds(rows[..|rows| - 1]);
      RowTitleTrimmed(rows[|rows| - 1]);
    }
  }

  lemma {:induction false} CandidateKinds(tabs: seq<Tab>, collections: seq<Collection>)
    ensures AllOf(CollectionQuestion, CollectionCandidates(tabs, collections))
    ensures AllOf(ColumnQuestion, ColumnCandidates(tabs))
    ensures forall p | p in ArticleCandidates(tabs) :: p.kind.ArticleQuestion? && Strip(p.key) == p.key
  {
    if tabs != [] {
      hide ResolveTabCollection, ColumnCandidatesIn, ArticleCandidatesIn, CollectionChoices, Strip;
      var n := |tabs| - 1;
      CandidateKinds(tabs[..n], collections);
      ColumnKinds(tabs[n].columns);
      ArticleKinds(tabs[n].rows);
    }
  }

  lemma {:induction false} OpenIsAsked(prompts: seq<Prompt>, answered: set<string>, once: bool)
    ensures forall p | p in Open(prompts, answered, once) :: p in prompts && p.key !in answered
  {
    if prompts != [] {
      hide KeyIn;
      OpenIsAsked(prompts[..|prompts| - 1], answered, once);
    }
  }

  lemma {:induction false} FilterOfKind(kind: Kind, key: string, prompts: seq<Prompt>)
    requires AllOf(kind, prompts)
    ensures Filter(OtherQuestion(kind, key), prompts) == Filter(OtherKey(key), prompts)
    ensures forall other | other != kind :: Filter(OtherQuestion(other, key), prompts) == prompts
  {
    if prompts != [] {
      assert prompts[0] in prompts;
      assert AllOf(kind, prompts[1..]);
      FilterOfKind(kind, key, prompts[1..]);
      hide AllOf;
      forall other | other != kind ensures Filter(OtherQuestion(other, key), prompts) == prompts {
        assert Filter(OtherQuestion(other, key), prompts[1..]) == prompts[1..];
      }
    }
  }

  lemma {:induction false} FilterShrinks(kind: Kind, key: string, prompts: seq<Prompt>, p: Prompt)
    requires p in prompts && p.kind == kind && p.key == key
    ensures |Filter(OtherQuestion(kind, key), prompts)| < |prompts|
  {
    if prompts[0] != p {
      FilterShrinks(kind, key, prompts[1..], p);
    }
  }

  /** Recording an answer removes exactly its question (from every tab that raised it) and raises no new
      one, so fewer questions are left. */
  lemma AnswerRemovesItsQuestion(tabs: seq<Tab>, collections: seq<Collection>, res: Resolutions, p: Prompt, choice: Choice)
    requires p in Outstanding(tabs, collections, res)
    ensures var before, after := Outstanding(tabs, collections, res), Outstanding(tabs, collections, ApplyPick(res,
        p, choice));
            && after == Filter(OtherQuestion(p.kind, p.key), before)
            && |after| < |before|
  {
    var cs, hs, ts := CollectionCandidates(tabs, collections), ColumnCandidates(tabs), ArticleCandidates(tabs);
    var a, b, c := Open(cs, res.collection.Keys, false), Open(hs, res.column.Keys, true), Open(ts, res.article.Keys, true);
    CandidateKinds(tabs, collections);
    OpenIsAsked(cs, res.collection.Keys, false);
    OpenIsAsked(hs, res.column.Keys, true);
    OpenIsAsked(ts, res.article.Keys, true);
    hide CollectionCandidates, ColumnCandidates, ArticleCandidates, Open, Strip, Filter;
    FilterOfKind(CollectionQuestion, p.key, a);
    FilterOfKind(ColumnQuestion, p.key, b);
    FilterOfKind(ArticleQuestion, p.key, c);
    OpenAnswered(cs, res.collection.Keys, p.key, false);
    OpenAnswered(hs, res.column.Keys, p.key, true);
    OpenAnswered(ts, res.article.Keys, p.key, true);
    var other := OtherQuestion(p.kind, p.key);
    FilterAppend(other, a + b, c);
    FilterAppend(other, a, b);
    FilterShrinks(p.kind, p.key, a + b + c, p);
    var after := ApplyPick(res, p, choice);
    assert p in a + b + c;
    match p.kind {
      case CollectionQuestion => assert after.collection.Keys == res.collection.Keys + {p.key};
      case ColumnQuestion => assert after.column.Keys == res.column.Keys + {p.key};
      case ArticleQuestion => assert p in c && after.article.Keys == res.article.Keys + {p.key};
    }
  }

  // ----- the conversation -----

  const MAX_IMPORT_ROWS := 5000

  function CountRows(tabs: seq<Tab>): nat {
    if tabs == [] then 0
    else CountRows(tabs[..|tabs| - 1]) + if tabs[|tabs| - 1].eligible then |tabs[|tabs| - 1].rows| else 0
  }

  /** The sheets being imported and the member's collections, fixed for the whole conversation. */
  datatype Book = Book(tabs: seq<Tab>, collections: seq<Collection>)

  datatype Wizard =
    | Asking(res: Resolutions, prompt: Prompt, misses: nat, remaining: nat)
    | Cancelled
    | Oversize
    | Planning(final: Resolutions)

  const NO_RESOLUTIONS := Resolutions(map[], map[], map[])

  // ----- an answer is what the import then does -----

  /** The collection chosen for a tab is the one its rows go to. */
  lemma ChosenCollectionIsUsed(tab: string, options: seq<Collection>, i: nat, collections: seq<Collection>, res: Resolutions)
    requires i < |options| && options[i] in collections
    requires forall c | c in collections && c.id == options[i].id :: c == options[i]
    ensures var p := CollectionPrompt(tab, options);
            TargetOf(tab, collections, ApplyPick(res, p, p.options[i])) == (Some(options[i]), [])
  {
    var p := CollectionPrompt(tab, options);
    assert p.options[i].value == options[i].id;
    hide ById, ResolveTabCollection;
  }

  /** The attribute chosen for a column is the one it supplies; the last choice is to leave the column out. */
  lemma ChosenColumnIsUsed(m: ColumnMapping, candidates: seq<string>, i: nat, res: Resolutions)
    requires i <= |candidates| && (i < |candidates| ==> candidates[i] != "" && candidates[i] != IGNORE_COLUMN)
    ensures var p := ColumnPrompt(m.header, candidates);
            && |p.options| == |candidates| + 1
            && Overridden(m, ApplyPick(res, p, p.options[i]).column)
               == if i == |candidates| then ColumnMapping(m.header, None, Low, false, [])
                  else ColumnMapping(m.header, Some(candidates[i]), High, candidates[i] in MULTI_VALUE, [])
  {
    var p := ColumnPrompt(m.header, candidates);
    assert i < |candidates| ==> p.options[i].value == candidates[i];
    hide MULTI_VALUE;
  }

  /** The title chosen is the title imported, for every row that shows the one asked about. */
  lemma ChosenTitleIsUsed(raw: string, i: nat, res: Resolutions, supplied: Attrs)
    requires i < |ArticlePrompt(raw).options|
    requires "title" in supplied && supplied["title"].Text? && Strip(supplied["title"].s) == Strip(raw)
    ensures var p := ArticlePrompt(raw);
            WithTitle(supplied, ApplyPick(res, p, p.options[i]).article)["title"] == Value.Text(p.options[i].title)
  {
    var p := ArticlePrompt(raw);
    StripTrims(raw);
    OptionsAreTrimmed(raw, i);
    StripTrims(Strip(raw));
    StripTrims(p.options[i].title);
    hide Strip, ReorderTrailing, NormalizeTitleArticle, Trimmed;
    assert p.key == Strip(raw);
    hide ArticlePrompt;
  }

  lemma OptionsAreTrimmed(raw: string, i: nat)
    requires i < |ArticlePrompt(raw).options|
    ensures Trimmed(ArticlePrompt(raw).options[i].title)
  {
    var title := Strip(raw);
    StripTrims(raw);
    ReorderedIsTrimmed(title);
    hide Strip, ReorderTrailing;
  }

  lemma ReorderedIsTrimmed(title: string)
    requires Trimmed(title)
    ensures Trimmed(ReorderTrailing(title))
  {
    var comma := LastComma(title);
    if comma.Some? {
      var head, suffix := Strip(title[..comma.value]), Strip(title[comma.value + 1..]);
      StripTrims(suffix + " " + head);
    }
    hide Strip;
  }

  /** A title with an uncertain last word is offered as it is, and with that word in front. */
  lemma TitleChoices(title: string, head: string, gap: string, word: string)
    requires Tailed(title, head, gap, word)
    ensures var p, moved := ArticlePrompt(title), word + " " + head;
            && p.key == title
            && p.options == [Choice("keep", title, None, title)]
                            + if moved != title then [Choice("reorder", moved, None, moved)] else []
  {
    var moved := word + " " + head;
    TailedParts(title, head, gap, word);
    assert moved[0] == word[0] && moved[|moved| - 1] == head[|head| - 1];
    StripTrims(moved);
    hide Strip, LastComma;
  }

  /** A file with more rows than five thousand to import is turned down, once nothing is left to ask. */
  lemma TooManyRows(book: Book, res: Resolutions)
    ensures var w := AskOrPlan(book, res);
            && (w.Asking? <==> Left(book, res) != [])
            && (w.Asking? ==> w.prompt == Left(book, res)[0])
            && (w.Oversize? <==> Left(book, res) == [] && CountRows(book.tabs) > 5000)
            && (w.Planning? <==> Left(book, res) == [] && CountRows(book.tabs) <= 5000)
  {
    hide Left, CountRows;
  }

  /** However often a reply was not understood, the question stays, and the misses are counted, which is what brings up
      the control to cancel. */
  lemma {:induction false} MissesAreCounted(book: Book, w: Wizard, replies: seq<string>)
    requires w.Asking? && w.remaining == |Left(book, w.res)|
    requires forall text | text in replies ::
               !IsCancelImport(text) && ResolveOption(text, w.prompt.options).None?
    ensures Converse(book, w, replies) == w.(misses := w.misses + |replies|)
    decreases |replies|
  {
    hide IsCancelImport, ResolveOption, AskOrPlan, ApplyPick, Left;
    if replies != [] {
      assert replies[0] in replies && forall text | text in replies[1..] :: text in replies;
      MissesAreCounted(book, w.(misses := w.misses + 1), replies[1..]);
    }
  }

  function Left(book: Book, res: Resolutions): seq<Prompt> {
    Outstanding(book.tabs, book.collections, res)
  }

  function AskOrPlan(book: Book, res: Resolutions): Wizard {
    var left := Left(book, res);
    if left != [] then Asking(res, left[0], 0, |left|)
    else if CountRows(book.tabs) > MAX_IMPORT_ROWS then Oversize
    else Planning(res)
  }

  function Start(book: Book): Wizard {
    AskOrPlan(book, NO_RESOLUTIONS)
  }

  /** One reply to the pending question. */
  function Reply(book: Book, w: Wizard, text: string): Wizard
    requires w.Asking?
  {
    if IsCancelImport(text) then Cancelled
    else match ResolveOption(text, w.prompt.options)
      case None => Asking(w.res, w.prompt, w.misses + 1, |Left(book, w.res)|)
      case Some(i) => AskOrPlan(book, ApplyPick(w.res, w.prompt, w.prompt.options[i]))
  }

  function Converse(book: Book, w: Wizard, replies: seq<string>): Wizard
    decreases |replies|
  {
    if replies == [] || !w.Asking? then w else Converse(book, Reply(book, w, replies[0]), replies[1..])
  }

  predicate Understands(w: Wizard, text: string)
    requires w.Asking?
  {
    !IsCancelImport(text) && ResolveOption(text, w.prompt.options).Some?
  }

  /** The replies of a conversation that answered the question they were given to. */
  function Answered(book: Book, w: Wizard, replies: seq<string>): nat
    decreases |replies|
  {
    if replies == [] || !w.Asking? then 0
    else (if Understands(w, replies[0]) then 1 else 0) + Answered(book, Reply(book, w, replies[0]), replies[1..])
  }

  function ToGo(book: Book, w: Wizard): nat {
    if w.Asking? then |Left(book, w.res)| else 0
  }

  // ----- what every answer keeps -----

  /** Chosen collections exist; chosen columns are movie attributes or "ignore". */
  ghost predicate Sound(book: Book, res: Resolutions) {
    && (forall tab | tab in res.collection :: ById(book.collections, res.collection[tab]).Some?)
    && (forall h | h in res.column :: res.column[h] == "rated" || res.column[h] == IGNORE_COLUMN)
  }

  ghost predicate Valid(book: Book, w: Wizard) {
    match w
    case Asking(res, prompt, _, remaining) =>
      Sound(book, res) && prompt in Left(book, res) && remaining == |Left(book, res)|
    case Planning(res) => Sound(book, res) && Left(book, res) == [] && CountRows(book.tabs) <= MAX_IMPORT_ROWS
    case _ => true
  }

  lemma MatchesAreOffered(name: string, collections: seq<Collection>)
    ensures forall c | c in ResolveTabCollection(name, collections).1 :: c in collections
  {
  }

  lemma {:induction false} CollectionOptions(tabs: seq<Tab>, collections: seq<Collection>, p: Prompt, i: nat)
    requires p in CollectionCandidates(tabs, collections) && i < |p.options|
    ensures ById(collections, p.options[i].value).Some?
  {
    var n := |tabs| - 1;
    if p in CollectionCandidates(tabs[..n], collections) {
      CollectionOptions(tabs[..n], collections, p, i);
    } else {
      MatchesAreOffered(tabs[n].name, collections);
      hide ResolveTabCollection, ById;
      var options := ResolveTabCollection(tabs[n].name, collections).1;
      assert p == CollectionPrompt(tabs[n].name, options);
      assert options[i] in collections && p.options[i].value == options[i].id;
    }
  }

  lemma MediumMeansRated(column: Column)
    requires ResolveColumn(column).confidence == Medium
    ensures ResolveColumn(column).candidates == ["rated"]
  {
    hide NormalizeHeader, Words, LooksMpaa, LooksNumeric;
  }

  lemma {:induction false} ColumnOptionsIn(columns: seq<Column>, p: Prompt, i: nat)
    requires p in ColumnCandidatesIn(columns) && i < |p.options|
    ensures p.options[i].value == "rated" || p.options[i].value == IGNORE_COLUMN
  {
    var n := |columns| - 1;
    if p in ColumnCandidatesIn(columns[..n]) {
      ColumnOptionsIn(columns[..n], p, i);
    } else {
      MediumMeansRated(columns[n]);
      hide ResolveColumn;
    }
  }

  lemma {:induction false} ColumnOptions(tabs: seq<Tab>, p: Prompt, i: nat)
    requires p in ColumnCandidates(tabs) && i < |p.options|
    ensures p.options[i].value == "rated" || p.options[i].value == IGNORE_COLUMN
  {
    var n := |tabs| - 1;
    if p in ColumnCandidates(tabs[..n]) {
      ColumnOptions(tabs[..n], p, i);
    } else {
      hide ColumnCandidatesIn;
      ColumnOptionsIn(tabs[n].columns, p, i);
    }
  }

  lemma PickKeepsSound(book: Book, res: Resolutions, p: Prompt, i: nat)
    requires Sound(book, res) && p in Left(book, res) && i < |p.options|
    ensures Sound(book, ApplyPick(res, p, p.options[i]))
  {
    var cs, hs, ts := CollectionCandidates(book.tabs, book.collections), ColumnCandidates(book.tabs),
        ArticleCandidates(book.tabs);
    CandidateKinds(book.tabs, book.collections);
    OpenIsAsked(cs, res.collection.Keys, false);
    OpenIsAsked(hs, res.column.Keys, true);
    OpenIsAsked(ts, res.article.Keys, true);
    hide CollectionCandidates, ColumnCandidates, ArticleCandidates, Open, Strip, ById;
    assert p in cs || p in hs || p in ts;
    if p in cs {
      CollectionOptions(book.tabs, book.collections, p, i);
    } else if p in hs {
      ColumnOptions(book.tabs, p, i);
    }
  }

  lemma AskOrPlanIsValid(book: Book, res: Resolutions)
    requires Sound(book, res)
    ensures Valid(book, AskOrPlan(book, res)) && ToGo(book, AskOrPlan(book, res)) <= |Left(book, res)|
  {
    hide Sound, CountRows, Outstanding;
  }

  lemma ReplyIsValid(book: Book, w: Wizard, text: string)
    requires w.Asking? && Valid(book, w)
    ensures Valid(book, Reply(book, w, text))
    ensures if Understands(w, text) then ToGo(book, Reply(book, w, text)) < ToGo(book, w)
            else ToGo(book, Reply(book, w, text)) <= ToGo(book, w)
  {
    hide Sound, CountRows, Outstanding, IsCancelImport, ResolveOption, ApplyPick, AskOrPlan;
    if Understands(w, text) {
      var i := ResolveOption(text, w.prompt.options).value;
      var res' := ApplyPick(w.res, w.prompt, w.prompt.options[i]);
      PickKeepsSound(book, w.res, w.prompt, i);
      AnswerRemovesItsQuestion(book.tabs, book.collections, w.res, w.prompt, w.prompt.options[i]);
      AskOrPlanIsValid(book, res');
    }
  }

  /**
   A conversation cannot go on for ever: every answer uses up at least one of the questions there were
   at the start, and none is added.
   */
  lemma {:induction false} ConversationIsBounded(book: Book, w: Wizard, replies: seq<string>)
    requires Valid(book, w)
    ensures Valid(book, Converse(book, w, replies))
    ensures Answered(book, w, replies) + ToGo(book, Converse(book, w, replies)) <= ToGo(book, w)
    decreases |replies|
  {
    if replies != [] && w.Asking? {
      hide Reply, Valid, ToGo, Understands;
      ReplyIsValid(book, w, replies[0]);
      ConversationIsBounded(book, Reply(book, w, replies[0]), replies[1..]);
    }
  }

  // ----- what is settled when nothing is left to ask -----

  lemma {:induction false} OpenCovers(prompts: seq<Prompt>, answered: set<string>, once: bool, j: nat)
    requires j < |prompts| && prompts[j].key !in answered
    ensures exists q | q in Open(prompts, answered, once) :: q.key == prompts[j].key
    decreases |prompts|, j
  {
    var n := |prompts| - 1;
    if j < n {
      OpenCovers(prompts[..n], answered, once, j);
      var q :| q in Open(prompts[..n], answered, once) && q.key == prompts[j].key;
      assert q in Open(prompts, answered, once);
    } else if once && KeyIn(prompts, n, prompts[n].key) {
      var i :| 0 <= i < n && prompts[i].key == prompts[n].key;
      OpenCovers(prompts, answered, once, i);
    } else {
      assert prompts[n] in Open(prompts, answered, once);
    }
  }

  lemma NoneOpen(prompts: seq<Prompt>, answered: set<string>, once: bool, p: Prompt)
    requires Open(prompts, answered, once) == [] && p in prompts
    ensures p.key in answered
  {
    var j :| 0 <= j < |prompts| && prompts[j] == p;
    if p.key !in answered {
      OpenCovers(prompts, answered, once, j);
      assert false;
    }
  }

  lemma {:induction false} TabRaises(tabs: seq<Tab>, collections: seq<Collection>, tab: Tab)
    requires tab in tabs && tab.eligible
    ensures var (target, options) := ResolveTabCollection(tab.name, collections);
            target.None? ==> CollectionPrompt(tab.name, options) in CollectionCandidates(tabs, collections)
    ensures forall p | p in ColumnCandidatesIn(tab.columns) :: p in ColumnCandidates(tabs)
    ensures forall p | p in ArticleCandidatesIn(tab.rows) :: p in ArticleCandidates(tabs)
  {
    var n := |tabs| - 1;
    hide ResolveTabCollection, ColumnCandidatesIn, ArticleCandidatesIn, CollectionPrompt;
    if tab != tabs[n] {
      TabRaises(tabs[..n], collections, tab);
    }
  }

  lemma {:induction false} ColumnRaises(columns: seq<Column>, c: Column)
    requires c in columns && ResolveColumn(c).confidence == Medium
    ensures ColumnPrompt(ResolveColumn(c).header, ResolveColumn(c).candidates) in ColumnCandidatesIn(columns)
  {
    hide ResolveColumn, ColumnPrompt;
    var n := |columns| - 1;
    if c != columns[n] {
      ColumnRaises(columns[..n], c);
    }
  }

  lemma {:induction false} RowRaises(rows: seq<Row>, row: Row)
    requires row in rows && Uncertain(RowTitle(row))
    ensures ArticlePrompt(RowTitle(row)) in ArticleCandidatesIn(rows)
  {
    hide RowTitle, Uncertain, ArticlePrompt;
    var n := |rows| - 1;
    if row != rows[n] {
      RowRaises(rows[..n], row);
    }
  }

  /** A tab ready to be planned: it has a collection, no column is half understood, and every title that
      ends in an uncertain word has been decided. */
  ghost predicate Settled(tab: Tab, collections: seq<Collection>, res: Resolutions) {
    && TargetOf(tab.name, collections, res).0.Some?
    && (forall m | m in MappingsOf(tab.columns, res.column) :: m.confidence != Medium)
    && (forall row | row in tab.rows :: Uncertain(RowTitle(row)) ==> RowTitle(row) in res.article)
  }

  lemma CollectionSettled(book: Book, res: Resolutions, tab: Tab)
    requires Sound(book, res) && Open(CollectionCandidates(book.tabs, book.collections), res.collection.Keys, false) == []
    requires tab in book.tabs && tab.eligible
    ensures TargetOf(tab.name, book.collections, res).0.Some?
  {
    var (target, options) := ResolveTabCollection(tab.name, book.collections);
    TabRaises(book.tabs, book.collections, tab);
    hide CollectionCandidates, Open, ResolveTabCollection, ById;
    if target.None? {
      NoneOpen(CollectionCandidates(book.tabs, book.collections), res.collection.Keys, false,
          CollectionPrompt(tab.name, options));
      CollectionKey(tab.name, options);
    }
  }

  lemma ColumnsSettled(book: Book, res: Resolutions, tab: Tab)
    requires Open(ColumnCandidates(book.tabs), res.column.Keys, true) == [] && tab in book.tabs && tab.eligible
    ensures forall m | m in MappingsOf(tab.columns, res.column) :: m.confidence != Medium
  {
    TabRaises(book.tabs, book.collections, tab);
    hide ColumnCandidates, Open, ResolveColumn, ColumnPrompt, ColumnCandidatesIn;
    forall i | 0 <= i < |tab.columns|
      ensures MappingsOf(tab.columns, res.column)[i].confidence != Medium
    {
      var m := ResolveColumn(tab.columns[i]);
      if m.confidence == Medium {
        ColumnRaises(tab.columns, tab.columns[i]);
        NoneOpen(ColumnCandidates(book.tabs), res.column.Keys, true, ColumnPrompt(m.header, m.candidates));
        PromptKeys(m, "");
      }
    }
  }

  lemma TitlesSettled(book: Book, res: Resolutions, tab: Tab, row: Row)
    requires Open(ArticleCandidates(book.tabs), res.article.Keys, true) == [] && tab in book.tabs && tab.eligible
    requires row in tab.rows && Uncertain(RowTitle(row))
    ensures RowTitle(row) in res.article
  {
    TabRaises(book.tabs, book.collections, tab);
    hide ArticleCandidates, Open, ArticlePrompt, ArticleCandidatesIn, RowTitle, Uncertain, Strip;
    RowRaises(tab.rows, row);
    NoneOpen(ArticleCandidates(book.tabs), res.article.Keys, true, ArticlePrompt(RowTitle(row)));
    PromptKeys(ColumnMapping("", None, Low, false, []), RowTitle(row));
    RowTitleTrimmed(row);
  }

  /**
   Whatever the member replies, an import that reaches the planning step has every eligible tab settled,
   so its preview awaits no collection and shows no half-understood column.
   */
  lemma PlanningIsComplete(book: Book, replies: seq<string>)
    ensures var w := Converse(book, Start(book), replies);
            && Answered(book, Start(book), replies) <= |Left(book, NO_RESOLUTIONS)|
            && (w.Planning? ==> Sound(book, w.final)
                                && forall tab | tab in book.tabs && tab.eligible :: Settled(tab, book.collections, w.final))
  {
    var w := Converse(book, Start(book), replies);
    AskOrPlanIsValid(book, NO_RESOLUTIONS);
    ConversationIsBounded(book, Start(book), replies);
    hide Converse, Start, AskOrPlan, Answered, CountRows;
    if w.Planning? {
      hide Sound, Open, CollectionCandidates, ColumnCandidates, ArticleCandidates, TargetOf, MappingsOf, Uncertain, RowTitle;
      forall tab | tab in book.tabs && tab.eligible
        ensures Settled(tab, book.collections, w.final)
      {
        CollectionSettled(book, w.final, tab);
        ColumnsSettled(book, w.final, tab);
        forall row | row in tab.rows && Uncertain(RowTitle(row))
          ensures RowTitle(row) in w.final.article
        {
          TitlesSettled(book, w.final, tab, row);
        }
      }
    }
  }

  lemma {:induction false} PlansComeFromTabs(tabs: seq<Tab>, collections: seq<Collection>, existing: Reads, idem: Idem,
                                             res: Resolutions, plan: TabPlan)
    requires plan in PreviewOf(tabs, collections, existing, idem, res).tabs
    ensures exists tab | tab in tabs :: tab.eligible && plan == PlanTab(tab, collections, existing, idem, res)
  {
    hide PlanTab;
    var n := |tabs| - 1;
    if plan in PreviewOf(tabs[..n], collections, existing, idem, res).tabs {
      PlansComeFromTabs(tabs[..n], collections, existing, idem, res, plan);
      var tab :| tab in tabs[..n] && tab.eligible && plan == PlanTab(tab, collections, existing, idem, res);
      assert tab in tabs;
    } else {
      assert tabs[n] in tabs;
    }
  }

  /** The preview a finished conversation leads to: every sheet has its collection and no column is left
      half understood. */
  lemma PreviewAwaitsNothing(book: Book, replies: seq<string>, existing: Reads, idem: Idem, plan: TabPlan)
    requires Converse(book, Start(book), replies).Planning?
    requires plan in PreviewOf(book.tabs, book.collections, existing, idem, Converse(book, Start(book), replies).final).tabs
    ensures plan.target.Some? && forall m | m in plan.mappings :: m.confidence != Medium
  {
    var res := Converse(book, Start(book), replies).final;
    PlanningIsComplete(book, replies);
    hide Converse, Start, PreviewOf;
    PlansComeFromTabs(book.tabs, book.collections, existing, idem, res, plan);
    var tab :| tab in book.tabs && tab.eligible && plan == PlanTab(tab, book.collections, existing, idem, res);
    hide TargetOf, MappingsOf, PlanRows, UniqueRows, SkippedRows, Filter;
    assert Settled(tab, book.collections, res);
  }
}
