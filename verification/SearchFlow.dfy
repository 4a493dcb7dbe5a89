/**
 The search workflow: where to look, in which collection, which of the results, until the member opens
 one or leaves.  What the member's collections hold and what the web lookup finds are given by `Reads`.
 */
module SearchFlow {
  import opened Common
  import opened Text
  import opened MovieStore
  import opened Proposals
  import opened PickOption
  import opened Replies

  datatype SearchStage = NoSearch | SearchScope | SearchCollection | SearchPick

  datatype SearchState = SearchState(stage: SearchStage, scope: string, query: string, results: seq<Choice>)

  const IDLE := SearchState(NoSearch, "", "", [])

  datatype Reads = Reads(
    collections: seq<Collection>,
    owned: (string, Id) -> seq<Choice>,   // the movies of a collection that match a title
    web: string -> seq<Choice>,           // the films found outside
    title: string,                        // the title a fresh request names; empty when it names none
    home: Option<Collection>)             // the collection a fresh request is about

  const THE_WEB: set<string> := {"search the web", "the web", "web"}
  const ANOTHER: set<string> := {"search another collection", "search a collection", "another collection", "a collection"}

  function NamedExactly(low: string, collections: seq<Collection>): (r: Option<Collection>)
    ensures r.Some? ==> r.value in collections
  {
    if collections == [] then None
    else if Lower(collections[0].name) == low then Some(collections[0])
    else NamedExactly(low, collections[1..])
  }

  function NamedInside(low: string, collections: seq<Collection>): (r: Option<Collection>)
    ensures r.Some? ==> r.value in collections
  {
    if collections == [] then None
    else if |collections[0].name| >= 2 && Contains(low, Lower(collections[0].name)) then Some(collections[0])
    else NamedInside(low, collections[1..])
  }

  function AskScope(s: SearchState, query: string): SearchState {
    s.(stage := SearchScope, query := query, results := [])
  }

  function AskCollection(s: SearchState, query: string): SearchState {
    s.(stage := SearchCollection, query := query, results := [])
  }

  function LookIn(query: string, c: Collection, r: Reads): SearchState {
    SearchState(SearchPick, c.id, query, r.owned(query, c.id))
  }

  /** One film found outside is shown at once, which ends the search. */
  function LookOutside(query: string, r: Reads): SearchState {
    if |r.web(query)| == 1 then IDLE else SearchState(SearchPick, "web", query, r.web(query))
  }

  function Exits(s: SearchState, text: string): bool {
    IsSearchCancel(text) || (!s.stage.NoSearch? && CancelsSearch(text))
  }

  /** One reply, or a fresh request when no search is going on. */
  function Step(s: SearchState, text: string, r: Reads): SearchState {
    var low := Strip(Lower(text));
    if Exits(s, text) then IDLE
    else match s.stage
      case SearchScope =>
        if Contains(low, "web") then LookOutside(s.query, r)
        else if Contains(low, "collection") then AskCollection(s, s.query)
        else AskScope(s, s.query)
      case SearchCollection =>
        var exact := NamedExactly(low, r.collections);
        var chosen := if exact.Some? then exact else NamedInside(low, r.collections);
        if chosen.Some? then LookIn(s.query, chosen.value, r) else AskCollection(s, s.query)
      case SearchPick =>
        if low in THE_WEB then LookOutside(s.query, r)
        else if low in ANOTHER then AskCollection(s, s.query)
        else if ResolveOption(text, s.results).Some? then IDLE
        else s
      case NoSearch =>
        if r.title == "" then IDLE
        else if r.collections == [] then LookOutside(r.title, r)
        else if r.home.None? then AskScope(s, r.title)
        else LookIn(r.title, r.home.value, r)
  }

  /** A search at rest holds nothing, and results are held only while one is to be picked. */
  predicate Sound(s: SearchState) {
    (s.stage.NoSearch? ==> s == IDLE) && (!s.stage.SearchPick? ==> s.results == [])
  }

  /** The title asked for is carried through the whole search, and the results offered are the previous
      ones or exactly what was read for that title in the scope shown. */
  lemma StepCarriesTheSearch(s: SearchState, text: string, r: Reads)
    requires Sound(s)
    ensures var t := Step(s, text, r);
            && Sound(t)
            && (!t.stage.NoSearch? ==> t.query == if s.stage.NoSearch? then r.title else s.query)
            && (t.stage.SearchPick? ==>
                  t == s || (t.scope == "web" && t.results == r.web(t.query)) || t.results == r.owned(t.query, t.scope))
  {
    hide ResolveOption, Exits, Contains, NamedExactly, NamedInside, Strip, Lower;
  }

  // ----- picking a result -----

  /** The reply is one of the search's own controls. */
  predicate IsControl(text: string) {
    var low := Strip(Lower(text));
    IsSearchCancel(text) || CancelsSearch(text) || low in THE_WEB || low in ANOTHER
  }

  /** The result a reply opens. */
  function Opens(s: SearchState, text: string): (r: Option<nat>)
    ensures r.Some? ==> r.value < |s.results|
  {
    if s.stage.SearchPick? && !IsControl(text) then ResolveOption(text, s.results) else None
  }

  /** The search after some replies, each with what was read for it. */
  function After(s: SearchState, replies: seq<(string, Reads)>): SearchState
    decreases |replies|
  {
    if replies == [] then s else After(Step(s, replies[0].0, replies[0].1), replies[1..])
  }

  /** The reply names nothing on offer. */
  predicate Unclear(s: SearchState, text: string) {
    !IsControl(text) && Opens(s, text).None?
  }

  lemma {:induction false} UnclearRepliesReoffer(s: SearchState, replies: seq<(string, Reads)>)
    requires s.stage.SearchPick? && forall reply | reply in replies :: Unclear(s, reply.0)
    ensures After(s, replies) == s
    decreases |replies|
  {
    if replies != [] {
      hide ResolveOption, IsSearchCancel, CancelsSearch, Strip, Lower;
      assert replies[0] in replies && forall reply | reply in replies[1..] :: reply in replies;
      UnclearRepliesReoffer(s, replies[1..]);
    }
  }

  /**
   However many replies were not understood before it, the tap on an offered result opens a result with the
   tapped title and ends the search exactly when its label is not one of the search's own controls; and it
   opens the tapped one itself when its year is its own or no earlier result has its title, and only then.
   */
  lemma TapOpensTheResult(s: SearchState, replies: seq<(string, Reads)>, i: nat, r: Reads)
    requires s.stage.SearchPick? && forall reply | reply in replies :: Unclear(s, reply.0)
    requires i < |s.results| && AllPlain(s.results) && Tappable(s.results[i])
    ensures var t, tap := After(s, replies), MovieLabel(s.results[i]);
            && (Opens(t, tap).Some? <==> !IsControl(tap))
            && (Opens(t, tap).Some? ==>
                  && Step(t, tap, r) == IDLE
                  && Lower(t.results[Opens(t, tap).value].title) == Lower(s.results[i].title)
                  && (Opens(t, tap).value == i <==> OwnYear(s.results, i) || FirstOfItsTitle(s.results, i)))
  {
    hide ResolveOption, IsSearchCancel, CancelsSearch, Strip, Lower, MovieLabel, AllPlain, OwnYear,
        FirstOfItsTitle, Tappable;
    UnclearRepliesReoffer(s, replies);
    TapPicks(s.results, i);
  }

  /** A film called "The Web" cannot be opened by its label: the tap takes the search outside instead. */
  lemma TheWebIsAControl(s: SearchState, r: Reads)
    requires s.stage.SearchPick?
    ensures MovieLabel(Choice("1", "The Web", None, "")) == "The Web"
    ensures Opens(s, "The Web").None? && Step(s, "The Web", r) == LookOutside(s.query, r)
  {
    assert Lower("The Web") == "the web";
    StripTrims("The Web");
    StripTrims("the web");
    NotTheExit("the web");
    hide ResolveOption, Strip, Lower, Contains;
  }

  lemma NotTheExit(low: string)
    requires |low| < 11
    ensures !Contains(low, "exit search")
  {
  }
}
