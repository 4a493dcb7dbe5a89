/**
 Proposals: the reviewable writes the organizer builds and the approval gate later executes.
 */
module Proposals {
  import opened Common
  import opened Text
  import opened MovieStore

  /** What the external film lookup returned for the chosen film. */
  datatype Candidate = Candidate(
    sourceId: string, title: string, year: Option<int>, overview: string,
    genres: seq<string>, language: Option<string>, rated: Option<string>)

  /** What the member answered about an added film; `None` when the question was not asked. */
  datatype Answers = Answers(
    owned: Option<bool>, ownedMedia: seq<string>, ripped: Option<bool>, ripQuality: seq<string>,
    childrens: Option<bool>)

  const NO_ANSWERS := Answers(None, [], None, [], None)

  datatype Op = OpAdd | OpUpdate | OpRemove | OpMove | OpCreate

  /** One reviewable change.  An empty string in `coll`, `movie` or `dest` stands for an absent one. */
  datatype Item = Item(
    id: string, op: Op, tab: string, shown: string,
    coll: Id, movie: Id, dest: Id,
    payload: Option<Attrs>, candidate: Option<Candidate>, answers: Answers,
    idem: string)

  datatype CollectionRef = CollectionRef(id: Option<Id>, name: string, createIfMissing: bool)

  datatype Proposal = Proposal(id: string, items: seq<Item>, target: Option<CollectionRef>, isImport: bool)

  function Truth(b: Option<bool>): bool {
    b.Some? && b.value
  }

  function TextOr(t: Option<string>, otherwise: string): string {
    if t.Some? && t.value != "" then t.value else otherwise
  }

  function TextOrNull(t: Option<string>): Value {
    if t.Some? then Value.Text(t.value) else Null
  }

  /** The text before and after the first `c`; nothing after it when there is none. */
  function Partition(s: string, c: char): (r: (string, string))
    ensures c !in r.0
    ensures s == r.0 + (if c in s then [c] + r.1 else [])
    ensures c !in s ==> r.1 == ""
  {
    if s == [] then ("", "")
    else if s[0] == c then ("", s[1..])
    else var (before, after) := Partition(s[1..], c); ([s[0]] + before, after)
  }

  const TMDB_MOVIE_URL := "https://www.themoviedb.org/movie/"

  function SourceIds(sourceId: string): seq<ExternalId> {
    var (source, external) := Partition(sourceId, ':');
    if external == "" then []
    else [ExternalId(source, external, if source == "tmdb" then Some(TMDB_MOVIE_URL + external) else None)]
  }

  /** The document an approved add sends. */
  function ToMoviePayload(c: Candidate, a: Answers): Attrs {
    var owned, ripped := Truth(a.owned), Truth(a.ripped);
    map[
      "title" := Value.Text(c.title),
      "year" := if c.year.Some? then Num(c.year.value) else Null,
      "contentType" := Value.Text("Movie"),
      "language" := Value.Text(TextOr(c.language, "English")),
      "owned" := Flag(owned),
      "ripped" := Flag(ripped),
      "childrens" := Flag(Truth(a.childrens)),
      "ownedMedia" := Many(if owned then a.ownedMedia else []),
      "ripQuality" := Many(if ripped then a.ripQuality else []),
      "genres" := Many(c.genres),
      "rated" := TextOrNull(c.rated),
      "directors" := Many([]),
      "actors" := Many([]),
      "tags" := Many([]),
      "movieSet" := Null,
      "originalTitle" := Null,
      "releaseDate" := Null,
      "outline" := Null,
      "plot" := if c.overview != "" then Value.Text(c.overview) else Null,
      "runtime" := Null,
      "externalIds" := Links(SourceIds(c.sourceId))
    ]
  }

  /** Formats are stored only for an owned film, qualities only for a ripped one, and never anything but
      what was answered. */
  lemma PayloadKeepsAnswersTogether(c: Candidate, a: Answers)
    ensures var p := ToMoviePayload(c, a);
            && p["ownedMedia"] == Many(if p["owned"] == Flag(true) then a.ownedMedia else [])
            && p["ripQuality"] == Many(if p["ripped"] == Flag(true) then a.ripQuality else [])
            && (p["owned"] == Flag(true) <==> a.owned == Some(true))
            && (p["ripped"] == Flag(true) <==> a.ripped == Some(true))
            && (p["childrens"] == Flag(true) <==> a.childrens == Some(true))
  {
  }

  /** The key under which the service files an added film. */
  lemma PayloadIsTheFilm(svc: Service, coll: Id, c: Candidate, a: Answers)
    ensures KeyOf(svc, coll, ToMoviePayload(c, a))
            == Key(coll, Value.Text(svc.fold(c.title)), if c.year.Some? then Num(c.year.value) else Null, Value.Text("Movie"))
  {
    PayloadFields(c, a);
    hide ToMoviePayload;
  }

  /** What is known of the film is written as it was found, the language English when it is not known. */
  lemma PayloadFields(c: Candidate, a: Answers)
    ensures var p := ToMoviePayload(c, a);
            && Field(p, "title") == Value.Text(c.title)
            && Field(p, "year") == (if c.year.Some? then Num(c.year.value) else Null)
            && Field(p, "contentType") == Value.Text("Movie")
            && Field(p, "genres") == Many(c.genres)
            && Field(p, "rated") == (if c.rated.Some? then Value.Text(c.rated.value) else Null)
            && Field(p, "plot") == (if c.overview == "" then Null else Value.Text(c.overview))
            && Field(p, "language")
               == Value.Text(if c.language.None? || c.language.value == "" then "English" else c.language.value)
  {
    hide SourceIds;
  }

  /** What nobody asked for is empty, but there. */
  lemma PayloadBlanks(c: Candidate, a: Answers)
    ensures var p := ToMoviePayload(c, a);
            && "directors" in p && "actors" in p && "tags" in p
            && p["directors"] == p["actors"] == p["tags"] == Many([])
  {
    hide SourceIds;
  }

  lemma PayloadNulls(c: Candidate, a: Answers)
    ensures var p := ToMoviePayload(c, a);
            && "movieSet" in p && "originalTitle" in p && "releaseDate" in p && "outline" in p && "runtime" in p
            && p["movieSet"] == p["originalTitle"] == p["releaseDate"] == p["outline"] == p["runtime"] == Null
  {
    hide SourceIds;
  }

  /** No id of the service is made up. */
  lemma PayloadHasNoIds(c: Candidate, a: Answers)
    ensures ToMoviePayload(c, a).Keys !! MOVIE_ID_FIELDS
  {
    hide SourceIds;
  }

  lemma {:induction false} PartitionAt(before: string, after: string, c: char)
    requires c !in before
    ensures Partition(before + [c] + after, c) == (before, after)
  {
    var s := before + [c] + after;
    if before == [] {
      assert s[1..] == after;
    } else {
      assert s[1..] == before[1..] + [c] + after && s[0] == before[0] && before[0] in before;
      assert before == [before[0]] + before[1..];
      PartitionAt(before[1..], after, c);
    }
  }

  /** The film keeps its id at the source it was found at, with a link when that is the film database. */
  lemma PayloadKeepsSource(c: Candidate, a: Answers, source: string, external: string)
    requires ':' !in source && c.sourceId == source + ":" + external
    ensures ToMoviePayload(c, a)["externalIds"]
            == Links(if external == "" then []
                     else if source == "tmdb" then
                       [ExternalId("tmdb", external, Some("https://www.themoviedb.org/movie/" + external))]
                     else [ExternalId(source, external, None)])
  {
    PartitionAt(source, external, ':');
  }

  /** The film's id without a source is no id. */
  lemma NoSourceNoId(c: Candidate, a: Answers)
    requires ':' !in c.sourceId
    ensures ToMoviePayload(c, a)["externalIds"] == Links([])
  {
    hide Partition;
  }

  /** The proposal of a finished add: the collection to create first, when there is one, then the film. */
  function BuildAddProposal(id: string, c: Candidate, target: CollectionRef, a: Answers, idem: string -> string): Proposal {
    Proposal(
      id,
      (if target.createIfMissing
       then [Item("create-collection", OpCreate, "", target.name, "", "", "", None, None, NO_ANSWERS,
           idem("create-collection"))]
       else [])
      + [Item("add-movie", OpAdd, "", c.title, "", "", "", None, Some(c), a, idem("add-movie"))],
      Some(target), false)
  }

  // ----- full-replacement payloads -----

  const MOVIE_ID_FIELDS: set<string> := {"movieId", "collectionId", "_id", "id"}
  const FLAGS: set<string> := {"owned", "ripped", "childrens"}

  /** Changes requested in conversation. */
  datatype Changes = Changes(flags: map<string, bool>, addTags: seq<string>, removeTags: seq<string>)

  const NO_CHANGES := Changes(map[], [], [])

  /** A stored movie as a read returns it: its document plus the ids the service assigned. */
  function AsRead(id: Id, m: Movie): Attrs {
    m.attrs + map["movieId" := Value.Text(id), "collectionId" := Value.Text(m.coll)]
  }

  function AddTags(tags: seq<string>, more: seq<string>): seq<string>
    decreases |more|
  {
    if more == [] then tags
    else AddTags(if more[0] in tags then tags else tags + [more[0]], more[1..])
  }

  function NewTags(v: Value, changes: Changes): seq<string> {
    var tags := AddTags(if v.Many? then v.items else [], changes.addTags);
    Filter(t => t !in changes.removeTags, tags)
  }

  function FlagsOf(changes: Changes): Attrs {
    map f | f in FLAGS && f in changes.flags :: Flag(changes.flags[f])
  }

  /** The whole document to send back: the one read, without the service's ids, with the changes. */
  function ComposePayload(doc: Attrs, changes: Changes): Attrs {
    var kept := doc - MOVIE_ID_FIELDS;
    var flagged := kept + FlagsOf(changes);
    if changes.addTags == [] && changes.removeTags == [] then flagged
    else flagged["tags" := Many(NewTags(Field(flagged, "tags"), changes))]
  }

  /** Recomposing a read document with no changes gives back the document without the ids. */
  lemma ComposeUnchanged(id: Id, m: Movie)
    requires m.attrs.Keys !! MOVIE_ID_FIELDS
    ensures ComposePayload(AsRead(id, m), NO_CHANGES) == m.attrs
  {
    assert AsRead(id, m) - MOVIE_ID_FIELDS == m.attrs;
    assert FlagsOf(NO_CHANGES) == map[];
  }

  /** Recomposing a read document changes exactly what was asked for. */
  lemma ComposeChangesOnlyWhatWasAsked(id: Id, m: Movie, changes: Changes, f: string)
    requires m.attrs.Keys !! MOVIE_ID_FIELDS
    ensures var payload := ComposePayload(AsRead(id, m), changes);
            if f in FLAGS && f in changes.flags then Field(payload, f) == Flag(changes.flags[f])
            else if f == "tags" && (changes.addTags != [] || changes.removeTags != []) then
              Field(payload, f) == Many(NewTags(Field(m.attrs, f), changes))
            else Field(payload, f) == Field(m.attrs, f)
  {
    assert AsRead(id, m) - MOVIE_ID_FIELDS == m.attrs;
    var flagged := m.attrs + FlagsOf(changes);
    assert "tags" !in FLAGS;
    hide NewTags;
    if f in FLAGS && f in changes.flags {
      assert f in FlagsOf(changes);
    } else {
      assert f !in FlagsOf(changes);
      assert Field(flagged, f) == Field(m.attrs, f);
    }
  }

  /** ... and so never the movie's key. */
  lemma ComposeKeepsKey(svc: Service, id: Id, m: Movie, changes: Changes)
    requires m.attrs.Keys !! MOVIE_ID_FIELDS
    ensures KeyOf(svc, m.coll, ComposePayload(AsRead(id, m), changes)) == MovieKey(svc, m)
  {
    hide ComposePayload;
    ComposeChangesOnlyWhatWasAsked(id, m, changes, "title");
    ComposeChangesOnlyWhatWasAsked(id, m, changes, "year");
    ComposeChangesOnlyWhatWasAsked(id, m, changes, "contentType");
  }

  lemma {:induction false} AddTagsKeeps(tags: seq<string>, more: seq<string>, t: string)
    ensures t in AddTags(tags, more) <==> t in tags || t in more
    decreases |more|
  {
    if more != [] {
      AddTagsKeeps(if more[0] in tags then tags else tags + [more[0]], more[1..], t);
      assert t in more <==> t == more[0] || t in more[1..];
    }
  }

  /** Tags are changed as sets: what was there or was added, minus what was removed. */
  lemma TagsAfter(v: Value, changes: Changes, t: string)
    requires v.Many?
    ensures t in NewTags(v, changes) <==> (t in v.items || t in changes.addTags) && t !in changes.removeTags
  {
    AddTagsKeeps(v.items, changes.addTags, t);
  }

  // ----- organize operations -----

  datatype Collection = Collection(id: Id, name: string, isDefault: bool)

  const GENERIC_TARGETS: set<string> := {
    "", "my collection", "my collections", "my list", "my movies", "default", "default collection",
    "the collection", "a collection", "my default collection"
  }

  function FindNamed(lowered: string, collections: seq<Collection>): Option<Collection> {
    if collections == [] then None
    else if Lower(collections[0].name) == lowered then Some(collections[0])
    else FindNamed(lowered, collections[1..])
  }

  function FindDefault(collections: seq<Collection>): Option<Collection> {
    if collections == [] then None
    else if collections[0].isDefault then Some(collections[0])
    else FindDefault(collections[1..])
  }

  /** A spoken collection name: an existing one, one to create, or (second part) a question to ask. */
  function ResolveTarget(name: string, collections: seq<Collection>): (CollectionRef, bool) {
    var lowered := Strip(Lower(name));
    if lowered != "" && lowered !in GENERIC_TARGETS then
      match FindNamed(lowered, collections)
      case Some(c) => (CollectionRef(Some(c.id), c.name, false), false)
      case None => (CollectionRef(None, name, true), false)
    else
      match FindDefault(collections)
      case Some(c) => (CollectionRef(Some(c.id), c.name, false), false)
      case None => (CollectionRef(None, name, true), true)
  }

  datatype OrganizeOp = OrganizeOp(
    op: Op, coll: Id, movie: Id, dest: Id, payload: Option<Attrs>, shown: string)

  /** One operation of the organize plan as the model named it. */
  datatype Planned = Planned(kind: string, to: string, changes: Changes)

  datatype Unresolved = NoSuchCollection(name: string) | AlreadyThere(shown: string)

  /** Build one operation for the movie `id` of collection `src`, or say why not (moves only). */
  function MakeOp(plan: Planned, id: Id, m: Movie, src: Id, collections: seq<Collection>, shown: string)
    : (Option<OrganizeOp>, Option<Unresolved>)
  {
    if plan.kind == "remove" then
      (Some(OrganizeOp(OpRemove, src, id, "", None, shown)), None)
    else if plan.kind == "update" then
      (Some(OrganizeOp(OpUpdate, src, id, "", Some(ComposePayload(AsRead(id, m), plan.changes)), shown)), None)
    else if plan.kind == "move" then
      var to := Strip(plan.to);
      match ResolveTarget(to, collections).0.id
      case None => (None, Some(NoSuchCollection(to)))
      case Some(dest) =>
        if dest == src then (None, Some(AlreadyThere(shown)))
        else (Some(OrganizeOp(OpMove, src, id, dest, Some(ComposePayload(AsRead(id, m), NO_CHANGES)), shown)), None)
    else (None, None)
  }

  function OrganizeItem(idem: string, itemId: string, o: OrganizeOp): Item {
    Item(itemId, o.op, "", o.shown, o.coll, o.movie, if o.op == OpMove then o.dest else "",
         o.payload, None, NO_ANSWERS, idem)
  }

  function OpName(op: Op): string {
    match op
    case OpAdd => "add"
    case OpUpdate => "update"
    case OpRemove => "remove"
    case OpMove => "move"
    case OpCreate => "create_collection"
  }

  /** One batch of operations as a proposal; `idem` hashes an item's name within the proposal. */
  function BuildOrganizeProposal(id: string, ops: seq<OrganizeOp>, idem: string -> string): (p: Proposal)
    ensures |p.items| == |ops|
  {
    Proposal(
      id,
      seq(|ops|, i requires 0 <= i < |ops| =>
        var itemId := OpName(ops[i].op) + "-" + NatText(i);
        OrganizeItem(idem(itemId), itemId, ops[i])),
      None, false)
  }

  lemma {:induction false} FoundIsOffered(name: string, collections: seq<Collection>)
    ensures var (ref, _) := ResolveTarget(name, collections);
            ref.id.Some? ==> exists c | c in collections :: c.id == ref.id.value && c.name == ref.name
  {
    var lowered := Strip(Lower(name));
    FoundNamed(lowered, collections);
    FoundDefault(collections);
  }

  lemma {:induction false} FoundNamed(lowered: string, collections: seq<Collection>)
    ensures var r := FindNamed(lowered, collections);
            if r.Some? then r.value in collections && Lower(r.value.name) == lowered
            else forall c | c in collections :: Lower(c.name) != lowered
  {
    if collections != [] {
      FoundNamed(lowered, collections[1..]);
    }
  }

  lemma {:induction false} FoundDefault(collections: seq<Collection>)
    ensures var r := FindDefault(collections);
            if r.Some? then r.value in collections && r.value.isDefault
            else forall c | c in collections :: !c.isDefault
  {
    if collections != [] {
      FoundDefault(collections[1..]);
    }
  }

  /** Every move the organizer builds goes to another, existing collection and carries a document with
      the key the movie has; the reason is given exactly when a move is not built. */
  lemma MakeOpIsSafe(svc: Service, plan: Planned, id: Id, m: Movie, src: Id, collections: seq<Collection>, shown: string)
    requires m.attrs.Keys !! MOVIE_ID_FIELDS && m.coll == src
    ensures var (o, why) := MakeOp(plan, id, m, src, collections, shown);
            && (o.Some? && o.value.op.OpMove? ==>
                  && o.value.dest != o.value.coll == src
                  && (exists c | c in collections :: c.id == o.value.dest)
                  && o.value.payload == Some(m.attrs)
                  && KeyOf(svc, src, o.value.payload.value) == MovieKey(svc, m))
            && (o.Some? ==> o.value.movie == id && o.value.coll == src && why.None?)
            && (why.Some? ==> plan.kind == "move")
            && (plan.kind == "move" ==> o.Some? != why.Some?)
  {
    ComposeUnchanged(id, m);
    FoundIsOffered(Strip(plan.to), collections);
  }

  /** A removal is built exactly for "remove", an update, with the document recomposed as asked, exactly for
      "update", a move only for "move", and to the collection the request names; a move is refused exactly when
      there is no such collection or the movie is in it already. */
  lemma MakeOpIsWhatWasAsked(plan: Planned, id: Id, m: Movie, src: Id, collections: seq<Collection>, shown: string)
    ensures var (o, why) := MakeOp(plan, id, m, src, collections, shown);
            var dest := ResolveTarget(Strip(plan.to), collections).0.id;
            && (o.Some? ==> o.value.movie == id && o.value.coll == src && o.value.shown == shown)
            && (o.Some? && o.value.op.OpRemove? <==> plan.kind == "remove")
            && (o.Some? && o.value.op.OpUpdate? <==> plan.kind == "update")
            && (o.Some? && o.value.op.OpUpdate? ==>
                  o.value.payload == Some(ComposePayload(AsRead(id, m), plan.changes)))
            && (o.Some? && o.value.op.OpMove? <==> plan.kind == "move" && dest.Some? && dest.value != src)
            && (o.Some? && o.value.op.OpMove? ==> Some(o.value.dest) == dest)
            && (why == Some(NoSuchCollection(Strip(plan.to))) <==> plan.kind == "move" && dest.None?)
            && (why == Some(AlreadyThere(shown)) <==> plan.kind == "move" && dest == Some(src))
            && (o.Some? ==> o.value.op.OpRemove? || o.value.op.OpUpdate? || o.value.op.OpMove?)
  {
    hide ComposePayload, ResolveTarget, Strip;
  }

  /** A spoken name means the first collection of that name in any case, and one to be created if there is none;
      a name that says nothing means the default collection, and a question if there is none. */
  lemma {:induction false} TargetIsNamed(name: string, collections: seq<Collection>)
    ensures var (ref, ask) := ResolveTarget(name, collections);
            var low := Strip(Lower(name));
            && (low != "" && low !in GENERIC_TARGETS ==>
                  && !ask
                  && (if exists c | c in collections :: Lower(c.name) == low then
                        exists i | 0 <= i < |collections| ::
                          && Lower(collections[i].name) == low
                          && (forall j | 0 <= j < i :: Lower(collections[j].name) != low)
                          && ref == CollectionRef(Some(collections[i].id), collections[i].name, false)
                      else ref == CollectionRef(None, name, true)))
            && (low == "" || low in GENERIC_TARGETS ==>
                  if exists c | c in collections :: c.isDefault then
                    && !ask
                    && exists i | 0 <= i < |collections| ::
                         && collections[i].isDefault && (forall j | 0 <= j < i :: !collections[j].isDefault)
                         && ref == CollectionRef(Some(collections[i].id), collections[i].name, false)
                  else ask && ref == CollectionRef(None, name, true))
  {
    var low := Strip(Lower(name));
    FirstNamed(low, collections);
    FirstDefault(collections);
    FoundNamed(low, collections);
    FoundDefault(collections);
    hide GENERIC_TARGETS, Lower, Strip, FindNamed, FindDefault;
  }

  lemma {:induction false} FirstNamed(lowered: string, collections: seq<Collection>)
    ensures var r := FindNamed(lowered, collections);
            r.Some? ==> exists i | 0 <= i < |collections| ::
              && collections[i] == r.value && Lower(collections[i].name) == lowered
              && (forall j | 0 <= j < i :: Lower(collections[j].name) != lowered)
  {
    if collections != [] && Lower(collections[0].name) != lowered {
      FirstNamed(lowered, collections[1..]);
      if FindNamed(lowered, collections[1..]).Some? {
        var i :| 0 <= i < |collections| - 1 && collections[1..][i] == FindNamed(lowered, collections[1..]).value
                 && Lower(collections[1..][i].name) == lowered
                 && (forall j | 0 <= j < i :: Lower(collections[1..][j].name) != lowered);
        assert forall j | 0 < j < i + 1 :: collections[j] == collections[1..][j - 1];
        assert collections[i + 1] == collections[1..][i];
      }
    }
  }

  lemma {:induction false} FirstDefault(collections: seq<Collection>)
    ensures var r := FindDefault(collections);
            r.Some? ==> exists i | 0 <= i < |collections| ::
              && collections[i] == r.value && collections[i].isDefault
              && (forall j | 0 <= j < i :: !collections[j].isDefault)
  {
    if collections != [] && !collections[0].isDefault {
      FirstDefault(collections[1..]);
      if FindDefault(collections[1..]).Some? {
        var i :| 0 <= i < |collections| - 1 && collections[1..][i] == FindDefault(collections[1..]).value
                 && collections[1..][i].isDefault && (forall j | 0 <= j < i :: !collections[1..][j].isDefault);
        assert forall j | 0 < j < i + 1 :: collections[j] == collections[1..][j - 1];
        assert collections[i + 1] == collections[1..][i];
      }
    }
  }
}
