/**
 The movie service as the assistant sees it: collections, the movies inside them, one uniqueness
 rule per kind, and the three answers a write can get (done, 409 duplicate, 404 not found).

 A movie is the attribute document the service exchanges with its clients.  Two movies of one
 collection are duplicates when title (up to the service's own title comparison), year and content
 type agree.
 */
module MovieStore {
  import opened Common

  type Id = string

  datatype ExternalId = ExternalId(system: string, uniqueId: string, url: Option<string>)

  datatype Value =
    | Null
    | Flag(b: bool)
    | Num(n: int)
    | Text(s: string)
    | Many(items: seq<string>)
    | Links(ids: seq<ExternalId>)

  type Attrs = map<string, Value>

  datatype Movie = Movie(coll: Id, attrs: Attrs)

  datatype Store = Store(collections: map<Id, string>, movies: map<Id, Movie>)

  /** What the deployment fixes: how titles are compared, and which id an insert will receive. */
  datatype Service = Service(fold: string -> string, mint: string -> Id)

  datatype Key = Key(coll: Id, title: Value, year: Value, contentType: Value)

  function Field(doc: Attrs, name: string): Value {
    if name in doc then doc[name] else Null
  }

  function FoldTitle(svc: Service, v: Value): Value {
    if v.Text? then Text(svc.fold(v.s)) else v
  }

  function KeyOf(svc: Service, coll: Id, doc: Attrs): Key {
    Key(coll, FoldTitle(svc, Field(doc, "title")), Field(doc, "year"), Field(doc, "contentType"))
  }

  function MovieKey(svc: Service, m: Movie): Key {
    KeyOf(svc, m.coll, m.attrs)
  }

  predicate Holds(svc: Service, s: Store, k: Key) {
    exists id :: id in s.movies && MovieKey(svc, s.movies[id]) == k
  }

  /** No two stored movies share a key. */
  ghost predicate Unique(svc: Service, s: Store) {
    forall a, b | a in s.movies && b in s.movies ::
      MovieKey(svc, s.movies[a]) == MovieKey(svc, s.movies[b]) ==> a == b
  }

  /** A write.  `idem` is the item's idempotency key; the service ignores it except that the id of a
      new document is a function of it here, so that runs can be compared. */
  datatype Request =
    | Create(name: string, idem: string)
    | Add(coll: Id, doc: Attrs, idem: string)
    | Update(coll: Id, movie: Id, doc: Attrs)
    | Remove(coll: Id, movie: Id)

  datatype Reply = Done(id: Id) | Status(code: nat)

  function TakenByOther(svc: Service, s: Store, k: Key, self: Id): bool {
    exists id :: id in s.movies && id != self && MovieKey(svc, s.movies[id]) == k
  }

  /** One request, executed once. */
  function Serve(svc: Service, s: Store, q: Request): (Store, Reply) {
    match q
    case Create(name, idem) =>
      if exists c :: c in s.collections && svc.fold(s.collections[c]) == svc.fold(name) then
        (s, Status(409))
      else if svc.mint(idem) in s.collections then
        (s, Status(500))
      else
        (s.(collections := s.collections[svc.mint(idem) := name]), Done(svc.mint(idem)))
    case Add(coll, doc, idem) =>
      if coll !in s.collections then (s, Status(404))
      else if Holds(svc, s, KeyOf(svc, coll, doc)) then (s, Status(409))
      else if svc.mint(idem) in s.movies then (s, Status(500))
      else (s.(movies := s.movies[svc.mint(idem) := Movie(coll, doc)]), Done(svc.mint(idem)))
    case Update(coll, movie, doc) =>
      if coll !in s.collections then (s, Status(404))
      else if movie !in s.movies || s.movies[movie].coll != coll then (s, Status(404))
      else if TakenByOther(svc, s, KeyOf(svc, coll, doc), movie) then (s, Status(409))
      else (s.(movies := s.movies[movie := Movie(coll, doc)]), Done(movie))
    case Remove(coll, movie) =>
      if coll !in s.collections then (s, Status(404))
      else if movie !in s.movies || s.movies[movie].coll != coll then (s, Status(404))
      else (s.(movies := s.movies - {movie}), Done(movie))
  }

  /** Why the service refuses: "not found" exactly when the collection, or in it the movie, is not there, and "conflict"
      exactly when something else has the name or the key already. */
  lemma RefusalsSayWhy(svc: Service, s: Store, q: Request)
    ensures var r := Serve(svc, s, q).1;
            && (r == Status(404) <==>
                  !q.Create? && (q.coll !in s.collections
                                 || (!q.Add? && (q.movie !in s.movies || s.movies[q.movie].coll != q.coll))))
            && (r == Status(409) <==>
                  match q
                  case Create(name, _) => exists c :: c in s.collections && svc.fold(s.collections[c]) == svc.fold(name)
                  case Add(coll, doc, _) =>
                    coll in s.collections
                    && exists id :: id in s.movies && MovieKey(svc, s.movies[id]) == KeyOf(svc, coll, doc)
                  case Update(coll, movie, doc) =>
                    && coll in s.collections && movie in s.movies && s.movies[movie].coll == coll
                    && exists id :: id in s.movies && id != movie && MovieKey(svc, s.movies[id]) == KeyOf(svc, coll, doc)
                  case Remove(_, _) => false)
  {
    hide KeyOf, MovieKey;
  }

  /** The uniqueness rules survive every request. */
  lemma ServeKeepsUnique(svc: Service, s: Store, q: Request)
    requires Unique(svc, s)
    ensures Unique(svc, Serve(svc, s, q).0)
  {
    var t := Serve(svc, s, q).0;
    forall a, b | a in t.movies && b in t.movies && MovieKey(svc, t.movies[a]) == MovieKey(svc, t.movies[b])
      ensures a == b
    {
      if a in s.movies && b in s.movies && t.movies[a] == s.movies[a] && t.movies[b] == s.movies[b] {
      } else {
        assert q.Add? || q.Update?;
      }
    }
  }

  /** Executing a request a second time changes nothing: what makes a blind retry safe. */
  lemma ServeTwice(svc: Service, s: Store, q: Request)
    ensures var t := Serve(svc, s, q).0; Serve(svc, t, q).0 == t
  {
    var t := Serve(svc, s, q).0;
    match q
    case Create(name, idem) =>
      if t != s { assert svc.mint(idem) in t.collections && t.collections[svc.mint(idem)] == name; }
    case Add(coll, doc, idem) =>
      if t != s { assert MovieKey(svc, t.movies[svc.mint(idem)]) == KeyOf(svc, coll, doc); }
    case Update(coll, movie, doc) =>
      if t != s { assert t.movies[movie := Movie(coll, doc)] == t.movies; }
    case Remove(coll, movie) =>
  }

  /** What an add that the service answers with "done" or "duplicate" leaves behind. */
  lemma AddLands(svc: Service, s: Store, coll: Id, doc: Attrs, idem: string)
    ensures var (t, r) := Serve(svc, s, Add(coll, doc, idem));
            r.Done? || r == Status(409) ==> Holds(svc, t, KeyOf(svc, coll, doc))
  {
    var (t, r) := Serve(svc, s, Add(coll, doc, idem));
    if r.Done? {
      assert MovieKey(svc, t.movies[svc.mint(idem)]) == KeyOf(svc, coll, doc);
    }
  }
}
