/**
 From spreadsheet cells to typed movie attributes: which column means what, how a title's trailing
 article is handled, and what a row supplies.
 */
module ImportRows {
  import opened Common
  import opened Text
  import opened MovieStore

  // ----- columns -----

  datatype Confidence = High | Medium | Low

  datatype ColumnMapping = ColumnMapping(
    header: string, attribute: Option<string>, confidence: Confidence, multi: bool, candidates: seq<string>)

  datatype Column = Column(header: string, samples: seq<string>)

  const IGNORE_COLUMN := "__ignore__"

  const MULTI_VALUE: set<string> :=
    {"genres", "directors", "actors", "tags", "ownedMedia", "ripQuality", "externalIds"}

  const ALIASES: map<string, string> := map[
    "title" := "title",
    "year" := "year",
    "video type" := "contentType",
    "children's" := "childrens",
    "childrens" := "childrens",
    "owned" := "owned",
    "media" := "ownedMedia",
    "ripped" := "ripped",
    "rip quality" := "ripQuality",
    "mpaa" := "rated",
    "language" := "language",
    "directors" := "directors",
    "actors" := "actors",
    "genres" := "genres",
    "tags" := "tags",
    "original title" := "originalTitle",
    "release date" := "releaseDate",
    "outline" := "outline",
    "plot" := "plot",
    "runtime" := "runtime",
    "set" := "movieSet",
    "imdb id" := "externalIds",
    "imdb url" := "externalIds",
    "tmdb id" := "externalIds"
  ]

  const IGNORED_HEADERS: set<string> := {"pick", "top", "tagline"}

  const MPAA_TOKENS: set<string> :=
    {"g", "pg", "pg-13", "r", "nc-17", "nr", "unrated", "x", "m", "gp", "tv-ma", "tv-14"}

  function NormalizeHeader(header: string): string {
    Lower(Collapse(header))
  }

  predicate LooksMpaa(value: string) {
    Lower(Strip(value)) in MPAA_TOKENS
  }

  function Before(s: string, c: char): string {
    if s == [] || s[0] == c then "" else [s[0]] + Before(s[1..], c)
  }

  function After(s: string, c: char): string {
    if s == [] then "" else if s[0] == c then s[1..] else After(s[1..], c)
  }

  predicate Digits(s: string) {
    forall c | c in s :: Digit(c)
  }

  /** A plain decimal, the part before a slash counting. */
  predicate LooksNumeric(value: string) {
    var text := Strip(Before(Strip(value), '/'));
    var body := if text != "" && (text[0] == '-' || text[0] == '+') then text[1..] else text;
    Digits(Before(body, '.')) && Digits(After(body, '.')) && Before(body, '.') + After(body, '.') != ""
  }

  function ResolveColumn(column: Column): ColumnMapping {
    var normalized := NormalizeHeader(column.header);
    if normalized in ALIASES then
      ColumnMapping(column.header, Some(ALIASES[normalized]), High, ALIASES[normalized] in MULTI_VALUE, [])
    else if normalized in IGNORED_HEADERS then
      ColumnMapping(column.header, None, Low, false, [])
    else if "rating" in Words(normalized) || "score" in Words(normalized) then
      var samples := Filter(s => !Blank(s), column.samples);
      if samples != [] && (forall s | s in samples :: LooksMpaa(s)) then
        ColumnMapping(column.header, Some("rated"), High, false, [])
      else if samples != [] && (forall s | s in samples :: LooksNumeric(s)) then
        ColumnMapping(column.header, None, Low, false, [])
      else
        ColumnMapping(column.header, None, Medium, false, ["rated"])
    else
      ColumnMapping(column.header, None, Low, false, [])
  }

  function ResolveColumns(columns: seq<Column>): (r: seq<ColumnMapping>)
    ensures |r| == |columns|
    ensures forall i | 0 <= i < |r| :: r[i] == ResolveColumn(columns[i])
  {
    seq(|columns|, i requires 0 <= i < |columns| => ResolveColumn(columns[i]))
  }

  /** The mapping a confirmed answer stands for. */
  function Override(header: string, answer: string): ColumnMapping {
    if answer == "" || answer == IGNORE_COLUMN then ColumnMapping(header, None, Low, false, [])
    else ColumnMapping(header, Some(answer), High, answer in MULTI_VALUE, [])
  }

  predicate Certificate(value: string) {
    var v := Lower(Strip(value));
    || v == "g" || v == "pg" || v == "pg-13" || v == "r" || v == "nc-17" || v == "nr" || v == "unrated"
    || v == "x" || v == "m" || v == "gp" || v == "tv-ma" || v == "tv-14"
  }

  /** A column whose header speaks of a rating or a score is read by what it holds: film certificates are imported,
      numbers are left out, and anything else is asked about. */
  lemma RatingColumn(column: Column)
    requires var h := NormalizeHeader(column.header);
             h !in ALIASES && h !in IGNORED_HEADERS && ("rating" in Words(h) || "score" in Words(h))
    ensures var m := ResolveColumn(column);
            var filled := exists v | v in column.samples :: !Blank(v);
            && m.header == column.header && !m.multi
            && (m.confidence == High <==> filled && forall v | v in column.samples && !Blank(v) :: Certificate(v))
            && (m.confidence == High ==> m.attribute == Some("rated"))
            && (m.confidence != High ==> m.attribute == None)
            && (m.confidence == Medium <==>
                  !(filled && forall v | v in column.samples && !Blank(v) :: Certificate(v))
                  && !(filled && forall v | v in column.samples && !Blank(v) :: LooksNumeric(v)))
            && (m.confidence == Medium ==> m.candidates == ["rated"])
  {
    hide NormalizeHeader, Words, LooksNumeric, Blank, ALIASES, IGNORED_HEADERS, Strip, Lower;
    var samples := Filter(s => !Blank(s), column.samples);
    forall v ensures LooksMpaa(v) == Certificate(v) {
    }
    hide LooksMpaa, Certificate;
    assert forall v :: v in samples <==> v in column.samples && !Blank(v);
    if samples != [] {
      assert samples[0] in samples;
    }
  }

  /** The text in front of the slash reads as a number. */
  lemma Reads(value: string, text: string, whole: string, fraction: string)
    requires Strip(value) == value && Before(value, '/') == text && Strip(text) == text
    requires text != "" && text[0] != '-' && text[0] != '+'
    requires Before(text, '.') == whole && After(text, '.') == fraction
    requires Digits(whole) && Digits(fraction) && whole != ""
    ensures LooksNumeric(value)
  {
    hide Strip, Before, After, Digits;
  }

  /** Digits, with a fraction or without. */
  predicate Decimal(text: string, whole: string, fraction: string) {
    && whole != "" && Digits(whole) && Digits(fraction)
    && text == if fraction == "" then whole else whole + "." + fraction
  }

  lemma DecimalParts(text: string, whole: string, fraction: string)
    requires Decimal(text, whole, fraction)
    ensures text != "" && Trimmed(text) && text[0] != '-' && text[0] != '+' && '/' !in text
    ensures Before(text, '.') == whole && After(text, '.') == fraction
  {
    DigitsAreTrimmed(whole);
    NoSlash(whole, '/');
    NoSlash(whole, '.');
    NoSlash(fraction, '/');
    if fraction == "" {
      NothingCut(whole, '.');
    } else {
      DigitsAreTrimmed(fraction);
      CutAt(whole, fraction, '.');
      assert text[0] == whole[0] && text[|text| - 1] == fraction[|fraction| - 1];
    }
    hide Before, After, Digits, White;
  }

  /** Whole and decimal numbers, with or without a part "out of", are numbers. */
  lemma NumbersAreNumeric(text: string, whole: string, fraction: string, outOf: string)
    requires Decimal(text, whole, fraction) && Trimmed(outOf) && outOf != ""
    ensures LooksNumeric(text) && LooksNumeric(text + "/" + outOf)
  {
    var value := text + "/" + outOf;
    DecimalParts(text, whole, fraction);
    NothingCut(text, '/');
    CutAt(text, outOf, '/');
    assert value[0] == text[0] && value[|value| - 1] == outOf[|outOf| - 1];
    StripTrims(text);
    StripTrims(value);
    hide Strip, Before, After, LooksNumeric, Trimmed;
    Reads(text, text, whole, fraction);
    Reads(value, text, whole, fraction);
  }

  /** A value with a letter in front of any slash is not a number. */
  lemma LettersAreNotNumeric(value: string)
    requires Trimmed(value) && '/' !in value && '.' !in value && value != "" && 'a' <= LowerChar(value[0]) <= 'z'
    ensures !LooksNumeric(value)
  {
    StripTrims(value);
    NothingCut(value, '/');
    NothingCut(value, '.');
    hide Strip, Before, After;
    assert value[0] in value;
  }

  lemma DigitsAreTrimmed(t: string)
    requires t != "" && Digits(t)
    ensures !White(t[0]) && !White(t[|t| - 1]) && t[0] != '-' && t[0] != '+' && Trimmed(t)
  {
    assert t[0] in t && t[|t| - 1] in t;
  }

  lemma NoSlash(t: string, c: char)
    requires Digits(t) && !Digit(c)
    ensures c !in t
  {
  }

  lemma {:induction false} CutAt(a: string, b: string, c: char)
    requires c !in a
    ensures Before(a + [c] + b, c) == a && After(a + [c] + b, c) == b
  {
    var s := a + [c] + b;
    if a != [] {
      assert s[1..] == a[1..] + [c] + b && s[0] == a[0] && a[0] in a;
      CutAt(a[1..], b, c);
      assert a == [a[0]] + a[1..];
    } else {
      assert s[1..] == b;
    }
  }

  lemma {:induction false} NothingCut(a: string, c: char)
    requires c !in a
    ensures Before(a, c) == a && After(a, c) == ""
  {
    if a != [] {
      assert a[0] in a;
      NothingCut(a[1..], c);
      assert a == [a[0]] + a[1..];
    }
  }

  /** A column nobody knows is not imported, and neither are three known ones. */
  lemma OtherColumns(column: Column)
    requires var h := NormalizeHeader(column.header);
             h !in ALIASES && (h == "pick" || h == "top" || h == "tagline"
                               || ("rating" !in Words(h) && "score" !in Words(h)))
    ensures ResolveColumn(column) == ColumnMapping(column.header, None, Low, false, [])
  {
    hide NormalizeHeader, Words, LooksNumeric, LooksMpaa, Blank, ALIASES;
  }

  // ----- titles -----

  datatype TitleNormalization = TitleNormalization(normalized: string, article: Option<string>, needsConfirm: bool)

  function Article(suffix: string): Option<string> {
    var folded := Lower(suffix);
    if folded == "the" then Some("The")
    else if folded == "a" then Some("A")
    else if folded == "an" then Some("An")
    else None
  }

  /** The position of the last comma. */
  function LastComma(s: string): (r: Option<nat>)
    ensures r.Some? ==> r.value < |s| && s[r.value] == ',' && ',' !in s[r.value + 1..]
    ensures r.None? ==> ',' !in s
  {
    if s == [] then None
    else if s[|s| - 1] == ',' then Some(|s| - 1)
    else
      var r := LastComma(s[..|s| - 1]);
      if r.Some? then
        assert s[r.value + 1..] == s[..|s| - 1][r.value + 1..] + [s[|s| - 1]];
        r
      else r
  }

  /** "Matrix, The" becomes "The Matrix"; another single word after the last comma needs asking. */
  function NormalizeTitleArticle(title: string): TitleNormalization {
    var text := Strip(title);
    var comma := LastComma(text);
    if comma.None? || Blank(text[comma.value + 1..]) || '\n' in text[..comma.value] then
      TitleNormalization(text, None, false)
    else
      var head, suffix := Strip(text[..comma.value]), Strip(text[comma.value + 1..]);
      var article := Article(suffix);
      if article.Some? then TitleNormalization(article.value + " " + head, article, false)
      else TitleNormalization(text, None, ' ' !in suffix)
  }

  lemma NoCommaAfter(s: string, k: nat, i: nat)
    requires k < i < |s| && ',' !in s[k + 1..]
    ensures s[i] != ','
  {
    assert s[k + 1..][i - k - 1] == s[i];
  }

  lemma CommaIsLast(s: string, k: nat)
    requires k < |s| && s[k] == ',' && ',' !in s[k + 1..]
    ensures LastComma(s) == Some(k)
  {
    var r := LastComma(s);
    hide LastComma;
    assert s[k] in s;
    forall i | k < i < |s| ensures s[i] != ',' { NoCommaAfter(s, k, i); }
    if r.Some? {
      forall i | r.value < i < |s| ensures s[i] != ',' { NoCommaAfter(s, r.value, i); }
    }
  }

  lemma StripGap(gap: string, t: string)
    requires t != "" && Trimmed(t) && forall c | c in gap :: White(c)
    ensures Strip(gap + t) == t
  {
    StripLeftAppend(gap, t);
    StripTrims(t);
    assert StripLeft(t) == t;
  }

  /** A title with a word or more after its last comma. */
  predicate Tailed(title: string, head: string, gap: string, tail: string) {
    && title == head + "," + gap + tail
    && Trimmed(head) && head != "" && '\n' !in head && (forall c | c in gap :: White(c))
    && Trimmed(tail) && tail != "" && ',' !in tail
  }

  lemma CutAtComma(title: string, head: string, rest: string)
    requires title == head + "," + rest
    ensures |head| < |title| && title[|head|] == ','
    ensures title[..|head|] == head && title[|head| + 1..] == rest
  {
  }

  lemma TailedIsTrimmed(title: string, head: string, gap: string, tail: string)
    requires Tailed(title, head, gap, tail)
    ensures Strip(title) == title && Strip(head) == head && Strip(gap + tail) == tail
  {
    hide Strip;
    assert title[0] == head[0] && title[|title| - 1] == tail[|tail| - 1];
    StripTrims(title);
    StripTrims(head);
    StripGap(gap, tail);
  }

  lemma TailedParts(title: string, head: string, gap: string, tail: string)
    requires Tailed(title, head, gap, tail)
    ensures |head| < |title| && Strip(title) == title && LastComma(title) == Some(|head|)
    ensures title[..|head|] == head && Strip(title[..|head|]) == head
    ensures Strip(title[|head| + 1..]) == tail && tail != "" && '\n' !in title[..|head|]
  {
    hide White, Strip, LastComma, Trimmed;
    TailedIsTrimmed(title, head, gap, tail);
    assert title == head + "," + (gap + tail);
    CutAtComma(title, head, gap + tail);
    NoCommaInGap(gap);
    CommaIsLast(title, |head|);
  }

  lemma NoCommaInGap(gap: string)
    requires forall c | c in gap :: White(c)
    ensures ',' !in gap
  {
  }

  /** What is made of a title with a word or more after its last comma. */
  lemma TailedIs(title: string, head: string, gap: string, tail: string)
    requires Tailed(title, head, gap, tail)
    ensures NormalizeTitleArticle(title)
            == if Lower(tail) == "the" then TitleNormalization("The " + head, Some("The"), false)
               else if Lower(tail) == "a" then TitleNormalization("A " + head, Some("A"), false)
               else if Lower(tail) == "an" then TitleNormalization("An " + head, Some("An"), false)
               else TitleNormalization(title, None, ' ' !in tail)
  {
    TailedParts(title, head, gap, tail);
    hide Strip, LastComma, Lower, Tailed;
    assert "The" + " " + head == "The " + head && "A" + " " + head == "A " + head && "An" + " " + head == "An " + head;
  }

  // ----- cells -----

  /** One parsed row: header and cell, in sheet order, headers distinct. */
  type Row = seq<(string, string)>

  function Cell(row: Row, header: string): string {
    if row == [] then "" else if row[0].0 == header then row[0].1 else Cell(row[1..], header)
  }

  /** The first cell whose header matches up to case. */
  function LookupCell(row: Row, header: string): string {
    if row == [] then ""
    else if Lower(row[0].0) == Lower(header) then row[0].1
    else LookupCell(row[1..], header)
  }

  const TRUE_TOKENS: set<string> := {"yes", "y", "true", "t", "1"}
  const VALID_RATINGS: set<string> := {"G", "PG", "PG-13", "R", "NC-17", "NR", "Unrated"}
  const BOOLEAN_ATTRS: set<string> := {"owned", "ripped", "childrens"}
  const INT_ATTRS: set<string> := {"year", "runtime"}

  function ContentType(text: string): string {
    var folded := Lower(text);
    if folded == "movie" then "Movie"
    else if folded == "series" then "Series"
    else if folded == "concert" then "Concert"
    else text
  }

  function StripAll(parts: seq<string>): seq<string> {
    if parts == [] then []
    else if Blank(parts[0]) then StripAll(parts[1..])
    else [Strip(parts[0])] + StripAll(parts[1..])
  }

  function SplitMultiValue(cell: string): seq<string> {
    StripAll(Split(cell, '|'))
  }

  /** The typed value of a cell; `None` when it supplies nothing. */
  function CoerceValue(attribute: string, raw: string, multi: bool): Option<Value> {
    var text := Strip(raw);
    if multi then
      var values := SplitMultiValue(text);
      if values != [] then Some(Many(values)) else None
    else if text == "" then None
    else if attribute in BOOLEAN_ATTRS then Some(Flag(Lower(text) in TRUE_TOKENS))
    else if attribute in INT_ATTRS then
      var (ok, n) := ParseInt(text);
      if ok then Some(Num(n)) else None
    else if attribute == "contentType" then Some(Value.Text(ContentType(text)))
    else if attribute == "rated" then (if text in VALID_RATINGS then Some(Value.Text(text)) else None)
    else Some(Value.Text(text))
  }

  /** The kinds of films are read in any case, and written in one. */
  lemma KindsAreCanonical(raw: string, kind: string)
    requires kind == "Movie" || kind == "Series" || kind == "Concert"
    requires Lower(Strip(raw)) == Lower(kind)
    ensures CoerceValue("contentType", raw, false) == Some(Value.Text(kind))
  {
    hide Strip;
    assert Lower("Movie") == "movie" && Lower("Series") == "series" && Lower("Concert") == "concert";
    assert "contentType" !in BOOLEAN_ATTRS && "contentType" !in INT_ATTRS;
  }

  /** Yes is said in five ways, and everything else in a cell is a no. */
  lemma FlagsAreRead(attribute: string, raw: string)
    requires attribute == "owned" || attribute == "ripped" || attribute == "childrens"
    ensures var low := Lower(Strip(raw));
            CoerceValue(attribute, raw, false)
            == if low == "" then None
               else Some(Flag(low == "yes" || low == "y" || low == "true" || low == "t" || low == "1"))
  {
    hide Strip, Lower;
    assert |Lower(Strip(raw))| == |Strip(raw)|;
  }

  function ExternalIdFrom(row: Row, system: string, idHeader: string, urlHeader: string): seq<ExternalId> {
    var uniqueId, url := Strip(LookupCell(row, idHeader)), Strip(LookupCell(row, urlHeader));
    if uniqueId == "" then [] else [ExternalId(system, uniqueId, if url != "" then Some(url) else None)]
  }

  function AssembleExternalIds(row: Row): seq<ExternalId> {
    ExternalIdFrom(row, "IMDB", "IMDB Id", "IMDB URL") + ExternalIdFrom(row, "TMDB", "TMDB Id", "TMDB URL")
  }

  // ----- rows -----

  function Supply(supplied: Attrs, row: Row, m: ColumnMapping): Attrs {
    if m.attribute.None? || m.confidence != High || m.attribute.value == "externalIds" then supplied
    else
      var v := CoerceValue(m.attribute.value, Cell(row, m.header), m.multi);
      if v.Some? then supplied[m.attribute.value := v.value] else supplied
  }

  /** A column answered with "ignore" supplies nothing, and one answered with an attribute supplies that. */
  lemma AnsweredColumnSupplies(supplied: Attrs, row: Row, header: string, answer: string)
    ensures answer == "" || answer == "__ignore__" || answer == "externalIds" ==>
              Supply(supplied, row, Override(header, answer)) == supplied
    ensures answer != "" && answer != "__ignore__" && answer != "externalIds" ==>
              var v := CoerceValue(answer, Cell(row, header), answer in MULTI_VALUE);
              Supply(supplied, row, Override(header, answer)) == if v.Some? then supplied[answer := v.value] else supplied
  {
    hide CoerceValue, Cell, MULTI_VALUE;
  }

  /** What the mapped columns supply, later columns over earlier ones. */
  function Supplied(row: Row, mappings: seq<ColumnMapping>): Attrs {
    if mappings == [] then map[]
    else Supply(Supplied(row, mappings[..|mappings| - 1]), row, mappings[|mappings| - 1])
  }

  function WithExternalIds(supplied: Attrs, row: Row): Attrs {
    var ids := AssembleExternalIds(row);
    if ids != [] then supplied["externalIds" := Links(ids)] else supplied
  }

  function TitleText(v: Value): string {
    if v.Text? then v.s else ""
  }

  function WithTitle(supplied: Attrs, articles: map<string, string>): Attrs {
    if "title" !in supplied then supplied
    else
      var raw := Strip(TitleText(supplied["title"]));
      supplied["title" := Value.Text(if raw in articles then Strip(articles[raw])
                                     else NormalizeTitleArticle(raw).normalized)]
  }

  /** The attributes a row supplies. */
  function RowPayload(row: Row, mappings: seq<ColumnMapping>, articles: map<string, string>): Attrs {
    WithTitle(WithExternalIds(Supplied(row, mappings), row), articles)
  }

  method BuildRowPayload(row: Row, mappings: seq<ColumnMapping>, articles: map<string, string>)
      returns (supplied: Attrs)
    ensures supplied == RowPayload(row, mappings, articles)
  {
    hide Supply, CoerceValue, Cell, NormalizeTitleArticle, AssembleExternalIds;
    supplied := map[];
    for i := 0 to |mappings|
      invariant supplied == Supplied(row, mappings[..i])
    {
      var m := mappings[i];
      assert mappings[..i + 1][..i] == mappings[..i];
      supplied := Supply(supplied, row, m);
    }
    assert mappings[..|mappings|] == mappings;
    var ids := AssembleExternalIds(row);
    if ids != [] {
      supplied := supplied["externalIds" := Links(ids)];
    }
    if "title" in supplied {
      var raw := Strip(TitleText(supplied["title"]));
      if raw in articles {
        supplied := supplied["title" := Value.Text(Strip(articles[raw]))];
      } else {
        supplied := supplied["title" := Value.Text(NormalizeTitleArticle(raw).normalized)];
      }
    }
  }

  // ----- required fields -----

  predicate Present(v: Value) {
    match v
    case Null => false
    case Text(s) => !Blank(s)
    case _ => true
  }

  predicate Importable(payload: Attrs) {
    && Present(Field(payload, "title"))
    && Present(Field(payload, "year"))
    && Present(Field(payload, "contentType"))
  }

  /** Every value a row supplies is typed as its attribute demands and never blank: a blank or
      unreadable cell supplies nothing. */
  predicate WellTyped(attribute: string, v: Value) {
    if attribute in BOOLEAN_ATTRS then v.Flag?
    else if attribute in INT_ATTRS then v.Num?
    else if attribute == "externalIds" then v.Links? && v.ids != []
    else if attribute in MULTI_VALUE then v.Many? && v.items != [] && forall x | x in v.items :: Trimmed(x) && x != ""
    else if attribute == "rated" then v.Text? && v.s in VALID_RATINGS
    else v.Text? && v.s != ""
  }

  /** A mapping as the resolver or an override makes it. */
  predicate Regular(m: ColumnMapping) {
    m.attribute.Some? ==> m.multi == (m.attribute.value in MULTI_VALUE)
  }

  lemma ResolvedIsRegular(column: Column)
    ensures Regular(ResolveColumn(column)) && ResolveColumn(column).header == column.header
  {
    hide NormalizeHeader, Words, LooksMpaa, LooksNumeric;
    assert "rated" !in MULTI_VALUE;
  }

  lemma {:induction false} StripAllTrims(parts: seq<string>)
    ensures forall x | x in StripAll(parts) :: Trimmed(x) && x != ""
  {
    if parts != [] {
      StripAllTrims(parts[1..]);
      StripTrims(parts[0]);
    }
  }

  lemma CoercedIsTyped(attribute: string, raw: string)
    requires attribute != "externalIds"
    ensures var v := CoerceValue(attribute, raw, attribute in MULTI_VALUE);
            v.Some? ==> WellTyped(attribute, v.value)
  {
    StripAllTrims(Split(Strip(raw), '|'));
    hide Strip, Lower, ParseInt;
    assert attribute in MULTI_VALUE ==> attribute !in BOOLEAN_ATTRS && attribute !in INT_ATTRS;
    assert attribute == "contentType" ==> ContentType(Strip(raw)) != "" || Strip(raw) == "";
  }

  lemma {:induction false} SuppliedIsTyped(row: Row, mappings: seq<ColumnMapping>)
    requires forall m | m in mappings :: Regular(m)
    ensures var s := Supplied(row, mappings);
            "externalIds" !in s && forall a | a in s :: WellTyped(a, s[a])
  {
    if mappings != [] {
      hide CoerceValue, WellTyped, Cell;
      var n := |mappings| - 1;
      SuppliedIsTyped(row, mappings[..n]);
      var m := mappings[n];
      assert m in mappings && Regular(m);
      if m.attribute.Some? && m.attribute.value != "externalIds" {
        CoercedIsTyped(m.attribute.value, Cell(row, m.header));
      }
    }
  }
}
