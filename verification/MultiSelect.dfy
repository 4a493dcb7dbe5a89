/**
 Reading a reply that chooses several of the offered values ("Selected: DVD, Blu-Ray").
 */
module MultiSelect {
  import opened Common
  import opened Text
  import opened ByLength

  const PREFIX := "selected:"

  const NONE_TOKENS: set<string> := {"none", "no formats", "no format", "nothing", "skip", "neither", "n/a", "na"}

  // ----- the parts of a reply -----

  predicate SeparatorChar(c: char) {
    c == ',' || c == ';' || c == '+' || c == '&' || c == '/' || c == '|'
  }

  /** The length of the separator at position `p`; 0 when there is none. */
  function SeparatorAt(s: string, p: nat): (n: nat)
    requires p <= |s|
    ensures p + n <= |s|
  {
    if p < |s| && SeparatorChar(s[p]) then 1
    else if p + 3 <= |s| && Lower(s[p..p + 3]) == "and" && Boundary(s, p) && Boundary(s, p + 3) then 3
    else 0
  }

  /** The parts of `s` from `start` on, `p` being the position reached. */
  function SplitFrom(s: string, start: nat, p: nat): (parts: seq<string>)
    requires start <= p <= |s|
    ensures parts != []
    decreases |s| - p
  {
    if p == |s| then [s[start..]]
    else if SeparatorAt(s, p) > 0 then [s[start..p]] + SplitFrom(s, p + SeparatorAt(s, p), p + SeparatorAt(s, p))
    else SplitFrom(s, start, p + 1)
  }

  function SplitReply(s: string): seq<string> {
    SplitFrom(s, 0, 0)
  }

  // ----- choosing -----

  predicate Exact(option: string, candidate: string, chosen: seq<string>) {
    Lower(option) == candidate && option !in chosen
  }

  predicate Inside(option: string, candidate: string, chosen: seq<string>) {
    Contains(candidate, Lower(option)) && option !in chosen
  }

  function FirstExact(candidate: string, byLength: seq<string>, chosen: seq<string>): (r: Option<string>)
    ensures r.Some? ==> r.value in byLength && Exact(r.value, candidate, chosen)
    ensures r.None? ==> forall o | o in byLength :: !Exact(o, candidate, chosen)
  {
    if byLength == [] then None
    else if Exact(byLength[0], candidate, chosen) then Some(byLength[0])
    else FirstExact(candidate, byLength[1..], chosen)
  }

  function FirstInside(candidate: string, byLength: seq<string>, chosen: seq<string>): (r: Option<string>)
    ensures r.Some? ==> r.value in byLength && Inside(r.value, candidate, chosen)
    ensures r.None? ==> forall o | o in byLength :: !Inside(o, candidate, chosen)
  {
    if byLength == [] then None
    else if Inside(byLength[0], candidate, chosen) then Some(byLength[0])
    else FirstInside(candidate, byLength[1..], chosen)
  }

  /** What one part of the reply adds. */
  function Choose(part: string, byLength: seq<string>, chosen: seq<string>): seq<string> {
    var candidate := Lower(Strip(part));
    if candidate == "" then chosen
    else
      var exact := FirstExact(candidate, byLength, chosen);
      if exact.Some? then chosen + [exact.value]
      else
        var inside := FirstInside(candidate, byLength, chosen);
        if inside.Some? then chosen + [inside.value] else chosen
  }

  function ChooseAll(parts: seq<string>, byLength: seq<string>, chosen: seq<string>): seq<string>
    decreases |parts|
  {
    if parts == [] then chosen else ChooseAll(parts[1..], byLength, Choose(parts[0], byLength, chosen))
  }

  function Sorted(options: seq<string>): (r: seq<string>)
    ensures forall o :: o in r <==> o in options
  {
    var order := LongestFirst(options, 0);
    var r := seq(|order|, i requires 0 <= i < |order| => options[order[i]]);
    assert forall o | o in r :: o in options;
    assert forall k | 0 <= k < |options| :: k in order;
    SortedHasAll(options, order, r);
    r
  }

  lemma SortedHasAll(options: seq<string>, order: seq<nat>, r: seq<string>)
    requires Places(order, |options|) && |r| == |order|
    requires forall k | 0 <= k < |options| :: k in order
    requires forall i | 0 <= i < |order| :: r[i] == options[order[i]]
    ensures forall o | o in options :: o in r
  {
    forall o | o in options ensures o in r {
      var k :| 0 <= k < |options| && options[k] == o;
      assert k in order;
      var i :| 0 <= i < |order| && order[i] == k;
      assert r[i] == o;
    }
  }

  /** The reply without white space around it and without the prefix a tap puts in front. */
  function Body(text: string): string {
    var body := Strip(text);
    if |body| >= |PREFIX| && Lower(body)[..|PREFIX|] == PREFIX then Strip(body[|PREFIX|..]) else body
  }

  function FirstNamed(byLength: seq<string>, folded: string): (r: Option<string>)
    ensures r.Some? ==> r.value in byLength && Lower(r.value) == folded
    ensures r.None? ==> forall o | o in byLength :: Lower(o) != folded
  {
    if byLength == [] then None
    else if Lower(byLength[0]) == folded then Some(byLength[0])
    else FirstNamed(byLength[1..], folded)
  }

  predicate SaysNone(folded: string) {
    exists token | token in NONE_TOKENS :: Contains(folded, token)
  }

  /** The chosen values; `Some([])` for an explicit "none"; `None` when nothing on offer is named. */
  function Resolve(text: string, options: seq<string>): Option<seq<string>> {
    var body := Body(text);
    if options == [] || body == "" then None
    else
      var named := FirstNamed(Sorted(options), Lower(body));
      if named.Some? then Some([named.value])
      else if Lower(body) in NONE_TOKENS then Some([])
      else
        var chosen := ChooseAll(SplitReply(body), Sorted(options), []);
        if chosen != [] then Some(chosen)
        else if SaysNone(Lower(body)) then Some([])
        else None
  }

  /** One part of the reply: an exact value if there is one, otherwise a value inside it. */
  method ChoosePart(part: string, byLength: seq<string>, before: seq<string>) returns (chosen: seq<string>)
    ensures chosen == Choose(part, byLength, before)
  {
    hide Strip, Lower, Exact, Inside;
    var candidate := Lower(Strip(part));
    chosen := before;
    if candidate == "" {
      return;
    }
    for k := 0 to |byLength|
      invariant chosen == before
      invariant FirstExact(candidate, byLength, before) == FirstExact(candidate, byLength[k..], before)
    {
      if Exact(byLength[k], candidate, chosen) {
        return chosen + [byLength[k]];
      }
    }
    for k := 0 to |byLength|
      invariant chosen == before
      invariant FirstInside(candidate, byLength, before) == FirstInside(candidate, byLength[k..], before)
    {
      if Inside(byLength[k], candidate, chosen) {
        return chosen + [byLength[k]];
      }
    }
  }

  method ResolveMultiSelect(text: string, options: seq<string>) returns (r: Option<seq<string>>)
    ensures r == Resolve(text, options)
  {
    hide SplitReply, Sorted, Lower, Body, SaysNone, Choose, NONE_TOKENS, FirstNamed;
    var body := Body(text);
    if options == [] || body == "" {
      return None;
    }
    var byLength := Sorted(options);
    var named := FirstNamed(byLength, Lower(body));
    if named.Some? {
      return Some([named.value]);
    }
    if Lower(body) in NONE_TOKENS {
      return Some([]);
    }
    var chosen: seq<string> := [];
    var parts := SplitReply(body);
    for i := 0 to |parts|
      invariant ChooseAll(parts[i..], byLength, chosen) == ChooseAll(parts, byLength, [])
    {
      assert parts[i..][0] == parts[i] && parts[i..][1..] == parts[i + 1..];
      chosen := ChoosePart(parts[i], byLength, chosen);
    }
    assert parts[|parts|..] == [];
    if chosen != [] {
      return Some(chosen);
    }
    r := if SaysNone(Lower(body)) then Some([]) else None;
  }

  /** A reply that names nothing on offer means nothing was chosen if it says so in one of these ways, and is no
      answer otherwise. */
  lemma NothingNamed(text: string, options: seq<string>)
    requires options != [] && Body(text) != "" && FirstNamed(Sorted(options), Lower(Body(text))).None?
    requires ChooseAll(SplitReply(Body(text)), Sorted(options), []) == []
    ensures var low := Lower(Body(text));
            var saysSo := Contains(low, "none") || Contains(low, "no format") || Contains(low, "nothing")
                          || Contains(low, "skip") || Contains(low, "neither") || Contains(low, "n/a")
                          || Contains(low, "na");
            Resolve(text, options) == if saysSo then Some([]) else None
  {
    hide Body, Sorted, FirstNamed, ChooseAll, SplitReply, Lower;
    var low := Lower(Body(text));
    if low in NONE_TOKENS {
      ContainsItself(low);
    }
    if Contains(low, "no formats") {
      PrefixContained(low, "no formats", "no format");
    }
    hide Contains;
  }

  lemma ContainsItself(s: string)
    ensures Contains(s, s)
  {
    assert At(s, 0, s);
  }

  lemma PrefixContained(hay: string, needle: string, prefix: string)
    requires prefix <= needle && Contains(hay, needle)
    ensures Contains(hay, prefix)
  {
    var i: nat :| i <= |hay| && At(hay, i, needle);
    assert hay[i..i + |prefix|] == hay[i..i + |needle|][..|prefix|];
    assert At(hay, i, prefix);
  }

  // ----- only what was offered, and nothing twice -----

  ghost predicate Distinct(xs: seq<string>) {
    forall i, j | 0 <= i < j < |xs| :: xs[i] != xs[j]
  }

  lemma {:induction false} ChosenAreOffered(parts: seq<string>, byLength: seq<string>, chosen: seq<string>)
    requires Distinct(chosen) && forall o | o in chosen :: o in byLength
    ensures var r := ChooseAll(parts, byLength, chosen);
            Distinct(r) && (forall o | o in r :: o in byLength) && chosen <= r
    decreases |parts|
  {
    if parts != [] {
      hide Exact, Inside, Strip, Lower;
      var next := Choose(parts[0], byLength, chosen);
      assert next == chosen || (|next| == |chosen| + 1 && next[..|chosen|] == chosen
                                && next[|chosen|] in byLength && next[|chosen|] !in chosen) by { AddsOne(parts[0],
                                    byLength, chosen); }
      ChosenAreOffered(parts[1..], byLength, next);
    }
  }

  lemma AddsOne(part: string, byLength: seq<string>, chosen: seq<string>)
    ensures var next := Choose(part, byLength, chosen);
            next == chosen || (|next| == |chosen| + 1 && next[..|chosen|] == chosen
                               && next[|chosen|] in byLength && next[|chosen|] !in chosen)
  {
    hide Contains, Strip, Lower;
  }

  /** Whatever the member writes, only offered values come back, each at most once, in the offered
      spelling. */
  lemma Closure(text: string, options: seq<string>)
    ensures var r := Resolve(text, options);
            r.Some? ==> Distinct(r.value) && forall o | o in r.value :: o in options
  {
    hide Body, SplitReply, Sorted, Choose, SaysNone, Lower;
    ChosenAreOffered(SplitReply(Body(text)), Sorted(options), []);
  }

  // ----- the round trip of a tap -----

  /** The text a tap posts: the chosen labels joined by ", ". */
  function Joined(choice: seq<string>): string {
    if choice == [] then ""
    else if |choice| == 1 then choice[0]
    else choice[0] + ", " + Joined(choice[1..])
  }

  /** No separator anywhere in the option. */
  predicate Whole(option: string) {
    forall p | 0 <= p < |option| :: SeparatorAt(option, p) == 0
  }

  ghost predicate Offerable(options: seq<string>) {
    && (forall o | o in options :: o != "" && Trimmed(o) && Whole(o))
    && (forall i, j | 0 <= i < j < |options| :: Lower(options[i]) != Lower(options[j]))
  }

  /** Text that starts (or ends) without continuing a word. */
  predicate Breaks(before: string, after: string) {
    && (before == "" || !WordChar(before[|before| - 1]))
    && (after == "" || !WordChar(after[0]))
  }

  lemma AndIsLetters(s: string, q: nat)
    requires q + 3 <= |s| && Lower(s[q..q + 3]) == "and"
    ensures WordChar(s[q]) && WordChar(s[q + 1]) && WordChar(s[q + 2])
  {
    var w := s[q..q + 3];
    assert Lower(w)[0] == 'a' && Lower(w)[1] == 'n' && Lower(w)[2] == 'd';
    assert w[0] == s[q] && w[1] == s[q + 1] && w[2] == s[q + 2];
  }

  lemma BoundaryInContext(before: string, option: string, after: string, p: nat)
    requires Breaks(before, after) && p <= |option| && option != ""
    ensures Boundary(before + option + after, |before| + p) == Boundary(option, p)
  {
    hide WordChar;
    var s, q := before + option + after, |before| + p;
    assert before != "" ==> s[|before| - 1] == before[|before| - 1];
    assert after != "" ==> s[|before| + |option|] == after[0];
    assert p > 0 ==> s[q - 1] == option[p - 1];
    assert p < |option| ==> s[q] == option[p];
  }

  lemma SeparatorInContext(before: string, option: string, after: string, p: nat)
    requires Breaks(before, after) && p < |option| && SeparatorAt(option, p) == 0
    ensures SeparatorAt(before + option + after, |before| + p) == 0
  {
    var s, q := before + option + after, |before| + p;
    assert s[q] == option[p];
    assert after != "" ==> s[|before| + |option|] == after[0];
    if q + 3 <= |s| && Lower(s[q..q + 3]) == "and" {
      AndIsLetters(s, q);
      assert p + 3 <= |option|;
      assert s[q..q + 3] == option[p..p + 3];
      BoundaryInContext(before, option, after, p);
      BoundaryInContext(before, option, after, p + 3);
      hide Boundary, WordChar, Breaks, Lower;
    }
  }

  lemma {:induction false} RunToSeparator(s: string, start: nat, p: nat, end: nat)
    requires start <= p <= end <= |s| && (end == |s| || SeparatorAt(s, end) == 1)
    requires forall q | p <= q < end :: SeparatorAt(s, q) == 0
    ensures SplitFrom(s, start, p) == if end == |s| then [s[start..]] else [s[start..end]] + SplitFrom(s, end + 1, end + 1)
    decreases end - p
  {
    if p < end {
      hide SeparatorAt;
      RunToSeparator(s, start, p + 1, end);
    }
  }

  lemma RunOfPart(s: string, start: nat, p: nat, end: nat)
    requires start <= p <= end <= |s| && (end == |s| || s[end] == ',')
    requires forall q | p <= q < end :: SeparatorAt(s, q) == 0
    ensures SplitFrom(s, start, p) == if end == |s| then [s[start..]] else [s[start..end]] + SplitFrom(s, end + 1, end + 1)
  {
    RunToSeparator(s, start, p, end);
  }

  /** The parts as the separators leave them: all but the first after a blank. */
  function Spaced(choice: seq<string>, lead: string): (r: seq<string>)
    ensures |r| == |choice|
  {
    seq(|choice|, i requires 0 <= i < |choice| => if i == 0 then lead + choice[0] else " " + choice[i])
  }

  lemma BlankIsNoSeparator(s: string, p: nat)
    requires p < |s| && s[p] == ' '
    ensures SeparatorAt(s, p) == 0
  {
    if p + 3 <= |s| {
      assert Lower(s[p..p + 3])[0] == ' ';
    }
  }

  lemma OptionRun(s: string, before: string, lead: string, option: string, after: string)
    requires s == before + lead + option + after && (lead == "" || lead == " ") && Whole(option)
    requires Breaks(before + lead, after)
    ensures forall q | |before| <= q < |before + lead + option| :: SeparatorAt(s, q) == 0
  {
    hide SeparatorAt, Breaks;
    assert s == (before + lead) + option + after;
    forall q | |before| <= q < |before + lead + option|
      ensures SeparatorAt(s, q) == 0
    {
      if q < |before + lead| {
        assert s[q] == ' ';
        BlankIsNoSeparator(s, q);
      } else {
        SeparatorInContext(before + lead, option, after, q - |before + lead|);
      }
    }
  }

  lemma SplitLast(s: string, before: string, lead: string, option: string)
    requires s == before + lead + option && (lead == "" || lead == " ") && Whole(option)
    requires Breaks(before + lead, "")
    ensures SplitFrom(s, |before|, |before|) == [lead + option]
  {
    hide SeparatorAt, SplitFrom, Whole, Breaks;
    assert s == before + lead + option + "";
    OptionRun(s, before, lead, option, "");
    RunOfPart(s, |before|, |before|, |s|);
    assert s[|before|..] == lead + option;
  }

  lemma SplitNext(s: string, before: string, lead: string, option: string, rest: string)
    requires s == before + lead + option + ("," + rest) && (lead == "" || lead == " ") && Whole(option)
    requires Breaks(before + lead, "")
    ensures var end := |before + lead + option|;
            SplitFrom(s, |before|, |before|) == [lead + option] + SplitFrom(s, end + 1, end + 1)
  {
    hide SeparatorAt, SplitFrom, Whole;
    var end := |before + lead + option|;
    OptionRun(s, before, lead, option, "," + rest);
    assert s[end] == ',';
    RunOfPart(s, |before|, |before|, end);
    assert s[|before|..end] == lead + option;
  }

  lemma {:induction false} SplitJoined(s: string, before: string, lead: string, choice: seq<string>)
    requires choice != [] && forall o | o in choice :: o != "" && Whole(o)
    requires s == before + lead + Joined(choice) && (lead == "" || lead == " ")
    requires Breaks(before + lead, "")
    ensures SplitFrom(s, |before|, |before|) == Spaced(choice, lead)
    decreases |choice|
  {
    hide SeparatorAt, SplitFrom, Whole, Breaks, Spaced;
    var option := choice[0];
    assert option in choice;
    SpacedStep(choice, lead);
    if |choice| == 1 {
      SplitLast(s, before, lead, option);
      NothingSpaced(choice);
    } else {
      var more := choice[1..];
      assert forall o | o in more :: o in choice;
      assert s == before + lead + option + ("," + (" " + Joined(more)));
      SplitNext(s, before, lead, option, " " + Joined(more));
      var before' := before + lead + option + ",";
      assert s == before' + " " + Joined(more);
      BreaksAfterBlank(before');
      SplitJoined(s, before', " ", more);
    }
  }

  /** A comma, a semicolon, a plus, an ampersand, a slash and a bar all separate. */
  lemma AnySeparator(a: string, c: char, b: string)
    requires a != "" && b != "" && Whole(a) && Whole(b)
    requires c == ',' || c == ';' || c == '+' || c == '&' || c == '/' || c == '|'
    ensures SplitReply(a + [c] + b) == [a, b]
  {
    var s := a + [c] + b;
    assert s[|a|] == c && SeparatorAt(s, |a|) == 1;
    assert s == "" + "" + a + ([c] + b) && s == (a + [c]) + "" + b + "";
    assert Breaks("" + "", [c] + b) && Breaks((a + [c]) + "", "");
    hide SeparatorAt, Whole, Breaks;
    OptionRun(s, "", "", a, [c] + b);
    OptionRun(s, a + [c], "", b, "");
    assert |"" + "" + a| == |a| && |(a + [c]) + "" + b| == |s|;
    RunToSeparator(s, 0, 0, |a|);
    RunToSeparator(s, |a| + 1, |a| + 1, |s|);
    assert s[0..|a|] == a && s[|a| + 1..] == b;
  }

  lemma BreaksAfterBlank(before: string)
    ensures Breaks(before + " ", "")
  {
  }

  lemma NothingSpaced(choice: seq<string>)
    requires |choice| == 1
    ensures Spaced(choice[1..], " ") == []
  {
  }

  lemma SpacedStep(choice: seq<string>, lead: string)
    requires choice != []
    ensures Spaced(choice, lead) == [lead + choice[0]] + Spaced(choice[1..], " ")
  {
  }

  lemma SameOption(options: seq<string>, a: string, b: string)
    requires Offerable(options) && a in options && b in options && Lower(a) == Lower(b)
    ensures a == b
  {
    var i :| 0 <= i < |options| && options[i] == a;
    var j :| 0 <= j < |options| && options[j] == b;
    hide Whole, Lower;
  }

  lemma ChoosesIt(options: seq<string>, option: string, lead: string, chosen: seq<string>)
    requires Offerable(options) && option in options && option !in chosen && (lead == "" || lead == " ")
    ensures Choose(lead + option, Sorted(options), chosen) == chosen + [option]
  {
    assert option != "" && Trimmed(option);
    StripLead(option);
    StripTrims(option);
    assert "" + option == option;
    assert Strip(lead + option) == option;
    assert |Lower(option)| == |option|;
    hide Strip, Sorted, FirstExact, Lower;
    var r := FirstExact(Lower(option), Sorted(options), chosen);
    assert Exact(option, Lower(option), chosen) && option in Sorted(options);
    SameOption(options, r.value, option);
  }

  lemma ChooseStep(part: string, rest: seq<string>, byLength: seq<string>, chosen: seq<string>)
    ensures ChooseAll([part] + rest, byLength, chosen) == ChooseAll(rest, byLength, Choose(part, byLength, chosen))
  {
    assert ([part] + rest)[1..] == rest;
  }

  lemma {:induction false} JoinedIsTrimmed(choice: seq<string>)
    requires choice != [] && forall o | o in choice :: o != "" && Trimmed(o)
    ensures Joined(choice) != "" && Trimmed(Joined(choice))
  {
    assert choice[0] in choice;
    if |choice| > 1 {
      assert forall o | o in choice[1..] :: o in choice;
      JoinedIsTrimmed(choice[1..]);
      var t := Joined(choice[1..]);
      var s := choice[0] + ", " + t;
      assert s[|s| - 1] == t[|t| - 1];
    }
  }

  lemma TapBody(joined: string)
    requires joined != "" && Trimmed(joined)
    ensures Body("Selected: " + joined) == joined
  {
    var text := "Selected: " + joined;
    StripTrims(text);
    StripLead(joined);
    assert text[9..] == " " + joined;
    assert Lower(text)[..9] == Lower("Selected:");
    assert Lower("Selected:") == PREFIX;
    hide Strip, Lower;
  }

  lemma CommaInJoined(choice: seq<string>)
    requires |choice| > 1
    ensures ',' in Joined(choice) && ',' in Lower(Joined(choice))
  {
    var s := Joined(choice);
    assert s[|choice[0]|] == ',';
    assert Lower(s)[|choice[0]|] == ',';
  }

  lemma WholeHasNoComma(option: string)
    requires Whole(option)
    ensures ',' !in Lower(option)
  {
    forall k | 0 <= k < |option| ensures Lower(option)[k] != ',' {
      assert SeparatorAt(option, k) == 0;
    }
  }

  lemma TapOne(options: seq<string>, option: string)
    requires Offerable(options) && option in options
    ensures Resolve("Selected: " + option, options) == Some([option])
  {
    assert option != "" && Trimmed(option);
    TapBody(option);
    var named := FirstNamed(Sorted(options), Lower(option));
    hide Offerable, Body, Lower, Sorted, FirstNamed;
    SameOption(options, named.value, option);
  }

  lemma NoneTokensHaveNoComma(folded: string)
    requires ',' in folded
    ensures folded !in NONE_TOKENS
  {
    assert ',' !in "none" && ',' !in "no formats" && ',' !in "no format" && ',' !in "nothing";
    assert ',' !in "skip" && ',' !in "neither" && ',' !in "n/a" && ',' !in "na";
  }

  lemma NotNamed(options: seq<string>, folded: string)
    requires Offerable(options) && ',' in folded
    ensures FirstNamed(Sorted(options), folded).None?
  {
    hide Lower, Sorted, Whole, Trimmed;
    var named := FirstNamed(Sorted(options), folded);
    if named.Some? {
      WholeHasNoComma(named.value);
    }
  }

  lemma NotOneValue(options: seq<string>, choice: seq<string>)
    requires Offerable(options) && |choice| > 1
    ensures FirstNamed(Sorted(options), Lower(Joined(choice))).None? && Lower(Joined(choice)) !in NONE_TOKENS
  {
    hide *;
    CommaInJoined(choice);
    NoneTokensHaveNoComma(Lower(Joined(choice)));
    NotNamed(options, Lower(Joined(choice)));
  }
}
