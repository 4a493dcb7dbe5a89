/**
 Which offered option a reply names: by year, by label, by a title inside the reply, by ordinal word or
 by number, in that order.  Options are named by their position.
 */
module PickOption {
  import opened Common
  import opened Text
  import opened ByLength
  import TitleMatch

  datatype Choice = Choice(id: string, title: string, year: Option<int>, value: string)

  // ----- 1. a release year -----

  /** The runs of four digits, left to right, not overlapping. */
  function FourDigits(s: string): seq<int> {
    if |s| < 4 then []
    else if Digit(s[0]) && Digit(s[1]) && Digit(s[2]) && Digit(s[3]) then [ParseNat(s[..4])] + FourDigits(s[4..])
    else FourDigits(s[1..])
  }

  predicate Plausible(year: int) {
    1900 <= year <= 2100
  }

  /** The positions below `n` of the options from `year`. */
  function FromYear(options: seq<Choice>, year: int, n: nat): (r: seq<nat>)
    requires n <= |options|
    ensures forall i :: i in r <==> 0 <= i < n && options[i].year == Some(year)
    ensures forall a | 0 <= a < |r| :: r[a] < n
    ensures forall a, b | 0 <= a < b < |r| :: r[a] < r[b]
  {
    if n == 0 then []
    else FromYear(options, year, n - 1) + if options[n - 1].year == Some(year) then [n - 1] else []
  }

  function ByYear(tokens: seq<int>, options: seq<Choice>): (r: Option<nat>)
    ensures r.Some? ==> r.value < |options|
  {
    if tokens == [] then None
    else if Plausible(tokens[0]) && |FromYear(options, tokens[0], |options|)| == 1 then
      var r := FromYear(options, tokens[0], |options|);
      assert r[0] in r;
      Some(r[0])
    else ByYear(tokens[1..], options)
  }

  // ----- 2. a label -----

  function ByLabel(reply: string, options: seq<Choice>, from: nat): (r: Option<nat>)
    requires from <= |options|
    ensures r.Some? ==> from <= r.value < |options| && Lower(Strip(options[r.value].title)) == reply
                        && forall j | from <= j < r.value :: Lower(Strip(options[j].title)) != reply
    ensures r.None? ==> forall j | from <= j < |options| :: Lower(Strip(options[j].title)) != reply
    decreases |options| - from
  {
    if from == |options| then None
    else if Lower(Strip(options[from].title)) == reply then Some(from)
    else ByLabel(reply, options, from + 1)
  }

  // ----- 3. a title inside the reply, longest title first -----

  function Titles(options: seq<Choice>): (r: seq<string>)
    ensures |r| == |options|
    ensures forall i | 0 <= i < |r| :: r[i] == options[i].title
  {
    seq(|options|, i requires 0 <= i < |options| => options[i].title)
  }

  predicate Mentions(low: string, option: Choice) {
    |option.title| >= 4 && Contains(low, Lower(option.title))
  }

  function FirstMentioned(low: string, options: seq<Choice>, order: seq<nat>): (r: Option<nat>)
    requires Places(order, |options|)
    ensures r.Some? ==> r.value in order && r.value < |options| && Mentions(low, options[r.value])
    ensures r.None? ==> forall y | 0 <= y < |order| :: !Mentions(low, options[order[y]])
  {
    if order == [] then None
    else if Mentions(low, options[order[0]]) then Some(order[0])
    else FirstMentioned(low, options, order[1..])
  }

  // ----- 4. an ordinal word -----

  predicate HasWord(s: string, word: string) {
    exists i: nat {:trigger At(s, i, word)} | i + |word| <= |s| ::
      At(s, i, word) && Boundary(s, i) && Boundary(s, i + |word|)
  }

  const ORDINALS: seq<(string, int)> := [
    ("first", 0), ("1st", 0), ("second", 1), ("2nd", 1), ("third", 2), ("3rd", 2),
    ("fourth", 3), ("4th", 3), ("fifth", 4), ("5th", 4), ("last", -1)
  ]

  /** The place the first ordinal word of the list found in `low` stands for. */
  function Ordinal(low: string, ordinals: seq<(string, int)>): Option<int> {
    if ordinals == [] then None
    else if HasWord(low, ordinals[0].0) then Some(ordinals[0].1)
    else Ordinal(low, ordinals[1..])
  }

  /** A list place, negative ones counting from the end. */
  function Place(i: int, n: nat): (r: Option<nat>)
    ensures r.Some? ==> r.value < n
  {
    if 0 <= i < n then Some(i) else if i < 0 <= n + i then Some(n + i) else None
  }

  // ----- 5. a number -----

  const NUMBER_WORDS := ["number", "option", "no.", "no", "#", ""]

  function SkipWhite(s: string, i: nat): (j: nat)
    requires i <= |s|
    ensures i <= j <= |s|
    decreases |s| - i
  {
    if i < |s| && White(s[i]) then SkipWhite(s, i + 1) else i
  }

  /** A digit 1 to 9 standing alone after one of the words at position `p`. */
  function NumberAfter(s: string, p: nat, words: seq<string>): (r: Option<nat>)
    requires p <= |s|
    ensures r.Some? ==> r.value < 9
  {
    if words == [] then None
    else if !At(s, p, words[0]) then NumberAfter(s, p, words[1..])
    else
      var d := SkipWhite(s, p + |words[0]|);
      if d < |s| && '1' <= s[d] <= '9' && Boundary(s, d + 1) then Some((s[d] - '1') as nat)
      else NumberAfter(s, p, words[1..])
  }

  function Number(s: string, p: nat): (r: Option<nat>)
    requires p <= |s|
    ensures r.Some? ==> r.value < 9
    decreases |s| - p
  {
    var here := if Boundary(s, p) then NumberAfter(s, p, NUMBER_WORDS) else None;
    if here.Some? then here else if p < |s| then Number(s, p + 1) else None
  }

  /** The position of the option the reply names, if it names one. */
  function ResolveOption(text: string, options: seq<Choice>): (r: Option<nat>)
    ensures r.Some? ==> r.value < |options|
  {
    if options == [] then None
    else
      var low, reply := Lower(text), Lower(Strip(text));
      var year := ByYear(FourDigits(low), options);
      if year.Some? then year
      else
        var exact := if reply != "" then ByLabel(reply, options, 0) else None;
        if exact.Some? then exact
        else
          var mentioned := FirstMentioned(low, options, LongestFirst(Titles(options), 0));
          if mentioned.Some? then mentioned
          else
            var ordinal := Ordinal(low, ORDINALS);
            if ordinal.Some? then Place(ordinal.value, |options|)
            else
              var number := Number(low, 0);
              if number.Some? then Place(number.value, |options|) else None
  }

  // ----- the order of step 3 -----

  lemma {:induction false} FirstMentionedIsSoonest(low: string, options: seq<Choice>, order: seq<nat>, k: nat)
    requires Ordered(Titles(options), order) && k in order && k < |options| && Mentions(low, options[k])
    ensures var r := FirstMentioned(low, options, order);
            r.Some? && k < |options| && (r.value == k || Sooner(Titles(options), r.value, k))
  {
    hide Mentions, Sooner;
    if !Mentions(low, options[order[0]]) {
      FirstMentionedIsSoonest(low, options, order[1..], k);
    } else if order[0] != k {
      var y :| 0 <= y < |order| && order[y] == k;
      assert Sooner(Titles(options), order[0], order[y]);
    }
  }

  // ----- tapping an offered movie -----

  /** The label of a movie, which a tap posts back. */
  function MovieLabel(o: Choice): string {
    if o.year.Some? then o.title + " (" + IntText(o.year.value) + ")" else o.title
  }

  /** No run of four digits. */
  predicate NoYearIn(s: string) {
    FourDigits(s) == []
  }

  predicate PlainTitle(t: string) {
    Trimmed(t) && '(' !in t && ')' !in t && NoYearIn(t)
  }

  predicate Tappable(o: Choice) {
    && PlainTitle(o.title) && |o.title| >= 4
    && (o.year.Some? ==> 0 <= o.year.value <= 9999)
  }

  predicate Alone(options: seq<Choice>, i: nat)
    requires i < |options|
  {
    forall j | 0 <= j < |options| && j != i :: options[j].year != options[i].year
  }

  predicate FirstOfItsTitle(options: seq<Choice>, i: nat)
    requires i < |options|
  {
    forall j | 0 <= j < i :: Lower(options[j].title) != Lower(options[i].title)
  }

  lemma {:induction false} NoRunBefore(a: string, rest: string)
    requires FourDigits(a) == []
    requires rest == [] || !Digit(rest[0])
    ensures FourDigits(a + rest) == if rest == [] then [] else FourDigits(rest[1..])
  {
    var s := a + rest;
    if a == [] {
      assert s == rest;
      if |rest| >= 1 && |rest| < 4 {
        assert FourDigits(rest[1..]) == [];
      }
    } else {
      assert s[1..] == a[1..] + rest;
      assert |a| >= 4 ==> s[0] == a[0] && s[1] == a[1] && s[2] == a[2] && s[3] == a[3];
      if 0 < |a| < 4 && rest != [] {
        assert s[|a|] == rest[0];
      }
      assert FourDigits(a[1..]) == [];
      NoRunBefore(a[1..], rest);
    }
  }

  lemma {:induction false} NatTextDigits(n: nat)
    requires n <= 9999
    ensures |NatText(n)| == if n < 10 then 1 else if n < 100 then 2 else if n < 1000 then 3 else 4
  {
    if n >= 10 {
      NatTextDigits(n / 10);
    }
  }

  lemma RunInYear(n: nat)
    requires n <= 9999
    ensures FourDigits("(" + NatText(n) + ")") == if n >= 1000 then [n] else []
  {
    NatTextDigits(n);
    ParseNatText(n);
    var d := NatText(n);
    hide NatText, ParseNat;
    var s := "(" + d + ")";
    assert s[1..] == d + ")";
    assert forall k | 0 <= k < |d| :: d[k] in d;
    if n >= 1000 {
      var u := d + ")";
      assert s[1..] == u && !Digit(s[0]) && u[..4] == d && u[4..] == ")";
      assert u[0] == d[0] && u[1] == d[1] && u[2] == d[2] && u[3] == d[3];
      assert FourDigits(u) == [n];
    } else {
      var u := d + ")";
      assert s[1..] == u && u[|d|] == ')' && !Digit(s[0]);
      assert FourDigits(u) == [] by {
        if |u| == 4 { assert !Digit(u[3]) && |u[1..]| == 3; }
      }
    }
  }

  /** The year tokens of a label are its year. */
  lemma YearsOfLabel(t: string, n: nat)
    requires n <= 9999 && NoYearIn(t)
    ensures FourDigits(t + " (" + NatText(n) + ")") == if n >= 1000 then [n] else []
  {
    var rest := " (" + NatText(n) + ")";
    assert t + " (" + NatText(n) + ")" == t + rest;
    assert rest[1..] == "(" + NatText(n) + ")";
    NoRunBefore(t, rest);
    RunInYear(n);
  }

  lemma AllDigitsHaveRun(t: string)
    requires |t| >= 4 && forall c | c in t :: Digit(c)
    ensures FourDigits(t) != []
  {
    assert t[0] in t && t[1] in t && t[2] in t && t[3] in t;
  }

  lemma FoundAvoids(hay: string, p: nat, t: string, i: nat)
    requires At(hay, p, t) && i < |hay| && hay[i] !in t
    ensures i < p || p + |t| <= i
  {
    assert forall k | 0 <= k < |t| :: t[k] == hay[p + k] && t[k] in t;
  }

  lemma FoundEnds(hay: string, p: nat, t: string)
    requires At(hay, p, t) && Trimmed(t) && t != []
    ensures !White(hay[p + |t| - 1])
  {
    assert hay[p..p + |t|][|t| - 1] == hay[p + |t| - 1];
  }

  lemma FoundAmongDigits(hay: string, p: nat, t: string)
    requires At(hay, p, t) && forall i | p <= i < p + |t| :: Digit(hay[i])
    ensures forall c | c in t :: Digit(c)
  {
    assert forall k | 0 <= k < |t| :: t[k] == hay[p + k];
  }

  /** A plain title inside a label lies inside the label's own title. */
  lemma InsideTheTitle(own: string, digits: string, t: string, p: nat)
    requires PlainTitle(t) && |t| >= 4 && forall c | c in digits :: Digit(c)
    requires At(own + " (" + digits + ")", p, t)
    ensures p + |t| <= |own| && At(own, p, t)
  {
    var hay, n := own + " (" + digits + ")", |own|;
    assert hay[n] == ' ' && hay[n + 1] == '(' && hay[|hay| - 1] == ')';
    assert forall i | n + 2 <= i < |hay| - 1 :: hay[i] == digits[i - (n + 2)] && hay[i] in digits;
    FoundAvoids(hay, p, t, n + 1);
    FoundAvoids(hay, p, t, |hay| - 1);
    FoundEnds(hay, p, t);
    if p > n + 1 {
      FoundAmongDigits(hay, p, t);
      AllDigitsHaveRun(t);
    } else {
      assert own[p..p + |t|] == hay[p..p + |t|];
    }
  }

  lemma ContainedAndLong(own: string, t: string, p: nat)
    requires p + |t| <= |own| && At(own, p, t)
    ensures |t| <= |own| && (|t| == |own| ==> t == own)
  {
  }

  /** No option's title found in the label is longer than the label's own, and one as long is the same. */
  lemma NothingLonger(own: string, digits: string, t: string)
    requires PlainTitle(t) && |t| >= 4 && forall c | c in digits :: Digit(c)
    requires Contains(own + " (" + digits + ")", t)
    ensures |t| <= |own| && (|t| == |own| ==> t == own)
  {
    var p: nat :| p <= |own + " (" + digits + ")"| && At(own + " (" + digits + ")", p, t);
    InsideTheTitle(own, digits, t, p);
    ContainedAndLong(own, t, p);
  }

  lemma {:induction false} LowerYears(s: string)
    ensures FourDigits(Lower(s)) == FourDigits(s)
  {
    if |s| >= 4 {
      assert forall c :: Digit(LowerChar(c)) == Digit(c) && (Digit(c) ==> LowerChar(c) == c);
      if Digit(s[0]) && Digit(s[1]) && Digit(s[2]) && Digit(s[3]) {
        assert Lower(s)[..4] == s[..4] && Lower(s)[4..] == Lower(s[4..]);
        LowerYears(s[4..]);
      } else {
        assert Lower(s)[1..] == Lower(s[1..]);
        LowerYears(s[1..]);
      }
    }
  }

  lemma LowerIsPlain(t: string)
    requires PlainTitle(t)
    ensures PlainTitle(Lower(t))
  {
    LowerYears(t);
    assert forall k | 0 <= k < |t| :: t[k] in t;
    if t != [] {
      TitleMatch.WhiteLower(t[0]);
      TitleMatch.WhiteLower(t[|t| - 1]);
    }
    assert forall k | 0 <= k < |t| :: Lower(t)[k] != '(' && Lower(t)[k] != ')';
  }

  lemma LowerLabel(t: string, digits: string)
    requires forall c | c in digits :: Digit(c)
    ensures Lower(t + " (" + digits + ")") == Lower(t) + " (" + digits + ")"
  {
    forall k | 0 <= k < |digits| ensures LowerChar(digits[k]) == digits[k] {
      assert digits[k] in digits;
    }
  }

  lemma LabelIsTrimmed(t: string, digits: string)
    requires Trimmed(t) && t != []
    ensures Strip(t + " (" + digits + ")") == t + " (" + digits + ")"
  {
    StripTrims(t + " (" + digits + ")");
  }

  lemma YearStep(options: seq<Choice>, i: nat, y: int)
    requires i < |options| && options[i].year == Some(y)
    ensures ByYear([y], options) == if Plausible(y) && Alone(options, i) then Some(i) else None
  {
    var r := FromYear(options, y, |options|);
    assert i in r;
    assert [y][1..] == [] && ByYear([], options) == None;
    if Alone(options, i) {
      forall a | 0 <= a < |r| ensures r[a] == i {
        assert r[a] in r;
      }
      if |r| != 1 { NotAllSame(r, i); }
    } else {
      NotOnlyOne(options, i, y, r);
    }
    assert (|r| == 1) == Alone(options, i);
    assert |r| == 1 ==> r[0] == i;
    hide Alone, FromYear, Plausible;
  }

  lemma NotOnlyOne(options: seq<Choice>, i: nat, y: int, r: seq<nat>)
    requires i < |options| && options[i].year == Some(y) && !Alone(options, i)
    requires forall j :: j in r <==> 0 <= j < |options| && options[j].year == Some(y)
    ensures |r| != 1
  {
    var j :| 0 <= j < |options| && j != i && options[j].year == options[i].year;
    assert i in r && j in r;
  }

  ghost predicate AllPlain(options: seq<Choice>) {
    forall j | 0 <= j < |options| :: PlainTitle(options[j].title)
  }

  /** `r` is the first option with the title of option `i`. */
  predicate FirstWithTitle(options: seq<Choice>, i: nat, r: nat)
    requires i < |options|
  {
    && r < |options| && Lower(options[r].title) == Lower(options[i].title)
    && forall j | 0 <= j < r :: Lower(options[j].title) != Lower(options[i].title)
  }

  lemma TitleStep(options: seq<Choice>, i: nat, digits: string)
    requires i < |options| && AllPlain(options) && |options[i].title| >= 4 && forall c | c in digits :: Digit(c)
    ensures var low := Lower(options[i].title) + " (" + digits + ")";
            var r := FirstMentioned(low, options, LongestFirst(Titles(options), 0));
            r.Some? && FirstWithTitle(options, i, r.value)
  {
    var own := Lower(options[i].title);
    var low := own + " (" + digits + ")";
    var order := LongestFirst(Titles(options), 0);
    LongestFirstIsOrdered(Titles(options), 0);
    assert At(low, 0, own);
    FirstMentionedIsSoonest(low, options, order, i);
    var r := FirstMentioned(low, options, order).value;
    LowerIsPlain(options[r].title);
    NothingLonger(own, digits, Lower(options[r].title));
    assert Lower(options[r].title) == own;
    hide FirstMentioned, LongestFirst, Mentions;
    forall j | 0 <= j < r ensures Lower(options[j].title) != own {
      MentionsSame(low, options, i, j);
      assert j in order;
      if Mentions(low, options[j]) {
        FirstMentionedIsSoonest(low, options, order, j);
      }
    }
  }

  lemma MentionsSame(low: string, options: seq<Choice>, i: nat, j: nat)
    requires i < |options| && j < |options| && Mentions(low, options[i])
    ensures Lower(options[j].title) == Lower(options[i].title) ==> Mentions(low, options[j])
  {
    assert |Lower(options[j].title)| == |options[j].title|;
  }

  lemma NoLabelMatches(options: seq<Choice>, reply: string)
    requires AllPlain(options) && '(' in reply
    ensures ByLabel(reply, options, 0) == None
  {
    forall j | 0 <= j < |options| ensures Lower(Strip(options[j].title)) != reply {
      StripTrims(options[j].title);
      LowerIsPlain(options[j].title);
    }
  }

  lemma LabelStep(options: seq<Choice>, i: nat)
    requires i < |options| && AllPlain(options)
    ensures var r := ByLabel(Lower(options[i].title), options, 0);
            r.Some? && FirstWithTitle(options, i, r.value)
  {
    forall j | 0 <= j < |options| ensures Strip(options[j].title) == options[j].title {
      StripTrims(options[j].title);
    }
  }

  predicate OwnYear(options: seq<Choice>, i: nat)
    requires i < |options|
  {
    options[i].year.Some? && Plausible(options[i].year.value) && Alone(options, i)
  }

  /**
   A tap always picks an option with the tapped title, and picks the tapped one exactly when its year is
   plausible and its own, or no earlier option has the same title.
   */
  lemma TapPicks(options: seq<Choice>, i: nat)
    requires i < |options| && AllPlain(options) && Tappable(options[i])
    ensures var r := ResolveOption(MovieLabel(options[i]), options);
            && r.Some?
            && Lower(options[r.value].title) == Lower(options[i].title)
            && (r.value == i <==> OwnYear(options, i) || FirstOfItsTitle(options, i))
  {
    var o := options[i];
    if o.year.Some? {
      var digits := NatText(o.year.value);
      LowerLabel(o.title, digits);
      LowerIsPlain(o.title);
      LabelIsTrimmed(o.title, digits);
      YearsOfLabel(Lower(o.title), o.year.value);
      YearStep(options, i, o.year.value);
      TitleStep(options, i, digits);
      NoLabelMatches(options, Lower(o.title) + " (" + digits + ")");
      assert ByYear([], options) == None;
      hide FourDigits, ByYear, ByLabel, FirstMentioned, LongestFirst, NatText, Ordinal, Number, Lower, Strip,
          AllPlain, Alone;
    } else {
      LowerYears(o.title);
      StripTrims(o.title);
      LabelStep(options, i);
      assert ByYear([], options) == None;
      hide FourDigits, ByYear, ByLabel, FirstMentioned, LongestFirst, NatText, Ordinal, Number, AllPlain, Strip;
    }
  }

  /** When titles differ, every tap picks the tapped option, whether or not years repeat. */
  lemma TapPicksWhenTitlesDiffer(options: seq<Choice>, i: nat)
    requires i < |options| && AllPlain(options) && Tappable(options[i])
    requires forall j, k | 0 <= j < k < |options| :: Lower(options[j].title) != Lower(options[k].title)
    ensures ResolveOption(MovieLabel(options[i]), options) == Some(i)
  {
    hide ResolveOption, MovieLabel, AllPlain, Lower;
    TapPicks(options, i);
  }

  const DUNES := [Choice("1", "Dune", Some(1984), ""), Choice("2", "Dune", Some(2021), ""),
                  Choice("3", "Tron", Some(2021), "")]

  lemma FourLetters(t: string)
    requires |t| == 4 && forall k | 0 <= k < 4 :: 'A' <= t[k] <= 'z'
    ensures PlainTitle(t) && NoYearIn(t)
  {
  }

  /** Two films of one title, the tapped year shared with a third film: the other film is picked. */
  lemma SameTitleSharedYear()
    ensures MovieLabel(DUNES[1]) == "Dune (2021)"
    ensures ResolveOption(MovieLabel(DUNES[1]), DUNES) == Some(0)
  {
    assert MovieLabel(DUNES[1]) == "Dune (2021)" by {
      assert NatText(2) == "2" && NatText(20) == "20" && NatText(202) == "202" && NatText(2021) == "2021";
    }
    FourLetters("Dune");
    FourLetters("Tron");
    assert Lower("Dune")[0] == 'd' && Lower("Tron")[0] == 't';
    assert AllPlain(DUNES) by { hide PlainTitle; }
    hide ResolveOption, Lower, NatText, PlainTitle, AllPlain, MovieLabel;
    assert DUNES[2].year == DUNES[1].year;
    assert Lower(DUNES[0].title) == Lower(DUNES[1].title);
    TapPicks(DUNES, 1);
  }

  lemma NoneMentioned(text: string, options: seq<Choice>)
    requires forall j | 0 <= j < |options| :: !Mentions(text, options[j])
    ensures FirstMentioned(text, options, LongestFirst(Titles(options), 0)) == None
  {
    hide Mentions, LongestFirst;
  }

  lemma ShortReplyMentionsNothing(text: string, options: seq<Choice>)
    requires |text| < 4
    ensures forall j | 0 <= j < |options| :: !Mentions(text, options[j])
  {
    forall j | 0 <= j < |options| ensures !Mentions(text, options[j]) {
      assert |Lower(options[j].title)| == |options[j].title|;
    }
  }

  lemma DigitNumber(text: string, d: nat)
    requires 1 <= d <= 9 && text == [DigitChar(d)]
    ensures Number(text, 0) == Some(d - 1)
  {
    LastWord(text, d);
    hide NumberAfter, NUMBER_WORDS;
    assert Boundary(text, 0);
  }

  /** A bare digit counts from one, unless it is itself a label. */
  lemma DigitPicks(options: seq<Choice>, d: nat)
    requires 1 <= d <= 9 && options != []
    requires forall j | 0 <= j < |options| :: Lower(Strip(options[j].title)) != [DigitChar(d)]
    ensures ResolveOption([DigitChar(d)], options) == if d <= |options| then Some(d - 1) else None
  {
    var text := [DigitChar(d)];
    assert Lower(text) == text;
    StripTrims(text);
    ShortReplyMentionsNothing(text, options);
    NoneMentioned(text, options);
    assert forall o | o in ORDINALS :: |o.0| > 1;
    NoOrdinal(text, ORDINALS);
    DigitNumber(text, d);
    assert FourDigits(text) == [];
    assert ByYear([], options) == None;
    hide FourDigits, ByYear, FirstMentioned, LongestFirst, ByLabel, Ordinal, ORDINALS, Number, Lower, Strip, DigitChar;
  }

  // ----- ordinal words -----

  /** Lower-case letters and digits, no run of four digits. */
  predicate PlainWord(w: string) {
    w != "" && FourDigits(w) == [] && forall c | c in w :: 'a' <= c <= 'z' || Digit(c)
  }

  /** The words with a blank between each two. */
  function Sentence(words: seq<string>): string {
    if words == [] then ""
    else if |words| == 1 then words[0]
    else words[0] + " " + Sentence(words[1..])
  }

  predicate Wordy(w: string) {
    w != "" && forall c | c in w :: WordChar(c)
  }

  predicate WordAt(s: string, i: nat, word: string) {
    i + |word| <= |s| && At(s, i, word) && Boundary(s, i) && Boundary(s, i + |word|)
  }

  lemma WordFound(s: string, i: nat, word: string)
    requires WordAt(s, i, word)
    ensures HasWord(s, word)
  {
  }

  lemma FindWord(s: string, word: string) returns (i: nat)
    requires HasWord(s, word)
    ensures WordAt(s, i, word)
  {
    i :| i + |word| <= |s| && At(s, i, word) && Boundary(s, i) && Boundary(s, i + |word|);
  }

  /** A word that starts inside the first one is the first one. */
  lemma WordAtStart(a: string, rest: string, word: string, i: nat)
    requires Wordy(a) && Wordy(word) && (rest == "" || !WordChar(rest[0]))
    requires i < |a| && WordAt(a + rest, i, word)
    ensures word == a
  {
    hide WordChar;
    var s := a + rest;
    assert forall k | 0 <= k < |word| :: s[i + k] == word[k] && word[k] in word;
    assert forall k | 0 <= k < |a| :: s[k] == a[k] && a[k] in a;
    assert rest != "" ==> s[|a|] == rest[0];
    assert i == 0 && |word| == |a|;
    assert s[0..|a|] == a;
  }

  lemma FirstWordFound(a: string, rest: string)
    requires Wordy(a) && (rest == "" || !WordChar(rest[0]))
    ensures WordAt(a + rest, 0, a)
  {
    hide WordChar;
    var s := a + rest;
    assert s[0..|a|] == a;
    assert s[0] == a[0] && a[0] in a && s[|a| - 1] == a[|a| - 1] && a[|a| - 1] in a;
    assert rest != "" ==> s[|a|] == rest[0];
  }

  lemma BoundaryBehind(a: string, rest: string, j: nat)
    requires j <= |rest|
    ensures Boundary(a + " " + rest, |a| + 1 + j) == Boundary(rest, j)
  {
    var s, n := a + " " + rest, |a| + 1;
    assert s[n - 1] == ' ';
    assert j > 0 ==> s[n + j - 1] == rest[j - 1];
    assert j < |rest| ==> s[n + j] == rest[j];
  }

  /** A word found behind the first one. */
  lemma Behind(a: string, rest: string, word: string, j: nat)
    requires j + |word| <= |rest|
    ensures WordAt(a + " " + rest, |a| + 1 + j, word) <==> WordAt(rest, j, word)
  {
    hide Boundary;
    var s, n := a + " " + rest, |a| + 1;
    assert s[n + j..n + j + |word|] == rest[j..j + |word|];
    BoundaryBehind(a, rest, j);
    BoundaryBehind(a, rest, j + |word|);
    assert |a| + 1 + (j + |word|) == n + j + |word|;
  }

  lemma NotAtBlank(s: string, i: nat, word: string)
    requires Wordy(word) && WordAt(s, i, word)
    ensures i + |word| <= |s| && word != "" && s[i] != ' '
  {
    assert s[i..i + |word|][0] == s[i] && word[0] in word;
  }

  lemma BlankIsNoWord()
    ensures !WordChar(' ')
  {
  }

  /** One more word in front. */
  lemma WordStep(a: string, rest: string, word: string)
    requires Wordy(a) && Wordy(word)
    ensures HasWord(a + " " + rest, word) <==> word == a || HasWord(rest, word)
  {
    hide WordChar, WordAt, HasWord, Wordy;
    var s, n := a + " " + rest, |a| + 1;
    assert s == a + (" " + rest) && s[|a|] == ' ';
    BlankIsNoWord();
    if HasWord(s, word) {
      var i := FindWord(s, word);
      NotAtBlank(s, i, word);
      if i < |a| {
        WordAtStart(a, " " + rest, word, i);
      } else {
        Behind(a, rest, word, i - n);
        WordFound(rest, i - n, word);
      }
    }
    if word == a {
      FirstWordFound(a, " " + rest);
      WordFound(s, 0, a);
    }
    if HasWord(rest, word) {
      var j := FindWord(rest, word);
      NotAtBlank(rest, j, word);
      Behind(a, rest, word, j);
      WordFound(s, n + j, word);
    }
  }

  lemma OneWord(a: string, word: string)
    requires Wordy(a) && Wordy(word)
    ensures HasWord(a, word) <==> word == a
  {
    hide WordChar, WordAt, HasWord;
    assert a + "" == a;
    if HasWord(a, word) {
      var i := FindWord(a, word);
      NotAtBlank(a, i, word);
      WordAtStart(a, "", word, i);
    }
    FirstWordFound(a, "");
    WordFound(a, 0, a);
  }

  lemma {:induction false} WordsOfSentence(words: seq<string>, word: string)
    requires Wordy(word) && forall w | w in words :: Wordy(w)
    ensures HasWord(Sentence(words), word) <==> word in words
  {
    hide HasWord, Wordy;
    if words == [] {
      NoWord(word);
    } else if |words| == 1 {
      OneWord(words[0], word);
    } else {
      assert words[0] in words && forall w | w in words[1..] :: w in words;
      WordStep(words[0], Sentence(words[1..]), word);
      WordsOfSentence(words[1..], word);
      assert word in words <==> word == words[0] || word in words[1..];
    }
  }

  lemma NoWord(word: string)
    requires Wordy(word)
    ensures !HasWord("", word)
  {
  }

  predicate PlainChar(c: char) {
    'a' <= c <= 'z' || Digit(c) || c == ' '
  }

  lemma PlainWordText(w: string)
    requires PlainWord(w)
    ensures w != "" && FourDigits(w) == [] && !White(w[0]) && !White(w[|w| - 1])
    ensures forall k | 0 <= k < |w| :: PlainChar(w[k])
  {
    hide FourDigits;
    assert forall k | 0 <= k < |w| :: w[k] in w;
  }

  lemma {:induction false} SentenceText(words: seq<string>)
    requires words != [] && forall w | w in words :: PlainWord(w)
    ensures var s := Sentence(words);
            s != "" && !White(s[0]) && !White(s[|s| - 1]) && FourDigits(s) == []
            && forall k | 0 <= k < |s| :: PlainChar(s[k])
  {
    hide FourDigits, PlainWord, White, Digit;
    var w, s := words[0], Sentence(words);
    assert w in words;
    PlainWordText(w);
    assert s[0] == w[0];
    if |words| > 1 {
      assert forall v | v in words[1..] :: v in words;
      SentenceText(words[1..]);
      var rest := Sentence(words[1..]);
      BlankIsNoDigit();
      assert s == w + (" " + rest) && (" " + rest)[1..] == rest;
      NoRunBefore(w, " " + rest);
      assert s[|s| - 1] == rest[|rest| - 1];
    }
  }

  lemma BlankIsNoDigit()
    ensures !Digit(' ')
  {
  }

  lemma SentenceIsPlain(words: seq<string>)
    requires words != [] && forall w | w in words :: PlainWord(w)
    ensures var s := Sentence(words); s != "" && Lower(s) == s && Strip(s) == s && FourDigits(s) == []
  {
    hide Sentence, FourDigits, Strip, PlainWord;
    SentenceText(words);
    StripTrims(Sentence(words));
  }

  lemma {:induction false} OrdinalOf(words: seq<string>, k: nat, j: nat)
    requires j <= k < |ORDINALS| && ORDINALS[k].0 in words && forall i | 0 <= i < k :: ORDINALS[i].0 !in words
    requires (forall w | w in words :: Wordy(w)) && forall i | 0 <= i < |ORDINALS| :: Wordy(ORDINALS[i].0)
    ensures Ordinal(Sentence(words), ORDINALS[j..]) == Some(ORDINALS[k].1)
    decreases k - j
  {
    hide HasWord, Wordy, Sentence, ORDINALS;
    WordsOfSentence(words, ORDINALS[j].0);
    assert ORDINALS[j..][0] == ORDINALS[j];
    if j < k {
      OrdinalOf(words, k, j + 1);
      assert ORDINALS[j..][1..] == ORDINALS[j + 1..];
    }
  }

  lemma OrdinalsAreWordy()
    ensures forall i | 0 <= i < |ORDINALS| :: Wordy(ORDINALS[i].0)
  {
  }

  lemma PlainIsWordy(w: string)
    requires PlainWord(w)
    ensures Wordy(w)
  {
    hide FourDigits;
  }

  lemma PlaceCounts(i: int, n: nat)
    ensures Place(i, n) == if 0 <= i < n then Some(i) else if i < 0 && n + i >= 0 then Some(n + i) else None
  {
  }

  /** A reply of plain words that names no option by its title means the place its ordinal word counts to; of
      several ordinal words it means the one listed first. */
  lemma OrdinalPicks(options: seq<Choice>, words: seq<string>, k: nat)
    requires options != [] && forall w | w in words :: PlainWord(w)
    requires k < |ORDINALS| && ORDINALS[k].0 in words && forall i | 0 <= i < k :: ORDINALS[i].0 !in words
    requires var reply := Sentence(words);
             forall j | 0 <= j < |options| ::
               Lower(Strip(options[j].title)) != reply && !Mentions(reply, options[j])
    ensures var place := ORDINALS[k].1;
            ResolveOption(Sentence(words), options)
            == if 0 <= place < |options| then Some(place)
               else if place < 0 && |options| + place >= 0 then Some(|options| + place)
               else None
  {
    assert forall w | w in words :: Wordy(w) by {
      forall w | w in words ensures Wordy(w) { PlainIsWordy(w); }
    }
    SentenceIsPlain(words);
    NoneMentioned(Sentence(words), options);
    OrdinalsAreWordy();
    OrdinalOf(words, k, 0);
    assert ORDINALS[0..] == ORDINALS;
    assert ByYear([], options) == None;
    PlaceCounts(ORDINALS[k].1, |options|);
    hide FourDigits, ByYear, FirstMentioned, LongestFirst, ByLabel, Ordinal, ORDINALS, Number, Lower, Strip, Mentions,
        Sentence, Place;
  }

  /** A reply with one year in it, of the years films are made in, means the only option from that year; any other
      number of four digits says nothing about the year. */
  lemma YearPicks(text: string, options: seq<Choice>, year: int, i: nat)
    requires FourDigits(Lower(text)) == [year] && i < |options| && options[i].year == Some(year) && Alone(options, i)
    ensures 1900 <= year <= 2100 ==> ResolveOption(text, options) == Some(i)
    ensures !(1900 <= year <= 2100) ==> ByYear(FourDigits(Lower(text)), options) == None
  {
    hide FourDigits, Lower, Strip, Mentions, FirstMentioned, LongestFirst, Ordinal, Number, ByLabel, Titles, ByYear;
    YearStep(options, i, year);
  }

  lemma {:induction false} NoOrdinal(text: string, ordinals: seq<(string, int)>)
    requires |text| == 1 && forall o | o in ordinals :: |o.0| > 1
    ensures Ordinal(text, ordinals) == None
  {
    if ordinals != [] {
      assert ordinals[0] in ordinals;
      NoOrdinal(text, ordinals[1..]);
    }
  }

  lemma LastWord(text: string, d: nat)
    requires 1 <= d <= 9 && text == [DigitChar(d)]
    ensures NumberAfter(text, 0, NUMBER_WORDS) == Some(d - 1)
  {
    assert SkipWhite(text, 0) == 0;
    assert text[0] - '1' == (d - 1) as char;
    assert NumberAfter(text, 0, [""]) == Some(d - 1);
    assert NUMBER_WORDS[1..] == ["option", "no.", "no", "#", ""];
    assert NUMBER_WORDS[1..][1..] == ["no.", "no", "#", ""];
    assert ["no.", "no", "#", ""][1..] == ["no", "#", ""];
    assert ["no", "#", ""][1..] == ["#", ""];
    assert ["#", ""][1..] == [""];
    assert text[0..1] != "#";
    assert NumberAfter(text, 0, ["#", ""]) == Some(d - 1);
    assert NumberAfter(text, 0, ["no", "#", ""]) == Some(d - 1);
    assert NumberAfter(text, 0, ["no.", "no", "#", ""]) == Some(d - 1);
    assert NumberAfter(text, 0, ["option", "no.", "no", "#", ""]) == Some(d - 1);
  }
}
