/** Characters and strings, as far as the assistant's own text rules look into them. */
module Text {

  /** White space, as `strip` and `\s` see it (below U+0100). */
  predicate White(c: char) {
    || '\t' <= c <= '\r'
    || '\U{1c}' <= c <= '\U{1f}'
    || c == ' ' || c == '\U{85}' || c == '\U{a0}'
  }

  predicate Digit(c: char) {
    '0' <= c <= '9'
  }

  /** Case folding of the letters A to Z; every other character is its own fold. */
  function LowerChar(c: char): char {
    if 'A' <= c <= 'Z' then c - 'A' + 'a' else c
  }

  function Lower(s: string): (t: string)
    ensures |t| == |s|
  {
    seq(|s|, i requires 0 <= i < |s| => LowerChar(s[i]))
  }

  predicate At(hay: string, i: nat, needle: string) {
    i + |needle| <= |hay| && hay[i..i + |needle|] == needle
  }

  /** `needle in hay` */
  predicate Contains(hay: string, needle: string) {
    exists i: nat {:trigger At(hay, i, needle)} | i <= |hay| :: At(hay, i, needle)
  }

  function StripLeft(s: string): string {
    if s != [] && White(s[0]) then StripLeft(s[1..]) else s
  }

  function StripRight(s: string): string {
    if s != [] && White(s[|s| - 1]) then StripRight(s[..|s| - 1]) else s
  }

  function Strip(s: string): string {
    StripRight(StripLeft(s))
  }

  /** No white space at either end. */
  predicate Trimmed(s: string) {
    s == [] || (!White(s[0]) && !White(s[|s| - 1]))
  }

  predicate Blank(s: string) {
    Strip(s) == ""
  }

  lemma {:induction false} StripLeftStops(s: string)
    ensures var t := StripLeft(s); |t| <= |s| && t == s[|s| - |t|..] && (t != [] ==> !White(t[0]))
  {
    if s != [] && White(s[0]) {
      StripLeftStops(s[1..]);
    }
  }

  lemma {:induction false} StripRightStops(s: string)
    ensures var t := StripRight(s); t <= s && (t != [] ==> !White(t[|t| - 1]))
  {
    if s != [] && White(s[|s| - 1]) {
      StripRightStops(s[..|s| - 1]);
    }
  }

  /** Stripping trims, and leaves trimmed text alone. */
  lemma StripTrims(s: string)
    ensures Trimmed(Strip(s))
    ensures Trimmed(s) ==> Strip(s) == s
  {
    StripLeftStops(s);
    StripRightStops(StripLeft(s));
  }

  lemma {:induction false} StripLeftAppend(s: string, t: string)
    requires forall c | c in s :: White(c)
    ensures StripLeft(s + t) == StripLeft(t)
  {
    if s == [] {
      assert s + t == t;
    } else {
      assert (s + t)[1..] == s[1..] + t;
      StripLeftAppend(s[1..], t);
    }
  }

  lemma StripLead(s: string)
    requires Trimmed(s) && s != []
    ensures Strip(" " + s) == s
  {
    StripLeftAppend(" ", s);
    StripTrims(s);
    assert StripLeft(s) == s;
  }

  // ----- words -----

  predicate WordChar(c: char) {
    'a' <= c <= 'z' || 'A' <= c <= 'Z' || Digit(c) || c == '_'
  }

  /** `\b` at position `i`. */
  predicate Boundary(s: string, i: nat)
    requires i <= |s|
  {
    (i > 0 && WordChar(s[i - 1])) != (i < |s| && WordChar(s[i]))
  }

  // ----- numbers -----

  function DigitChar(d: nat): char
    requires d < 10
  {
    '0' + d as char
  }

  /** `str` of a natural number. */
  function NatText(n: nat): (s: string)
    ensures s != [] && forall c | c in s :: Digit(c)
  {
    if n < 10 then [DigitChar(n)] else NatText(n / 10) + [DigitChar(n % 10)]
  }

  function IntText(n: int): string {
    if n < 0 then "-" + NatText(-n) else NatText(n)
  }

  function ParseNat(s: string): (r: int)
    requires forall c | c in s :: Digit(c)
    ensures r >= 0
  {
    if s == [] then 0
    else assert Digit(s[|s| - 1]); ParseNat(s[..|s| - 1]) * 10 + (s[|s| - 1] - '0') as int
  }

  predicate AllDigits(s: string) {
    s != [] && forall c | c in s :: Digit(c)
  }

  /** `int(s)` of stripped text; -1 in the second place when there is no number. */
  function ParseInt(s: string): (r: (bool, int)) {
    var t := Strip(s);
    if AllDigits(t) then (true, ParseNat(t))
    else if t != [] && (t[0] == '-' || t[0] == '+') && AllDigits(t[1..]) then
      (true, if t[0] == '-' then -ParseNat(t[1..]) else ParseNat(t[1..]))
    else (false, -1)
  }

  lemma {:induction false} ParseNatText(n: nat)
    ensures ParseNat(NatText(n)) == n
  {
    if n >= 10 {
      ParseNatText(n / 10);
      assert NatText(n)[..|NatText(n)| - 1] == NatText(n / 10);
    }
  }

  lemma DigitsAreTrimmed(t: string, sign: string)
    requires AllDigits(t) && (sign == "" || sign == "-")
    ensures Trimmed(sign + t) && Strip(sign + t) == sign + t
  {
    var s := sign + t;
    assert t[0] in t && t[|t| - 1] in t;
    assert s[|s| - 1] == t[|t| - 1];
    StripTrims(s);
  }

  /** Reading back a printed integer. */
  lemma ParseIntText(n: int)
    ensures ParseInt(IntText(n)) == (true, n)
    ensures Trimmed(IntText(n)) && IntText(n) != []
  {
    var t := NatText(if n < 0 then -n else n);
    ParseNatText(if n < 0 then -n else n);
    if n < 0 {
      DigitsAreTrimmed(t, "-");
      hide NatText, ParseNat, Strip, Trimmed;
      var s := "-" + t;
      assert s[1..] == t && s[0] == '-';
      assert !AllDigits(s) by { assert s[0] in s; }
    } else {
      DigitsAreTrimmed(t, "");
      hide NatText, ParseNat, Strip, Trimmed;
      assert "" + t == t;
    }
  }

  // ----- splitting and joining -----

  /** `s.split(sep)` for a one-character separator. */
  function Split(s: string, sep: char): (parts: seq<string>)
    ensures parts != []
  {
    if s == [] then [""]
    else
      var rest := Split(s[1..], sep);
      if s[0] == sep then [""] + rest else [[s[0]] + rest[0]] + rest[1..]
  }

  function Join(parts: seq<string>, sep: char): string {
    if parts == [] then ""
    else if |parts| == 1 then parts[0]
    else parts[0] + [sep] + Join(parts[1..], sep)
  }

  lemma {:induction false} SplitFirst(part: string, rest: string, sep: char)
    requires sep !in part
    ensures Split(part + [sep] + rest, sep) == [part] + Split(rest, sep)
  {
    var s := part + [sep] + rest;
    if part == [] {
      assert s[1..] == rest;
    } else {
      assert s[1..] == part[1..] + [sep] + rest;
      SplitFirst(part[1..], rest, sep);
      assert part == [part[0]] + part[1..];
      assert s[0] == part[0] != sep;
    }
  }

  lemma {:induction false} SplitWhole(part: string, sep: char)
    requires sep !in part
    ensures Split(part, sep) == [part]
  {
    if part != [] {
      SplitWhole(part[1..], sep);
      assert part == [part[0]] + part[1..];
      assert part[0] in part;
    }
  }

  /** Splitting what was joined gives back the parts, when no part contains the separator. */
  lemma {:induction false} SplitJoin(parts: seq<string>, sep: char)
    requires parts != [] && forall p | p in parts :: sep !in p
    ensures Split(Join(parts, sep), sep) == parts
  {
    if |parts| == 1 {
      SplitWhole(parts[0], sep);
    } else {
      SplitJoin(parts[1..], sep);
      SplitFirst(parts[0], Join(parts[1..], sep), sep);
    }
  }

  /** The words of `s`: the runs between white space. */
  function Words(s: string): seq<string> {
    WordsFrom(s, "")
  }

  function WordsFrom(s: string, word: string): seq<string> {
    if s == [] then (if word == "" then [] else [word])
    else if White(s[0]) then (if word == "" then [] else [word]) + WordsFrom(s[1..], "")
    else WordsFrom(s[1..], word + [s[0]])
  }

  /** White space collapsed to single blanks, none at the ends. */
  function Collapse(s: string): string {
    Join(Words(s), ' ')
  }

  lemma {:induction false} WordsOfOne(s: string, word: string)
    requires (forall c | c in s :: !White(c)) && word + s != ""
    ensures WordsFrom(s, word) == [word + s]
  {
    if s == [] {
      assert word + s == word;
    } else {
      assert word + [s[0]] + s[1..] == word + s;
      WordsOfOne(s[1..], word + [s[0]]);
    }
  }

  lemma {:induction false} WordsOfTwo(a: string, b: string, word: string)
    requires (forall c | c in a :: !White(c)) && (forall c | c in b :: !White(c)) && word + a != "" && b != ""
    ensures WordsFrom(a + " " + b, word) == [word + a, b]
  {
    var s := a + " " + b;
    if a == [] {
      assert s[1..] == b && s[0] == ' ' && word + a == word && "" + b == b;
      WordsOfOne(b, "");
    } else {
      assert s[1..] == a[1..] + " " + b && s[0] == a[0] && word + [a[0]] + a[1..] == word + a;
      WordsOfTwo(a[1..], b, word + [a[0]]);
    }
  }
}
