/**
 The comparison key for titles: trimmed, without one leading article, in lower case.
 */
module TitleMatch {
  import opened Text

  predicate StartsWithArticle(t: string, article: string) {
    |t| > |article| && Lower(t[..|article|]) == article && White(t[|article|])
  }

  function DropArticle(t: string): string {
    if StartsWithArticle(t, "a") then StripLeft(t[1..])
    else if StartsWithArticle(t, "an") then StripLeft(t[2..])
    else if StartsWithArticle(t, "the") then StripLeft(t[3..])
    else t
  }

  function NormalizeTitle(title: string): string {
    Strip(Lower(DropArticle(Strip(title))))
  }

  lemma WhiteLower(c: char)
    ensures White(LowerChar(c)) == White(c) && LowerChar(LowerChar(c)) == LowerChar(c)
  {
  }

  lemma LowerSlice(s: string, i: nat, j: nat)
    requires i <= j <= |s|
    ensures Lower(s)[i..j] == Lower(s[i..j]) && Lower(Lower(s)) == Lower(s)
  {
    forall k | 0 <= k < |s| ensures LowerChar(LowerChar(s[k])) == LowerChar(s[k]) { WhiteLower(s[k]); }
  }

  lemma {:induction false} LowerStripLeft(s: string)
    ensures StripLeft(Lower(s)) == Lower(StripLeft(s))
  {
    if s != [] {
      WhiteLower(s[0]);
      LowerStripLeft(s[1..]);
      LowerSlice(s, 1, |s|);
      assert Lower(s)[1..|Lower(s)|] == Lower(s)[1..] && s[1..|s|] == s[1..];
    }
  }

  lemma {:induction false} LowerStripRight(s: string)
    ensures StripRight(Lower(s)) == Lower(StripRight(s))
  {
    if s != [] {
      WhiteLower(s[|s| - 1]);
      LowerStripRight(s[..|s| - 1]);
      LowerSlice(s, 0, |s| - 1);
    }
  }

  lemma LowerStrip(s: string)
    ensures Strip(Lower(s)) == Lower(Strip(s))
  {
    LowerStripLeft(s);
    LowerStripRight(StripLeft(s));
  }

  lemma LowerArticle(t: string, article: string)
    ensures StartsWithArticle(Lower(t), article) == StartsWithArticle(t, article)
    ensures |t| > |article| ==> StripLeft(Lower(t)[|article|..]) == Lower(StripLeft(t[|article|..]))
  {
    if |t| > |article| {
      LowerSlice(t, 0, |article|);
      LowerSlice(t[..|article|], 0, 0);
      LowerSlice(t, |article|, |t|);
      assert Lower(t)[|article|..|t|] == Lower(t)[|article|..] && t[|article|..|t|] == t[|article|..];
      LowerStripLeft(t[|article|..]);
      WhiteLower(t[|article|]);
    }
  }

  /** Titles that differ only in case have the same key. */
  lemma CaseDoesNotMatter(a: string, b: string)
    requires Lower(a) == Lower(b)
    ensures NormalizeTitle(a) == NormalizeTitle(b)
  {
    LowerNormalizes(a);
    LowerNormalizes(b);
  }

  lemma LowerNormalizes(s: string)
    ensures NormalizeTitle(Lower(s)) == NormalizeTitle(s)
  {
    LowerStrip(s);
    var t := Strip(s);
    LowerArticle(t, "a");
    LowerArticle(t, "an");
    LowerArticle(t, "the");
    LowerSlice(DropArticle(t), 0, 0);
  }

  lemma KeepsItsEnd(t: string, n: nat)
    requires n < |t| && !White(t[|t| - 1])
    ensures var u := StripLeft(t[n..]); u != [] && Trimmed(u)
  {
    StripLeftStops(t[n..]);
    NotAllWhite(t[n..]);
  }

  lemma {:induction false} NotAllWhite(t: string)
    requires t != [] && !White(t[|t| - 1])
    ensures StripLeft(t) != []
  {
    if White(t[0]) {
      NotAllWhite(t[1..]);
    }
  }

  /** A title that is not blank has a key that is not empty. */
  lemma NonBlankHasKey(title: string)
    requires !Blank(title)
    ensures NormalizeTitle(title) != ""
  {
    var t := Strip(title);
    StripTrims(title);
    if |t| > 1 { KeepsItsEnd(t, 1); }
    if |t| > 2 { KeepsItsEnd(t, 2); }
    if |t| > 3 { KeepsItsEnd(t, 3); }
    var u := DropArticle(t);
    assert u != [] && Trimmed(u);
    WhiteLower(u[0]);
    WhiteLower(u[|u| - 1]);
    StripTrims(Lower(u));
  }

  predicate Article(word: string) {
    Lower(word) == "a" || Lower(word) == "an" || Lower(word) == "the"
  }

  /** The title is an article, white space, and something more. */
  ghost predicate Led(title: string, article: string, gap: string, rest: string) {
    && title == article + gap + rest && Article(article)
    && gap != [] && (forall c | c in gap :: White(c))
    && rest != [] && Trimmed(rest)
  }

  lemma ArticleIsBlack(article: string)
    requires Article(article)
    ensures article != [] && !White(article[0])
    ensures |article| >= 2 ==> !White(article[1])
    ensures |article| >= 3 ==> !White(article[2]) && Lower(article)[0] == 't'
    ensures |article| <= 2 ==> Lower(article)[0] == 'a'
  {
    forall i | 0 <= i < |article| ensures White(article[i]) == White(Lower(article)[i]) { WhiteLower(article[i]); }
  }

  lemma DropsArticle(title: string, article: string, gap: string, rest: string)
    requires Led(title, article, gap, rest)
    ensures Trimmed(title) && DropArticle(title) == rest
  {
    ArticleIsBlack(article);
    var n := |article|;
    assert title[..n] == article && title[n] == gap[0] && title[n..] == gap + rest && title[|title| - 1] == rest[|rest| - 1];
    assert title[0] == article[0];
    StripLeftAppend(gap, rest);
    assert StripLeft(rest) == rest;
    assert StartsWithArticle(title, Lower(article));
    assert n >= 2 ==> title[1] == article[1];
    assert n >= 3 ==> title[2] == article[2];
    assert n >= 2 ==> !StartsWithArticle(title, "a");
    if n >= 3 {
      assert Lower(title[..2])[0] == Lower(article)[0];
      assert !StartsWithArticle(title, "an");
    }
  }

  /** One leading article, in any case, is no part of the key, and nothing else is left out. */
  lemma ArticleIsDropped(title: string, article: string, gap: string, rest: string)
    requires Led(title, article, gap, rest)
    ensures NormalizeTitle(title) == Lower(rest)
  {
    DropsArticle(title, article, gap, rest);
    StripTrims(title);
    LowerIsTrimmed(rest);
  }

  lemma LowerIsTrimmed(t: string)
    requires Trimmed(t)
    ensures Strip(Lower(t)) == Lower(t)
  {
    if t != [] {
      WhiteLower(t[0]);
      WhiteLower(t[|t| - 1]);
    }
    StripTrims(Lower(t));
  }

  /** A title without a leading article is its own key. */
  lemma NothingElseIsDropped(title: string)
    requires Trimmed(title) && !exists article, gap, rest :: Led(title, article, gap, rest)
    ensures NormalizeTitle(title) == Lower(title)
  {
    StripTrims(title);
    if StartsWithArticle(title, "a") {
      StartsLed(title, "a");
    } else if StartsWithArticle(title, "an") {
      StartsLed(title, "an");
    } else if StartsWithArticle(title, "the") {
      StartsLed(title, "the");
    }
    LowerIsTrimmed(title);
  }

  lemma AfterArticle(title: string, n: nat) returns (gap: string, rest: string)
    requires Trimmed(title) && n < |title| && White(title[n])
    ensures title == title[..n] + gap + rest && gap != [] && (forall c | c in gap :: White(c))
    ensures rest != [] && Trimmed(rest)
  {
    var after := title[n..];
    rest := StripLeft(after);
    KeepsItsEnd(title, n);
    StripLeftStops(after);
    gap := after[..|after| - |rest|];
    StrippedIsWhite(after);
    hide *;
    assert after == gap + rest && title == title[..n] + after;
  }

  lemma StartsLed(title: string, article: string)
    requires Trimmed(title) && StartsWithArticle(title, article)
    requires article == "a" || article == "an" || article == "the"
    ensures exists word, gap, rest :: Led(title, word, gap, rest)
  {
    hide White, Trimmed;
    var gap, rest := AfterArticle(title, |article|);
    assert Article(title[..|article|]);
    hide Article;
    assert Led(title, title[..|article|], gap, rest);
  }

  lemma {:induction false} StrippedIsWhite(s: string)
    ensures |StripLeft(s)| <= |s| && forall c | c in s[..|s| - |StripLeft(s)|] :: White(c)
    ensures s != [] && White(s[0]) ==> |StripLeft(s)| < |s|
  {
    StripLeftStops(s);
    if s != [] && White(s[0]) {
      StrippedIsWhite(s[1..]);
      StripLeftStops(s[1..]);
      var n := |s| - |StripLeft(s)|;
      assert s[..n] == [s[0]] + s[1..][..n - 1];
    }
  }

  /** "The Matrix", "a matrix" and "Matrix" are the same title. */
  lemma ArticlesDoNotMatter(title: string, article: string)
    requires Trimmed(title) && title != "" && Article(article)
    requires !exists word, gap, rest :: Led(title, word, gap, rest)
    ensures NormalizeTitle(article + " " + title) == NormalizeTitle(title)
  {
    assert Led(article + " " + title, article, " ", title);
    ArticleIsDropped(article + " " + title, article, " ", title);
    NothingElseIsDropped(title);
  }

  /** White space around a title does not matter either. */
  lemma SpaceDoesNotMatter(title: string)
    ensures NormalizeTitle(title) == NormalizeTitle(Strip(title)) && Trimmed(Strip(title))
  {
    StripTrims(title);
    StripTrims(Strip(title));
  }
}
