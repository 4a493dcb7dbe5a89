/** Short replies the assistant recognises without a language model: yes, no, and the ways to cancel. */
module Replies {
  import opened Common
  import opened Text
  import opened PickOption

  const OWN_YES := ["yes", "yeah", "yep", "yup", "own", "owned", "i do", "i have"]
  const OWN_NO := ["no", "nope", "nah", "dont", "don't", "do not", "not owned", "wishlist"]

  predicate HasWishList(s: string) {
    exists i: nat {:trigger At(s, i, "wish")} | i + 9 <= |s| ::
      At(s, i, "wish") && White(s[i + 4]) && At(s, i + 5, "list") && Boundary(s, i) && Boundary(s, i + 9)
  }

  predicate SaysOwned(t: string) {
    HasAny(t, OWN_YES)
  }

  predicate SaysNotOwned(t: string) {
    HasAny(t, OWN_NO) || HasWishList(t)
  }

  predicate HasAny(s: string, words: seq<string>) {
    exists w | w in words :: HasWord(s, w)
  }

  /** Yes, no, or not an answer. */
  function ParseOwnership(text: string): Option<bool> {
    var t := Lower(Strip(text));
    if t == "" then None
    else if t == "y" || "yes" <= t then Some(true)
    else if t == "n" || "no" <= t then Some(false)
    else if SaysOwned(t) && !SaysNotOwned(t) then Some(true)
    else if SaysNotOwned(t) && !SaysOwned(t) then Some(false)
    else None
  }

  predicate IsSearchCancel(text: string) {
    Lower(Strip(text)) == "exit search"
  }

  const STAGE_CANCELS: set<string> := {"exit", "cancel", "never mind", "nevermind"}

  predicate CancelsSearch(text: string) {
    Contains(Lower(Strip(text)), "exit search") || Lower(Strip(text)) in STAGE_CANCELS
  }

  const ORGANIZE_CANCELS: set<string> :=
    {"cancel", "cancel move", "cancel remove", "cancel update", "never mind", "nevermind", "stop"}

  predicate IsOrganizeCancel(text: string) {
    Lower(Strip(text)) in ORGANIZE_CANCELS
  }

  const IMPORT_CANCELS: set<string> := {
    "cancel import", "cancel", "cancel the import", "stop import", "stop the import", "abandon import",
    "abandon the import", "never mind", "nevermind", "forget it", "quit import"
  }

  predicate IsCancelImport(text: string) {
    Lower(Strip(text)) in IMPORT_CANCELS
  }

  /** The two buttons of a yes-no question, in any case and with white space around them, and their opening
      words at the start of a longer reply. */
  lemma ButtonsAnswer(text: string)
    ensures "yes" <= Lower(Strip(text)) ==> ParseOwnership(text) == Some(true)
    ensures "no" <= Lower(Strip(text)) ==> ParseOwnership(text) == Some(false)
    ensures Blank(text) ==> ParseOwnership(text) == None
  {
    var t := Lower(Strip(text));
    assert "yes" <= t ==> t[0] == 'y' && |t| >= 3;
    assert "no" <= t ==> t[0] == 'n' && |t| >= 2;
    hide Strip, Lower, SaysOwned, SaysNotOwned;
  }

  predicate YesWord(w: string) {
    w == "yes" || w == "yeah" || w == "yep" || w == "yup" || w == "own" || w == "owned"
  }

  predicate NoWord(w: string) {
    w == "no" || w == "nope" || w == "nah" || w == "dont" || w == "wishlist"
  }

  /** A reply of plain words without "i", "do", "not" and "wish", which can be part of a phrase of two words. */
  predicate Plain(words: seq<string>) {
    && words != [] && (forall w | w in words :: PlainWord(w))
    && "i" !in words && "do" !in words && "not" !in words && "wish" !in words
  }

  lemma PhraseIsTwoWords(s: string, phrase: string, a: string, b: string)
    requires HasWord(s, phrase) && phrase == a + " " + b && a != "" && WordChar(a[|a| - 1])
    ensures HasWord(s, a)
  {
    var i := FindWord(s, phrase);
    var n := |a| + 1 + |b|;
    assert s[i..i + n] == phrase;
    assert s[i..i + n][|a|] == s[i + |a|] && s[i..i + n][..|a|] == s[i..i + |a|] && s[i..i + n][|a| - 1] == s[i + |a| - 1];
    assert WordAt(s, i, a);
    WordFound(s, i, a);
  }

  lemma WishListHasWish(s: string)
    requires HasWishList(s)
    ensures HasWord(s, "wish")
  {
    var i: nat :| i + 9 <= |s| && At(s, i, "wish") && White(s[i + 4]) && At(s, i + 5, "list") && Boundary(s, i)
                  && Boundary(s, i + 9);
    assert s[i..i + 4][3] == s[i + 3];
    assert WordAt(s, i, "wish");
    WordFound(s, i, "wish");
  }

  lemma HasApostrophe(s: string)
    requires HasWord(s, "don't")
    ensures exists k | 0 <= k < |s| :: s[k] == '\''
  {
    var i := FindWord(s, "don't");
    assert s[i..i + 5][3] == s[i + 3];
  }

  /** No phrase of two words, and no word with an apostrophe, is in such a reply. */
  lemma NoPhrases(words: seq<string>)
    requires Plain(words)
    ensures var s := Sentence(words);
            && !HasWord(s, "i do") && !HasWord(s, "i have") && !HasWord(s, "do not") && !HasWord(s, "not owned")
            && !HasWishList(s) && !HasWord(s, "don't")
  {
    hide HasWord, Sentence, PlainWord;
    var s := Sentence(words);
    forall w | w in words ensures Wordy(w) { PlainIsWordy(w); }
    WordsOfSentence(words, "i");
    WordsOfSentence(words, "do");
    WordsOfSentence(words, "not");
    WordsOfSentence(words, "wish");
    if HasWord(s, "i do") { PhraseIsTwoWords(s, "i do", "i", "do"); }
    if HasWord(s, "i have") { PhraseIsTwoWords(s, "i have", "i", "have"); }
    if HasWord(s, "do not") { PhraseIsTwoWords(s, "do not", "do", "not"); }
    if HasWord(s, "not owned") { PhraseIsTwoWords(s, "not owned", "not", "owned"); }
    if HasWishList(s) { WishListHasWish(s); }
    SentenceText(words);
    if HasWord(s, "don't") { HasApostrophe(s); }
  }

  lemma SaysYes(words: seq<string>)
    requires Plain(words)
    ensures SaysOwned(Sentence(words)) <==> exists w | w in words :: YesWord(w)
  {
    hide HasWord, Sentence, PlainWord;
    NoPhrases(words);
    forall w | w in words ensures Wordy(w) { PlainIsWordy(w); }
    WordsOfSentence(words, "yes");
    WordsOfSentence(words, "yeah");
    WordsOfSentence(words, "yep");
    WordsOfSentence(words, "yup");
    WordsOfSentence(words, "own");
    WordsOfSentence(words, "owned");
    assert SaysOwned(Sentence(words)) <==>
      "yes" in words || "yeah" in words || "yep" in words || "yup" in words || "own" in words || "owned" in words by {
      var s := Sentence(words);
      assert OWN_YES[0] == "yes" && OWN_YES[1] == "yeah" && OWN_YES[2] == "yep" && OWN_YES[3] == "yup";
      assert OWN_YES[4] == "own" && OWN_YES[5] == "owned";
    }
  }

  lemma SaysNo(words: seq<string>)
    requires Plain(words)
    ensures SaysNotOwned(Sentence(words)) <==> exists w | w in words :: NoWord(w)
  {
    hide HasWord, Sentence, PlainWord, HasWishList;
    NoPhrases(words);
    forall w | w in words ensures Wordy(w) { PlainIsWordy(w); }
    WordsOfSentence(words, "no");
    WordsOfSentence(words, "nope");
    WordsOfSentence(words, "nah");
    WordsOfSentence(words, "dont");
    WordsOfSentence(words, "wishlist");
    assert SaysNotOwned(Sentence(words)) <==>
      "no" in words || "nope" in words || "nah" in words || "dont" in words || "wishlist" in words by {
      assert OWN_NO[0] == "no" && OWN_NO[1] == "nope" && OWN_NO[2] == "nah" && OWN_NO[3] == "dont";
      assert OWN_NO[7] == "wishlist";
    }
  }

  lemma Reads(s: string)
    requires s != "" && Lower(Strip(s)) == s
    ensures ParseOwnership(s) == if s == "y" || "yes" <= s then Some(true)
                                 else if s == "n" || "no" <= s then Some(false)
                                 else if SaysOwned(s) && !SaysNotOwned(s) then Some(true)
                                 else if SaysNotOwned(s) && !SaysOwned(s) then Some(false)
                                 else None
  {
    hide SaysOwned, SaysNotOwned, Strip, Lower;
  }

  /** A reply of plain words is a yes when it has a word for owning and none for not owning, a no the other way round,
      and no answer when it has both or neither; "y" and "n" count too, and so does how it begins. */
  lemma WordsAnswer(words: seq<string>)
    requires Plain(words)
    ensures var yes := exists w | w in words :: YesWord(w);
            var no := exists w | w in words :: NoWord(w);
            var s := Sentence(words);
            ParseOwnership(s) == if s == "y" || "yes" <= s then Some(true)
                                 else if s == "n" || "no" <= s then Some(false)
                                 else if yes && !no then Some(true)
                                 else if no && !yes then Some(false)
                                 else None
  {
    SaysYes(words);
    SaysNo(words);
    SentenceIsPlain(words);
    Reads(Sentence(words));
    hide *;
  }

  /** The controls the assistant offers are understood, in any case and with white space around them, and none is
      taken for another. */
  lemma ControlsAreUnderstood(text: string)
    ensures Lower(Strip(text)) == "exit search" ==>
              IsSearchCancel(text) && CancelsSearch(text) && !IsOrganizeCancel(text) && !IsCancelImport(text)
    ensures Lower(Strip(text)) == "cancel" ==>
              CancelsSearch(text) && IsOrganizeCancel(text) && IsCancelImport(text) && !IsSearchCancel(text)
    ensures Lower(Strip(text)) == "cancel import" ==>
              IsCancelImport(text) && !IsSearchCancel(text) && !CancelsSearch(text) && !IsOrganizeCancel(text)
    ensures Lower(Strip(text)) == "never mind" || Lower(Strip(text)) == "nevermind" ==>
              CancelsSearch(text) && IsOrganizeCancel(text) && IsCancelImport(text) && !IsSearchCancel(text)
    ensures IsSearchCancel(text) ==> Lower(Strip(text)) == "exit search"
  {
    var low := Lower(Strip(text));
    hide Strip, Lower;
    if low == "exit search" {
      assert At(low, 0, "exit search");
    }
    if low == "cancel import" {
      assert !At(low, 0, "exit search") && !At(low, 1, "exit search") && !At(low, 2, "exit search") by {
        assert low[0..11][0] == 'c' && low[1..12][0] == 'a' && low[2..13][0] == 'n';
      }
    }
  }
}
