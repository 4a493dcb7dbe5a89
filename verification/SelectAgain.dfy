/**
 What a tap posts, read back: the choice it was made from.  A value named more than once is not chosen twice,
 but naming it again can choose a value that lies inside its name.
 */
module SelectAgain {
  import opened Common
  import opened Text
  import opened MultiSelect

  /** The values of `choice` that are not in `chosen`, each where it is named first. */
  function NewIn(choice: seq<string>, chosen: seq<string>): seq<string>
    decreases |choice|
  {
    if choice == [] then []
    else if choice[0] in chosen then NewIn(choice[1..], chosen)
    else [choice[0]] + NewIn(choice[1..], chosen + [choice[0]])
  }

  /** The longest offered value inside `option` that is not chosen yet. */
  function InnerValue(option: string, options: seq<string>, chosen: seq<string>): Option<string> {
    FirstInside(Lower(option), Sorted(options), chosen)
  }

  /** Whenever a chosen value is named again while a value inside it is not chosen, that inner value is the
      one the reply newly names next. */
  predicate InStep(choice: seq<string>, options: seq<string>, chosen: seq<string>)
    decreases |choice|
  {
    choice == [] ||
    var option, more := choice[0], choice[1..];
    if option !in chosen then InStep(more, options, chosen + [option])
    else
      var inner := InnerValue(option, options, chosen);
      if inner.None? then InStep(more, options, chosen)
      else
        && NewIn(more, chosen) != [] && NewIn(more, chosen)[0] == inner.value
        && InStep(more, options, chosen + [inner.value])
  }

  lemma {:induction false} NewAhead(choice: seq<string>, chosen: seq<string>)
    requires NewIn(choice, chosen) != []
    ensures var u := NewIn(choice, chosen)[0]; NewIn(choice, chosen) == [u] + NewIn(choice, chosen + [u])
    decreases |choice|
  {
    if choice[0] in chosen {
      NewAhead(choice[1..], chosen);
    }
  }

  /** A value named again: what it adds. */
  lemma ChoosesInner(options: seq<string>, option: string, lead: string, chosen: seq<string>)
    requires Offerable(options) && option in options && option in chosen && (lead == "" || lead == " ")
    ensures var inner := InnerValue(option, options, chosen);
            Choose(lead + option, Sorted(options), chosen) == if inner.Some? then chosen + [inner.value] else chosen
  {
    assert option != "" && Trimmed(option);
    StripLead(option);
    StripTrims(option);
    assert "" + option == option;
    assert Strip(lead + option) == option;
    assert |Lower(option)| == |option|;
    hide Strip, Sorted, Contains;
    forall o | o in Sorted(options) ensures !Exact(o, Lower(option), chosen) {
      if Lower(o) == Lower(option) { SameOption(options, o, option); }
    }
  }

  lemma KeepsChosen(parts: seq<string>, options: seq<string>, chosen: seq<string>)
    requires Distinct(chosen) && forall o | o in chosen :: o in options
    ensures chosen <= ChooseAll(parts, Sorted(options), chosen)
  {
    ChosenAreOffered(parts, Sorted(options), chosen);
  }

  lemma {:induction false} ChoosesWhatIsNamed(options: seq<string>, choice: seq<string>, lead: string, chosen: seq<string>)
    requires Offerable(options) && (forall o | o in choice :: o in options) && (lead == "" || lead == " ")
    requires Distinct(chosen) && forall o | o in chosen :: o in options
    ensures ChooseAll(Spaced(choice, lead), Sorted(options), chosen) == chosen + NewIn(choice, chosen)
            <==> InStep(choice, options, chosen)
    decreases |choice|, 0
  {
    hide Offerable, Choose, Sorted, Spaced;
    if choice == [] {
      assert chosen + [] == chosen;
    } else {
      var option, more := choice[0], choice[1..];
      assert option in choice && forall o | o in more :: o in choice;
      SpacedStep(choice, lead);
      ChooseStep(lead + option, Spaced(more, " "), Sorted(options), chosen);
      if option !in chosen {
        ChoosesIt(options, option, lead, chosen);
        ChoosesWhatIsNamed(options, more, " ", chosen + [option]);
        assert chosen + [option] + NewIn(more, chosen + [option]) == chosen + NewIn(choice, chosen);
      } else {
        ChoosesInner(options, option, lead, chosen);
        var inner := InnerValue(option, options, chosen);
        if inner.None? {
          ChoosesWhatIsNamed(options, more, " ", chosen);
        } else {
          InnerStep(options, choice, more, chosen, inner.value);
        }
      }
    }
  }

  lemma InnerStep(options: seq<string>, choice: seq<string>, more: seq<string>, chosen: seq<string>, inner: string)
    requires Offerable(options) && (forall o | o in more :: o in options)
    requires Distinct(chosen) && forall o | o in chosen :: o in options
    requires inner in options && inner !in chosen
    ensures ChooseAll(Spaced(more, " "), Sorted(options), chosen + [inner]) == chosen + NewIn(more, chosen)
            <==> NewIn(more, chosen) != [] && NewIn(more, chosen)[0] == inner && InStep(more, options, chosen + [inner])
    decreases |more|, 1
  {
    hide Offerable, ChooseAll, Sorted, Spaced, InStep, NewIn;
    ChoosesWhatIsNamed(options, more, " ", chosen + [inner]);
    KeepsChosen(Spaced(more, " "), options, chosen + [inner]);
    var ahead := NewIn(more, chosen);
    if ahead != [] && ahead[0] == inner {
      NewAhead(more, chosen);
      assert chosen + ahead == chosen + [inner] + NewIn(more, chosen + [inner]);
    } else {
      assert (chosen + [inner])[|chosen|] == inner;
      assert ahead != [] ==> (chosen + ahead)[|chosen|] == ahead[0];
    }
  }

  lemma {:induction false} NewAreNamed(choice: seq<string>, chosen: seq<string>)
    ensures var r := NewIn(choice, chosen);
            && Distinct(r) && (forall o :: o in r <==> o in choice && o !in chosen)
    decreases |choice|
  {
    if choice != [] {
      var next := if choice[0] in chosen then chosen else chosen + [choice[0]];
      NewAreNamed(choice[1..], next);
      var rest := NewIn(choice[1..], next);
      assert forall k | 0 <= k < |rest| :: rest[k] in rest;
    }
  }

  lemma TapIsRead(options: seq<string>, choice: seq<string>)
    requires Offerable(options) && choice != [] && forall o | o in choice :: o in options
    ensures |choice| > 1 ==> ChooseAll(Spaced(choice, ""), Sorted(options), []) != []
                             && Resolve("Selected: " + Joined(choice), options)
                                == Some(ChooseAll(Spaced(choice, ""), Sorted(options), []))
    ensures |choice| == 1 ==> Resolve("Selected: " + Joined(choice), options) == Some(choice)
  {
    hide Resolve, Offerable, ChooseAll, Spaced, Sorted;
    assert choice[0] in choice && options != [];
    if |choice| == 1 {
      assert Joined(choice) == choice[0] && choice == [choice[0]];
      TapOne(options, choice[0]);
    } else {
      SeveralAreRead(options, choice);
    }
  }

  lemma SeveralAreRead(options: seq<string>, choice: seq<string>)
    requires Offerable(options) && |choice| > 1 && options != [] && forall o | o in choice :: o in options
    ensures ChooseAll(Spaced(choice, ""), Sorted(options), []) != []
    ensures Resolve("Selected: " + Joined(choice), options) == Some(ChooseAll(Spaced(choice, ""), Sorted(options), []))
  {
    assert forall o | o in choice :: o != "" && Trimmed(o) && Whole(o);
    hide Offerable, Body, Lower, Sorted, SplitReply, ChooseAll, Spaced, NONE_TOKENS, Joined, SaysNone, FirstNamed, Trimmed,
        Whole;
    JoinedIsTrimmed(choice);
    TapBody(Joined(choice));
    NotOneValue(options, choice);
    TapIsSplit(choice);
    SomethingChosen(options, choice);
  }

  lemma TapIsSplit(choice: seq<string>)
    requires choice != [] && forall o | o in choice :: o != "" && Whole(o)
    ensures SplitReply(Joined(choice)) == Spaced(choice, "")
  {
    var joined := Joined(choice);
    assert "" + "" + joined == joined;
    assert Breaks("" + "", "");
    hide Whole, Breaks, SplitFrom, Spaced, Joined;
    SplitJoined(joined, "", "", choice);
  }

  lemma SomethingChosen(options: seq<string>, choice: seq<string>)
    requires Offerable(options) && choice != [] && forall o | o in choice :: o in options
    ensures ChooseAll(Spaced(choice, ""), Sorted(options), []) != []
  {
    hide Offerable, Sorted, Choose, Spaced;
    assert choice[0] in choice;
    ChoosesIt(options, choice[0], "", []);
    SpacedStep(choice, "");
    var one := [choice[0]];
    assert [] + one == one;
    ChooseStep("" + choice[0], Spaced(choice[1..], " "), Sorted(options), []);
    hide ChooseAll;
    KeepsChosen(Spaced(choice[1..], " "), options, one);
  }

  /** Whatever offered values a tap names and however often: it is read as the values it names, each once and
      in the order of first mention, exactly when every value named again is in step with the reply. */
  lemma TapWithRepeats(options: seq<string>, choice: seq<string>)
    requires Offerable(options) && choice != [] && forall o | o in choice :: o in options
    ensures Resolve("Selected: " + Joined(choice), options) == Some(NewIn(choice, [])) <==> InStep(choice, options, [])
    ensures Distinct(NewIn(choice, [])) && forall o :: o in NewIn(choice, []) <==> o in choice
  {
    NewAreNamed(choice, []);
    hide Offerable, Resolve, ChooseAll, Sorted, Spaced, InStep, NewIn;
    TapIsRead(options, choice);
    ChoosesWhatIsNamed(options, choice, "", []);
    assert [] + NewIn(choice, []) == NewIn(choice, []);
    if |choice| == 1 {
      assert choice == [choice[0]];
      OneIsInStep(options, choice);
    }
  }

  lemma OneIsInStep(options: seq<string>, choice: seq<string>)
    requires |choice| == 1
    ensures InStep(choice, options, []) && NewIn(choice, []) == choice
  {
    assert choice[1..] == [];
  }

  // ----- when it is -----

  /** Every offered value that lies inside the option is among the given ones. */
  predicate InsideNamed(option: string, options: seq<string>, named: seq<string>) {
    forall o | o in options && Contains(Lower(option), Lower(o)) :: o in named
  }

  lemma InnerIffInside(option: string, options: seq<string>, named: seq<string>)
    ensures InnerValue(option, options, named).None? <==> InsideNamed(option, options, named)
  {
    hide Contains, Sorted;
    var inner := InnerValue(option, options, named);
    if inner.None? {
      forall o | o in options && Contains(Lower(option), Lower(o)) ensures o in named {
        assert o in Sorted(options) && !Inside(o, Lower(option), named);
      }
    } else {
      assert inner.value in options && Inside(inner.value, Lower(option), named);
    }
  }

  lemma {:induction false} RepeatsInStep(options: seq<string>, again: seq<string>, chosen: seq<string>)
    requires forall o | o in again :: o in chosen
    ensures NewIn(again, chosen) == []
    ensures InStep(again, options, chosen) <==> forall o | o in again :: InsideNamed(o, options, chosen)
    decreases |again|
  {
    if again != [] {
      hide InsideNamed, InnerValue;
      assert again[0] in again && forall o | o in again[1..] :: o in again;
      RepeatsInStep(options, again[1..], chosen);
      InnerIffInside(again[0], options, chosen);
      assert forall o | o in again :: o == again[0] || o in again[1..];
    }
  }

  lemma FirstMention(options: seq<string>, option: string, rest: seq<string>, chosen: seq<string>)
    requires option !in chosen
    ensures InStep([option] + rest, options, chosen) <==> InStep(rest, options, chosen + [option])
    ensures NewIn([option] + rest, chosen) == [option] + NewIn(rest, chosen + [option])
  {
    hide InnerValue;
    assert ([option] + rest)[1..] == rest;
  }

  lemma {:induction false} FirstMentionsInStep(options: seq<string>, choice: seq<string>, again: seq<string>,
                                               chosen: seq<string>)
    requires Distinct(choice) && (forall o | o in choice :: o !in chosen)
    ensures InStep(choice + again, options, chosen) <==> InStep(again, options, chosen + choice)
    ensures NewIn(choice + again, chosen) == choice + NewIn(again, chosen + choice)
    decreases |choice|
  {
    hide InStep, NewIn;
    if choice == [] {
      assert choice + again == again && chosen + choice == chosen;
      assert [] + NewIn(again, chosen) == NewIn(again, chosen);
    } else {
      var option, more := choice[0], choice[1..];
      assert option in choice && forall o | o in more :: o in choice && o != option;
      FirstMentionsInStep(options, more, again, chosen + [option]);
      FirstMention(options, option, more + again, chosen);
      assert [option] + (more + again) == choice + again && chosen + [option] + more == chosen + choice;
    }
  }

  /** When the repeats come after all the choices, they are harmless exactly when every offered value inside
      one of them is chosen too. */
  lemma RepeatsAtTheEnd(options: seq<string>, choice: seq<string>, again: seq<string>)
    requires Offerable(options) && choice != [] && Distinct(choice) && (forall o | o in choice :: o in options)
    requires forall o | o in again :: o in choice
    ensures Resolve("Selected: " + Joined(choice + again), options) == Some(choice)
            <==> forall o | o in again :: InsideNamed(o, options, choice)
  {
    hide Offerable, Resolve, InStep, NewIn, InsideNamed, Joined;
    TapWithRepeats(options, choice + again);
    FirstMentionsInStep(options, choice, again, []);
    assert [] + choice == choice && choice + [] == choice;
    RepeatsInStep(options, again, choice);
  }

  /** What a tap posts is read back as the choice it was made from, in the same order. */
  lemma TapRoundTrip(options: seq<string>, choice: seq<string>)
    requires Offerable(options) && choice != [] && Distinct(choice) && forall o | o in choice :: o in options
    ensures Resolve("Selected: " + Joined(choice), options) == Some(choice)
  {
    hide Offerable, Resolve, InsideNamed, Joined;
    RepeatsAtTheEnd(options, choice, []);
    assert choice + [] == choice;
  }

  const DISCS := ["Blu-Ray", "Blu-Ray 3D"]

  lemma DiscsAreOfferable()
    ensures Offerable(DISCS) && DISCS[0] != DISCS[1]
    ensures Contains(Lower("Blu-Ray 3D"), Lower("Blu-Ray"))
  {
    WholeExample("Blu-Ray");
    WholeExample("Blu-Ray 3D");
    assert |Lower("Blu-Ray")| == 7 && |Lower("Blu-Ray 3D")| == 10;
    assert At(Lower("Blu-Ray 3D"), 0, Lower("Blu-Ray"));
    hide Whole, Lower;
  }

  /** Naming "Blu-Ray 3D" twice chooses "Blu-Ray" as well. */
  lemma RepeatChoosesInnerValue()
    ensures Resolve("Selected: Blu-Ray 3D, Blu-Ray 3D", DISCS) == Some(["Blu-Ray 3D", "Blu-Ray"])
  {
    var twice := ["Blu-Ray 3D", "Blu-Ray 3D"];
    DiscsAreOfferable();
    assert "Selected: " + Joined(twice) == "Selected: Blu-Ray 3D, Blu-Ray 3D" by { JoinedTwice("Blu-Ray 3D"); }
    assert DISCS[1] == "Blu-Ray 3D" && DISCS[1] in DISCS;
    hide Offerable, Resolve, ChooseAll, Sorted, Joined, Choose, Lower, Contains;
    TapIsRead(DISCS, twice);
    ChoosesIt(DISCS, "Blu-Ray 3D", "", []);
    ChoosesInner(DISCS, "Blu-Ray 3D", " ", ["Blu-Ray 3D"]);
    InnerIffInside("Blu-Ray 3D", DISCS, ["Blu-Ray 3D"]);
    assert DISCS[0] in DISCS && !InsideNamed("Blu-Ray 3D", DISCS, ["Blu-Ray 3D"]);
    BothChosen();
  }

  lemma JoinedTwice(o: string)
    ensures Joined([o, o]) == o + ", " + o
  {
    assert [o, o][1..] == [o];
  }

  lemma BothChosen()
    requires Choose("" + "Blu-Ray 3D", Sorted(DISCS), []) == [] + ["Blu-Ray 3D"]
    requires InnerValue("Blu-Ray 3D", DISCS, ["Blu-Ray 3D"]).Some?
    requires Choose(" " + "Blu-Ray 3D", Sorted(DISCS), ["Blu-Ray 3D"])
             == ["Blu-Ray 3D"] + [InnerValue("Blu-Ray 3D", DISCS, ["Blu-Ray 3D"]).value]
    ensures ChooseAll(Spaced(["Blu-Ray 3D", "Blu-Ray 3D"], ""), Sorted(DISCS), []) == ["Blu-Ray 3D", "Blu-Ray"]
  {
    hide Choose, Sorted, InnerValue;
    var byLength, disc := Sorted(DISCS), "Blu-Ray 3D";
    InnerIsOffered(disc, DISCS, [disc]);
    assert InnerValue(disc, DISCS, [disc]).value == "Blu-Ray";
    var parts := Spaced([disc, disc], "");
    assert parts == ["" + disc, " " + disc] && parts[1..] == [" " + disc] && parts[1..][1..] == [];
    assert [] + [disc] == [disc];
    assert ChooseAll(parts, byLength, []) == ChooseAll(parts[1..], byLength, [disc]);
    assert ChooseAll(parts[1..], byLength, [disc]) == ChooseAll([], byLength, [disc, "Blu-Ray"]);
  }

  lemma InnerIsOffered(option: string, options: seq<string>, chosen: seq<string>)
    ensures var inner := InnerValue(option, options, chosen);
            inner.Some? ==> inner.value in options && inner.value !in chosen
  {
    hide Contains;
  }

  lemma WholeExample(option: string)
    requires forall k | 0 <= k < |option| :: !SeparatorChar(option[k]) && option[k] != 'n' && option[k] != 'N'
    ensures Whole(option)
  {
    forall p | 0 <= p < |option| ensures SeparatorAt(option, p) == 0 {
      if p + 3 <= |option| {
        assert Lower(option[p..p + 3])[1] == LowerChar(option[p + 1]);
        assert LowerChar(option[p + 1]) != 'n';
      }
    }
  }
}
