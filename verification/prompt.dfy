/** The text sent to the completion service: a fixed preamble, the chosen card names, a fixed question. */
module Prompt {
  import opened Wrappers
  import opened Strings
  import opened Catalog

  const Preamble := "You're old Tarot Obcurantist. Please read the Tarot cards for me. Send the answer without any formatting but breaked by new lines. Here are the cards I've been dealt: "
  const Question := ". What do they mean?"
  const NameSeparator := ", "

  /** The cards' names, in the same order. */
  function Names(cards: seq<Card>): (names: seq<string>)
    ensures |names| == |cards|
    ensures forall k :: 0 <= k < |cards| ==> names[k] == cards[k].name
  {
    seq(|cards|, k requires 0 <= k < |cards| => cards[k].name)
  }

  /** The prompt: the preamble, the names joined by ", ", then the question. */
  function GeneratePrompt(cards: seq<Card>): (prompt: string)
    ensures |prompt| >= |Preamble| + |Question|
    ensures prompt[..|Preamble|] == Preamble
    ensures prompt[|prompt| - |Question|..] == Question
  {
    Preamble + Join(Names(cards), NameSeparator) + Question
  }

  /**
   * Reads the card names back out of a prompt: checks the fixed preamble and
   * question and splits what lies between them at ", ".
   */
  function ReadNames(prompt: string): Option<seq<string>> {
    if |prompt| >= |Preamble| + |Question|
       && prompt[..|Preamble|] == Preamble
       && prompt[|prompt| - |Question|..] == Question
    then Some(Split(prompt[|Preamble|..|prompt| - |Question|], NameSeparator))
    else None
  }

  lemma NameSeparatorIsUnbordered()
    ensures Unbordered(NameSeparator)
  {
    assert NameSeparator[..1] == "," && NameSeparator[1..] == " ";
  }

  /** A name without a comma cannot contain the separator ", ". */
  lemma CommaFreeNameIsClean(name: string)
    requires ',' !in name
    ensures !Contains(name, NameSeparator)
  {
    forall i | 0 <= i <= |name| - |NameSeparator| ensures !OccursAt(name, NameSeparator, i) {
      assert name[i] in name;
      assert name[i..i + |NameSeparator|][0] == name[i];
    }
  }

  /**
   * The prompt for a non-empty hand whose names carry no comma lists exactly
   * those names, in hand order.
   */
  lemma {:induction false} PromptListsNames(cards: seq<Card>)
    requires |cards| >= 1
    requires forall k :: 0 <= k < |cards| ==> ',' !in cards[k].name
    ensures ReadNames(GeneratePrompt(cards)) == Some(Names(cards))
  {
    var names := Names(cards);
    var joined := Join(names, NameSeparator);
    var prompt := GeneratePrompt(cards);
    assert prompt == Preamble + joined + Question;
    assert prompt[|Preamble|..|prompt| - |Question|] == joined;
    forall k | 0 <= k < |names| ensures !Contains(names[k], NameSeparator) {
      CommaFreeNameIsClean(names[k]);
    }
    NameSeparatorIsUnbordered();
    SplitJoin(names, NameSeparator);
  }

  /** Every non-empty hand drawn from the catalog is listed exactly by its prompt. */
  lemma CatalogPromptListsNames(cards: seq<Card>)
    requires |cards| >= 1
    requires AllFromCatalog(cards)
    ensures ReadNames(GeneratePrompt(cards)) == Some(Names(cards))
  {
    NamesHaveNoComma(cards);
    PromptListsNames(cards);
  }

  /** The joined names sit in the prompt right after the preamble. */
  lemma NamesFollowPreamble(cards: seq<Card>)
    ensures OccursAt(GeneratePrompt(cards), Join(Names(cards), NameSeparator), |Preamble|)
  {
    var joined := Join(Names(cards), NameSeparator);
    var prompt := GeneratePrompt(cards);
    assert prompt == Preamble + joined + Question;
    assert prompt[|Preamble|..|Preamble| + |joined|] == joined;
  }

  lemma FoolAndDeathJoined()
    ensures Join(["The Fool", "Death"], NameSeparator) == "The Fool, Death"
  {
    JoinPair("The Fool", "Death", NameSeparator);
  }

  /** A hand of the Fool then Death puts "The Fool, Death" into the prompt, right after the preamble. */
  lemma FoolThenDeath(cards: seq<Card>)
    requires |cards| == 2 && cards[0].name == "The Fool" && cards[1].name == "Death"
    ensures OccursAt(GeneratePrompt(cards), "The Fool, Death", |Preamble|)
    ensures Contains(GeneratePrompt(cards), "The Fool, Death")
  {
    assert Names(cards) == ["The Fool", "Death"];
    FoolAndDeathJoined();
    NamesFollowPreamble(cards);
    var prompt := GeneratePrompt(cards);
    assert OccursAt(prompt, "The Fool, Death", |Preamble|);
    assert 0 <= |Preamble| <= |prompt| - |"The Fool, Death"|;
  }
}
