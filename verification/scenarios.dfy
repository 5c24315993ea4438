/**
 Concrete games showing letter multiplicity ("aaab" against "aabbcc"), an
 extra letter ("elephants" against "elephant"), a repeated word, and two
 accepted turns ("train" then "grant" against "triangle").
 */
module Scenarios {
  import opened Letters
  import opened Game

  /** Counts of each character in the words of the "triangle" game, unrolled
      one position at a time. */
  lemma TrainCount(c: char)
    ensures Occurrences("train", c) == (if 't' == c then 1 else 0) + (if 'r' == c then 1 else 0) + (if 'a' == c then 1 else 0) + (if 'i' == c then 1 else 0) + (if 'n' == c then 1 else 0)
  {
    assert "train"[1..] == "rain";
    assert Occurrences("train", c) == Occurrences("rain", c) + (if 't' == c then 1 else 0);
    assert "rain"[1..] == "ain";
    assert Occurrences("rain", c) == Occurrences("ain", c) + (if 'r' == c then 1 else 0);
    assert "ain"[1..] == "in";
    assert Occurrences("ain", c) == Occurrences("in", c) + (if 'a' == c then 1 else 0);
    assert "in"[1..] == "n";
    assert Occurrences("in", c) == Occurrences("n", c) + (if 'i' == c then 1 else 0);
    assert "n"[1..] == "";
    assert Occurrences("n", c) == Occurrences("", c) + (if 'n' == c then 1 else 0);
  }

  lemma GrantCount(c: char)
    ensures Occurrences("grant", c) == (if 'g' == c then 1 else 0) + (if 'r' == c then 1 else 0) + (if 'a' == c then 1 else 0) + (if 'n' == c then 1 else 0) + (if 't' == c then 1 else 0)
  {
    assert "grant"[1..] == "rant";
    assert Occurrences("grant", c) == Occurrences("rant", c) + (if 'g' == c then 1 else 0);
    assert "rant"[1..] == "ant";
    assert Occurrences("rant", c) == Occurrences("ant", c) + (if 'r' == c then 1 else 0);
    assert "ant"[1..] == "nt";
    assert Occurrences("ant", c) == Occurrences("nt", c) + (if 'a' == c then 1 else 0);
    assert "nt"[1..] == "t";
    assert Occurrences("nt", c) == Occurrences("t", c) + (if 'n' == c then 1 else 0);
    assert "t"[1..] == "";
    assert Occurrences("t", c) == Occurrences("", c) + (if 't' == c then 1 else 0);
  }

  lemma TriangleCount(c: char)
    ensures Occurrences("triangle", c) == (if 't' == c then 1 else 0) + (if 'r' == c then 1 else 0) + (if 'i' == c then 1 else 0) + (if 'a' == c then 1 else 0) + (if 'n' == c then 1 else 0) + (if 'g' == c then 1 else 0) + (if 'l' == c then 1 else 0) + (if 'e' == c then 1 else 0)
  {
    assert "triangle"[1..] == "riangle";
    assert Occurrences("triangle", c) == Occurrences("riangle", c) + (if 't' == c then 1 else 0);
    assert "riangle"[1..] == "iangle";
    assert Occurrences("riangle", c) == Occurrences("iangle", c) + (if 'r' == c then 1 else 0);
    assert "iangle"[1..] == "angle";
    assert Occurrences("iangle", c) == Occurrences("angle", c) + (if 'i' == c then 1 else 0);
    assert "angle"[1..] == "ngle";
    assert Occurrences("angle", c) == Occurrences("ngle", c) + (if 'a' == c then 1 else 0);
    assert "ngle"[1..] == "gle";
    assert Occurrences("ngle", c) == Occurrences("gle", c) + (if 'n' == c then 1 else 0);
    assert "gle"[1..] == "le";
    assert Occurrences("gle", c) == Occurrences("le", c) + (if 'g' == c then 1 else 0);
    assert "le"[1..] == "e";
    assert Occurrences("le", c) == Occurrences("e", c) + (if 'l' == c then 1 else 0);
    assert "e"[1..] == "";
    assert Occurrences("e", c) == Occurrences("", c) + (if 'e' == c then 1 else 0);
  }

  lemma TriangleCounts(c: char)
    ensures Occurrences("train", c) <= Occurrences("triangle", c)
    ensures Occurrences("grant", c) <= Occurrences("triangle", c)
  {
    TrainCount(c);
    GrantCount(c);
    TriangleCount(c);
  }

  /** Three "a"s cannot be spelt from a base word holding two, although "a"
      and "b" both occur in it. */
  lemma TripleLetterRejected()
    ensures !Fits("aaab", "aabbcc")
  {
    assert Occurrences("aaab", 'a') == 3;
    assert Occurrences("aabbcc", 'a') == 2;
    OverusedLetterRejected("aaab", "aabbcc", 'a');
  }

  lemma ElephantsDoesNotFit()
    ensures !Fits("elephants", "elephant")
  {
    assert Occurrences("elephants", 's') == 1;
    assert Occurrences("elephant", 's') == 0;
    OverusedLetterRejected("elephants", "elephant", 's');
  }

  /** A fresh game's first word that does not fit loses on letters, and
      player 1 is the loser. */
  lemma FirstWordLosesOnLetters(baseWord: string, word: string)
    requires word != "" && !Fits(word, baseWord)
    ensures Turn(NewGame(baseWord), word).status == Over(InvalidLetters)
    ensures Turn(NewGame(baseWord), word).currentPlayer == 1
  {
  }

  /** "elephants" needs an "s" the base word "elephant" does not hold: the
      player who submits it loses on letters. */
  lemma ExtraLetterLoses()
    ensures Turn(NewGame("elephant"), "elephants").status == Over(InvalidLetters)
    ensures Turn(NewGame("elephant"), "elephants").currentPlayer == 1
  {
    ElephantsDoesNotFit();
    FirstWordLosesOnLetters("elephant", "elephants");
  }

  /** A word accepted on the first turn and submitted again on the second
      loses as a repeat, and player 2 is the loser. */
  lemma ReplayedWordLoses(baseWord: string, word: string)
    requires word != "" && Fits(word, baseWord)
    ensures Turn(NewGame(baseWord), word).status == InProgress
    ensures Turn(Turn(NewGame(baseWord), word), word).status == Over(Repeated)
    ensures Turn(Turn(NewGame(baseWord), word), word).currentPlayer == 2
  {
  }

  /** The base word itself is a valid first move; submitting it again on the
      next turn loses as a repeat. */
  lemma RepeatedWordLoses()
    ensures Turn(NewGame("elephant"), "elephant").status == InProgress
    ensures Turn(Turn(NewGame("elephant"), "elephant"), "elephant").status == Over(Repeated)
    ensures Turn(Turn(NewGame("elephant"), "elephant"), "elephant").currentPlayer == 2
  {
    RearrangementFits("elephant", "elephant");
    ReplayedWordLoses("elephant", "elephant");
  }

  lemma TrainFits()
    ensures Fits("train", "triangle")
  {
    forall c
      ensures Occurrences("train", c) <= Occurrences("triangle", c)
    {
      TriangleCounts(c);
    }
    CountsBoundedFits("train", "triangle");
  }

  lemma GrantFits()
    ensures Fits("grant", "triangle")
  {
    forall c
      ensures Occurrences("grant", c) <= Occurrences("triangle", c)
    {
      TriangleCounts(c);
    }
    CountsBoundedFits("grant", "triangle");
  }

  /** A fresh game in which two different words that fit the base word are
      played: both are accepted, in order, and player 1 is to move again. */
  lemma TwoWordGame(baseWord: string, first: string, second: string)
    requires first != "" && second != "" && first != second
    requires Fits(first, baseWord) && Fits(second, baseWord)
    ensures Run(NewGame(baseWord), [first, second]).status == InProgress
    ensures Run(NewGame(baseWord), [first, second]).usedWords == [first, second]
    ensures Run(NewGame(baseWord), [first, second]).currentPlayer == 1
  {
    var g1 := Turn(NewGame(baseWord), first);
    var g2 := Turn(g1, second);
    assert [first, second][1..] == [second];
    assert Run(NewGame(baseWord), [first, second]) == Run(g2, []);
  }

  /** With base word "triangle", "train" then "grant" are both accepted: the
      used words are ["train", "grant"] in that order, the game goes on, and
      player 1 is to move again. */
  lemma TwoTurnGame()
    ensures Run(NewGame("triangle"), ["train", "grant"]).status == InProgress
    ensures Run(NewGame("triangle"), ["train", "grant"]).usedWords == ["train", "grant"]
    ensures Run(NewGame("triangle"), ["train", "grant"]).currentPlayer == 1
  {
    TrainFits();
    GrantFits();
    TwoWordGame("triangle", "train", "grant");
  }
}
