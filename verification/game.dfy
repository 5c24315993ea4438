/**
 The turn engine of the word game (CheckInput and the GameLoop of Program.cs).
 The static fields baseWord, usedWords, currentPlayer and gameOver become one
 `GameState` value; a turn takes the word the input collector produced and returns
 the next game. The collector itself (a timer racing a console read) is not
 modelled: its outcome is an input to the turn.
 */
module Game {
  import opened Wrappers
  import opened Letters
  import opened BaseWord

  /** Why a player lost: the message CheckInput prints before it sets gameOver. */
  datatype Reason = TimedOut | Repeated | InvalidLetters

  /** `gameOver` of the source, with the reason the game ended. */
  datatype Status = InProgress | Over(reason: Reason)

  datatype GameState = GameState(baseWord: string, usedWords: seq<string>, currentPlayer: int, status: Status)

  predicate NoDuplicates(words: seq<string>) {
    forall i, j :: 0 <= i < j < |words| ==> words[i] != words[j]
  }

  /** What every reachable game satisfies: the player is 1 or 2, no word was
      used twice, and every used word is non-empty and fits the base word. */
  predicate Valid(g: GameState) {
    && (g.currentPlayer == 1 || g.currentPlayer == 2)
    && NoDuplicates(g.usedWords)
    && forall w :: w in g.usedWords ==> w != "" && Fits(w, g.baseWord)
  }

  /** The game as GameLoop starts it: player 1, no used words, not over. */
  function NewGame(baseWord: string): (g: GameState)
    ensures Valid(g)
    ensures g.baseWord == baseWord && g.status == InProgress
  {
    GameState(baseWord, [], 1, InProgress)
  }

  /** The turn judge. The checks are made in a fixed order and the first that
      applies decides: an empty word loses on time, a used word loses as a
      repeat, a word that does not fit the base word loses on its letters,
      and any other word is appended to the used words. A losing turn sets
      the game over and leaves the used words alone. */
  function CheckInput(g: GameState, input: string): (r: GameState)
    ensures r.baseWord == g.baseWord && r.currentPlayer == g.currentPlayer
    ensures input == "" ==> r == g.(status := Over(TimedOut))
    ensures input != "" && input in g.usedWords ==> r == g.(status := Over(Repeated))
    ensures input != "" && input !in g.usedWords && !Fits(input, g.baseWord)
            ==> r == g.(status := Over(InvalidLetters))
    ensures r.usedWords != g.usedWords <==>
              input != "" && input !in g.usedWords && Fits(input, g.baseWord)
    ensures r.usedWords != g.usedWords ==>
              r.usedWords == g.usedWords + [input] && r.status == g.status
    ensures Valid(g) ==> Valid(r)
  {
    if input == "" then g.(status := Over(TimedOut))
    else if input in g.usedWords then g.(status := Over(Repeated))
    else if !Fits(input, g.baseWord) then g.(status := Over(InvalidLetters))
    else g.(usedWords := g.usedWords + [input])
  }

  /** The rotation of GameLoop: player 1 hands over to 2, anyone else to 1. */
  function NextPlayer(p: int): (q: int)
    ensures q == 1 || q == 2
    ensures (p == 1 || p == 2) ==> q != p
  {
    if p == 1 then 2 else 1
  }

  lemma NextPlayerInvolution(p: int)
    requires p == 1 || p == 2
    ensures NextPlayer(NextPlayer(p)) == p
  {
  }

  /** One pass of the GameLoop body on a running game: play the turn, then
      hand over to the other player unless the turn ended the game. The loser
      stays the current player. */
  function Turn(g: GameState, input: string): (r: GameState)
    requires g.status == InProgress
    ensures r.baseWord == g.baseWord
    ensures r.status.Over? ==> r.currentPlayer == g.currentPlayer && r.usedWords == g.usedWords
    ensures r.status == InProgress ==>
              r.currentPlayer == NextPlayer(g.currentPlayer) && r.usedWords == g.usedWords + [input]
    ensures r.status == InProgress <==> input != "" && input !in g.usedWords && Fits(input, g.baseWord)
    ensures Valid(g) ==> Valid(r)
  {
    var checked := CheckInput(g, input);
    if checked.status.Over? then checked
    else checked.(currentPlayer := NextPlayer(checked.currentPlayer))
  }

  /** GameLoop fed a sequence of collected words: turns are played while the
      game is not over; once it is over, the remaining words are never read. */
  function Run(g: GameState, inputs: seq<string>): (r: GameState)
    ensures r.baseWord == g.baseWord
    ensures g.status.Over? ==> r == g
    ensures g.usedWords <= r.usedWords
    ensures |r.usedWords| <= |g.usedWords| + |inputs|
    decreases |inputs|
  {
    if g.status.Over? || inputs == [] then g
    else Run(Turn(g, inputs[0]), inputs[1..])
  }

  /** The invariant holds in every game the loop reaches. */
  lemma {:induction false} RunPreservesValid(g: GameState, inputs: seq<string>)
    requires Valid(g)
    ensures Valid(Run(g, inputs))
    decreases |inputs|
  {
    if g.status == InProgress && inputs != [] {
      RunPreservesValid(Turn(g, inputs[0]), inputs[1..]);
    }
  }

  /** The player whose turn it is after `n` hand-overs from `p`. */
  function PlayerAfter(p: int, n: nat): int {
    if n == 0 then p else NextPlayer(PlayerAfter(p, n - 1))
  }

  lemma {:induction false} PlayerAfterParity(p: int, n: nat)
    requires p == 1 || p == 2
    ensures PlayerAfter(p, n) == if n % 2 == 0 then p else NextPlayer(p)
  {
    if n > 0 {
      PlayerAfterParity(p, n - 1);
    }
  }

  /** A game still running after a sequence of turns accepted every word:
      the used words are the old ones followed by the inputs in order, and
      the turn passed once per input, so an even number of turns gives the
      move back to the player who had it. */
  lemma {:induction false} RunningGameAcceptedAll(g: GameState, inputs: seq<string>)
    requires g.status == InProgress
    requires Run(g, inputs).status == InProgress
    ensures Run(g, inputs).usedWords == g.usedWords + inputs
    ensures Run(g, inputs).currentPlayer == PlayerAfter(g.currentPlayer, |inputs|)
    ensures (g.currentPlayer == 1 || g.currentPlayer == 2) ==>
              Run(g, inputs).currentPlayer
              == if |inputs| % 2 == 0 then g.currentPlayer else NextPlayer(g.currentPlayer)
    decreases |inputs|
  {
    if g.currentPlayer == 1 || g.currentPlayer == 2 {
      PlayerAfterParity(g.currentPlayer, |inputs|);
    }
    if inputs != [] {
      var next := Turn(g, inputs[0]);
      assert next.status == InProgress;
      RunningGameAcceptedAll(next, inputs[1..]);
      assert inputs == [inputs[0]] + inputs[1..];
      assert PlayerAfter(g.currentPlayer, |inputs|)
             == PlayerAfter(NextPlayer(g.currentPlayer), |inputs| - 1) by {
        PlayerAfterShift(g.currentPlayer, |inputs| - 1);
      }
    }
  }

  lemma {:induction false} PlayerAfterShift(p: int, n: nat)
    ensures PlayerAfter(p, n + 1) == PlayerAfter(NextPlayer(p), n)
  {
    if n > 0 {
      PlayerAfterShift(p, n - 1);
    }
  }

  /** Two accepted turns give the turn back to the player who started, with
      both words recorded in the order they were played. */
  lemma TwoAcceptedTurnsReturnToStarter(g: GameState, first: string, second: string)
    requires Valid(g) && g.status == InProgress
    requires Turn(g, first).status == InProgress
    requires Turn(Turn(g, first), second).status == InProgress
    ensures Turn(Turn(g, first), second).currentPlayer == g.currentPlayer
    ensures Turn(Turn(g, first), second).usedWords == g.usedWords + [first, second]
  {
  }

  /** A game that ends was ended by one turn: some prefix of the inputs was
      accepted, the next input lost, and the player who submitted it is the
      current player of the finished game. */
  lemma {:induction false} RunEndsOnFirstLosingWord(g: GameState, inputs: seq<string>)
    requires g.status == InProgress
    requires Run(g, inputs).status.Over?
    ensures exists k :: 0 <= k < |inputs|
              && Run(g, inputs[..k]).status == InProgress
              && Turn(Run(g, inputs[..k]), inputs[k]).status.Over?
              && Run(g, inputs) == Turn(Run(g, inputs[..k]), inputs[k])
    decreases |inputs|
  {
    var next := Turn(g, inputs[0]);
    assert inputs[..0] == [];
    if next.status.Over? {
      assert Run(g, inputs) == next;
    } else {
      RunEndsOnFirstLosingWord(next, inputs[1..]);
      var k :| 0 <= k < |inputs[1..]|
               && Run(next, inputs[1..][..k]).status == InProgress
               && Turn(Run(next, inputs[1..][..k]), inputs[1..][k]).status.Over?
               && Run(next, inputs[1..]) == Turn(Run(next, inputs[1..][..k]), inputs[1..][k]);
      assert inputs[..k + 1][1..] == inputs[1..][..k];
      assert Run(g, inputs[..k + 1]) == Run(next, inputs[1..][..k]);
    }
  }

  /** What the input collector (GetPlayerInputWithTimer) hands to the turn:
      the timer fired, or the reading thread finished first with a line or
      with the end of the stream (null). */
  datatype Collected = Expired | LineRead(line: Option<string>)

  /** A timeout becomes "", the end of the stream becomes " ". */
  function CollectedWord(c: Collected): string {
    match c
    case Expired => ""
    case LineRead(line) => line.GetOr(" ")
  }

  /** A turn whose timer fired ends the game on time, and the player who ran
      out of time is the loser. */
  lemma ExpiredTurnLosesOnTime(g: GameState)
    requires g.status == InProgress
    ensures Turn(g, CollectedWord(Expired)).status == Over(TimedOut)
    ensures Turn(g, CollectedWord(Expired)).currentPlayer == g.currentPlayer
  {
  }

  /** The end of the input stream is not judged as a timeout: the " " it
      becomes passes the empty check, cannot be a used word of a valid game,
      and fails the letter check against a base word of letters only. */
  lemma EndOfStreamLosesOnLetters(g: GameState, isLetter: char -> bool)
    requires Valid(g) && g.status == InProgress
    requires Acceptable(g.baseWord, isLetter) && !isLetter(' ')
    ensures Turn(g, CollectedWord(LineRead(None))).status == Over(InvalidLetters)
  {
    var w := CollectedWord(LineRead(None));
    assert w == [' '];
    AcceptedExcludesNonLetters(g.baseWord, isLetter, ' ');
    assert !Fits(w, g.baseWord) by {
      assert multiset(w)[' '] == 1;
      assert multiset(g.baseWord)[' '] == 0;
    }
    assert w !in g.usedWords;
  }
}
