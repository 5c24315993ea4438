# WordGame engine in Dafny

A model of the deterministic engine of WordGame, a two-player console word game.
Players take turns submitting words spelt from the letters of a fixed base word.
A turn is lost on a timeout or an empty line, on a word already used, or on a word
that needs a letter more often than the base word holds it.

The model has four modules:

- `Letters` (`letters.dfy`) is the letter check `IsWordValid`. It is written as the
  source's nested removal loop over a copy of the base word. It is proved to decide
  multiset inclusion, `multiset(word) <= multiset(baseWord)`. `Consumes` is a
  recursive restatement of the same removal loop; `ConsumesIffFits` proves it equal
  to the multiset inclusion `Fits`. A per-character count (`Occurrences`) is a
  second, independent reference definition of `Fits`.
- `BaseWord` (`base_word.dfy`) is base-word acceptance in `GetBaseWord`. A null
  line becomes `""`. The length must lie in [8, 30] and every character must be a
  letter. The .NET classification `char.IsLetter` is a parameter `isLetter`.
- `Game` (`game.dfy`) holds the static fields `baseWord`, `usedWords`,
  `currentPlayer` and `gameOver` as one `GameState` value. `CheckInput` is the turn
  judge. `Turn` is one pass of the `GameLoop` body, rotation included. `Run` is the
  loop fed a sequence of collected words. `Valid` is the game invariant: the player
  is 1 or 2, no word is used twice, and every used word is non-empty and fits the
  base word.
- `Scenarios` (`scenarios.dfy`) holds concrete games with the words "elephant",
  "aabbcc" and "triangle".

`gameOver` is modelled as a `Status`, either `InProgress` or `Over(reason)`. The
reason records which losing message `CheckInput` printed.

Strings are `seq<char>` compared by exact equality. The source does no case folding
or normalisation. `IsWordValid` works on a fresh copy of the base word. In the model
sequences are values, so the base word cannot change; the model keeps the copy loop
only to follow the source.

Three behaviours of the code that a reader might not expect, all modelled as written:

- At the end of the input stream, the input thread returns `" "`, not `""`
  (Program.cs:184-186). That input is therefore not judged as a timeout. It
  passes the empty check and reaches the repeat and letter checks.
  `Game.EndOfStreamLosesOnLetters` shows that it loses on letters when the base
  word is letters only and `' '` is not a letter.
- The letter check is a removal loop over a list, not a frequency map. The two are
  proved equivalent.
- `usedWords.Add` does not itself refuse a duplicate. Duplicates are excluded only
  because `CheckInput` checks membership first; `Valid` and its preservation state
  this.

## Model

| member | source | states |
|---|---|---|
| Letters.IsWordValid | Program.cs:240-270 | the copy-and-remove loop returns true exactly when no character occurs in the word more often than in the base word (multiset inclusion), and agrees with the recursive removal algorithm `Consumes` |
| Letters.RemoveFirst | Program.cs:253-261 | removing the first matching available letter takes exactly one copy of that letter out of the pool's multiset and shortens the pool by one |
| Letters.ConsumesIffFits | Program.cs:248-269 | consuming one pool letter per character of the word, and failing at the first character that finds none, succeeds exactly when the word's multiset is included in the pool's |
| Letters.FitsIffCountsBounded | Program.cs:240-270 | a word passes the letter check exactly when every character's count in the word is at most its count in the base word |
| Letters.CountsBoundedFits | Program.cs:240-270 | a word whose per-character counts are bounded by the base word's passes the letter check |
| Letters.OverusedLetterRejected | Program.cs:253-266 | a word using some character more often than the base word holds it is rejected, even when that character occurs in the base word |
| Letters.RearrangementFits | Program.cs:253-269 | the base word itself and any rearrangement of its letters pass the letter check |
| BaseWord.CheckBaseWord | Program.cs:98-124 | a null line becomes "", and the line is accepted exactly when its length is in [8, 30] and every character is a letter; a null line is never accepted |
| BaseWord.GetBaseWord | Program.cs:89-130 | the retry loop yields the first acceptable line, every earlier line having been rejected, and yields nothing exactly when no line is acceptable |
| BaseWord.AcceptedExcludesNonLetters | Program.cs:109-124 | an accepted base word contains no character that fails the letter predicate |
| Game.NewGame | Program.cs:14-18 | the initial game (player 1, no used words, not over) satisfies the game invariant |
| Game.CheckInput | Program.cs:211-238 | in the fixed order empty, repeat, letters, accept: each losing path sets the matching reason and leaves the used words and player alone; the used words change exactly on acceptance, by appending the input at the end; the game invariant is preserved |
| Game.NextPlayer | Program.cs:142-149 | the next player is always 1 or 2, and differs from the current one when that is 1 or 2 |
| Game.NextPlayerInvolution | Program.cs:142-149 | two hand-overs return the move to the same player |
| Game.Turn | Program.cs:136-151 | a turn that ends the game keeps the losing player current and the used words unchanged; a turn that does not end it flips the player and appends the word; the game continues exactly when the word is non-empty, unused and fits; the invariant is preserved |
| Game.Run | Program.cs:136-151 | once the game is over no further turn changes it; the used words only grow, by at most one per input, and the base word never changes |
| Game.RunPreservesValid | Program.cs:136-151 | every game the loop reaches from a valid game is valid: player in {1, 2}, no duplicate used words, every used word fits the base word |
| Game.PlayerAfterParity | Program.cs:140-150 | after n hand-overs the player is the starter when n is even and the other player when n is odd |
| Game.RunningGameAcceptedAll | Program.cs:136-151 | a game still running after a sequence of inputs accepted all of them: the used words are the old ones followed by the inputs in order, and an even number of turns gives the move back to the starter |
| Game.TwoAcceptedTurnsReturnToStarter | Program.cs:136-151 | two accepted turns give the move back to the starting player, with both words appended in order |
| Game.RunEndsOnFirstLosingWord | Program.cs:136-151 | a game that ends was ended by exactly one turn: every earlier input was accepted, and the loser is the player who submitted the losing input |
| Game.ExpiredTurnLosesOnTime | Program.cs:202-217 | a turn whose timer fired yields "", which ends the game on time with the current player as loser |
| Game.EndOfStreamLosesOnLetters | Program.cs:184-186 | the end of the input stream yields " ", which is not treated as a timeout; in a valid game over a letters-only base word it loses on letters |
| Scenarios.TripleLetterRejected | Program.cs:253-266 | "aaab" is rejected against "aabbcc": it needs three "a"s and the base word has two |
| Scenarios.FirstWordLosesOnLetters | Program.cs:228-233 | a first word that does not fit loses on letters with player 1 as loser |
| Scenarios.ExtraLetterLoses | Program.cs:228-233 | "elephants" against base word "elephant" loses on letters, with player 1 as loser |
| Scenarios.ReplayedWordLoses | Program.cs:220-225 | a word accepted on the first turn and submitted again on the second loses as a repeat, with player 2 as loser |
| Scenarios.RepeatedWordLoses | Program.cs:220-225 | "elephant" against itself is accepted once; submitting it again loses as a repeat |
| Scenarios.TwoWordGame | Program.cs:136-151 | two different fitting words played from a fresh game are both accepted in order, and player 1 is to move again |
| Scenarios.TwoTurnGame | Program.cs:236-237 | with base word "triangle", "train" then "grant" leave the used words ["train", "grant"], the game running, and player 1 to move |

## Left out

- GetPlayerInputWithTimer (Program.cs:166-209): the timer, the background input thread, the `ManualResetEvent` and the unsynchronised `inputWord`/`timeExpired` flags are concurrency and are not modelled. Only the outcome the turn receives is modelled (`Game.Collected`): a fired timer gives "", a line read gives that line, and the end of the stream gives " ". The race itself, the timer disposal and the fate of an abandoned read are outside the model.
- TURN_TIMEOUT_MS and CHECK_INTERVAL_MS (Program.cs:11-12), and the `Thread.Sleep` settle delay: these are timing, which the model does not represent.
- GetString and ChooseLanguage (Program.cs:34-87): these are .NET resource and culture lookups plus console I/O.
- All console output and prompts, including the used-word listing in PlayTurn and the final `ReadLine` in GameLoop: these are I/O.
- char.IsLetter (Program.cs:113): this is the .NET Unicode classification, so it is taken as a parameter `isLetter: char -> bool`.
- BaseWord.GetBaseWord: the source loop re-prompts for ever. At the end of the stream it keeps reading null, which becomes "" and is rejected, so it never terminates. The model scans a finite sequence of lines and returns None when none is acceptable.
- Game.CheckInput: `string.IsNullOrEmpty` also treats null as a timeout. The model's input is never null because GetPlayerInputWithTimer never returns null, so only the empty case is modelled.
- Strings: .NET strings are sequences of UTF-16 code units, while a Dafny `char` is a Unicode scalar value. Lengths and letter checks in the model are therefore per scalar value, not per UTF-16 unit, and differ from the source for characters above U+FFFF (which .NET counts as two surrogate units, each failing `char.IsLetter`). `isLetter` stands for `char.IsLetter` restricted to the Basic Multilingual Plane, false above U+FFFF; under that reading every accepted base word holds only BMP characters and the source's rejection of such words is matched.
