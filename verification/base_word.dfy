/**
 Acceptance of the base word (GetBaseWord in Program.cs). A line read from the
 console is accepted when its length lies in [MinWordLength, MaxWordLength]
 and every character is a letter; otherwise the player is asked again. The
 .NET letter classification char.IsLetter is a parameter `isLetter`.
 */
module BaseWord {
  import opened Wrappers

  const MinWordLength: nat := 8
  const MaxWordLength: nat := 30

  predicate LettersOnly(word: string, isLetter: char -> bool) {
    forall i :: 0 <= i < |word| ==> isLetter(word[i])
  }

  /** The acceptance condition a base word must meet. */
  predicate Acceptable(word: string, isLetter: char -> bool) {
    MinWordLength <= |word| <= MaxWordLength && LettersOnly(word, isLetter)
  }

  /** One pass of the retry loop: a missing line becomes "", then the length
      is checked, then the characters are scanned until a non-letter. */
  method CheckBaseWord(line: Option<string>, isLetter: char -> bool)
    returns (word: string, valid: bool)
    ensures word == line.GetOr("")
    ensures valid <==> Acceptable(word, isLetter)
    ensures valid ==> line.Some? && forall c :: c in word ==> isLetter(c)
  {
    word := line.GetOr("");
    if |word| < MinWordLength || |word| > MaxWordLength {
      return word, false;
    }
    var hasOnlyLetters := true;
    var i := 0;
    while i < |word|
      invariant 0 <= i <= |word|
      invariant hasOnlyLetters
      invariant forall k :: 0 <= k < i ==> isLetter(word[k])
    {
      if !isLetter(word[i]) {
        hasOnlyLetters := false;
        break;
      }
      i := i + 1;
    }
    valid := hasOnlyLetters;
  }

  /** The retry loop over the lines the console yields: the base word is the
      first acceptable line. When no line is acceptable the result is None;
      the source then keeps prompting for ever. */
  method GetBaseWord(lines: seq<Option<string>>, isLetter: char -> bool)
    returns (baseWord: Option<string>)
    ensures baseWord.None? <==>
              forall k :: 0 <= k < |lines| ==> !Acceptable(lines[k].GetOr(""), isLetter)
    ensures baseWord.Some? ==>
              exists k :: 0 <= k < |lines| && lines[k].Some? && baseWord.value == lines[k].value
                          && Acceptable(baseWord.value, isLetter)
                          && forall m :: 0 <= m < k ==> !Acceptable(lines[m].GetOr(""), isLetter)
  {
    var n := 0;
    while n < |lines|
      invariant 0 <= n <= |lines|
      invariant forall m :: 0 <= m < n ==> !Acceptable(lines[m].GetOr(""), isLetter)
    {
      var word, validWord := CheckBaseWord(lines[n], isLetter);
      if validWord {
        return Some(word);
      }
      n := n + 1;
    }
    return None;
  }

  /** An accepted base word holds no character that is not a letter. */
  lemma AcceptedExcludesNonLetters(word: string, isLetter: char -> bool, c: char)
    requires Acceptable(word, isLetter)
    requires !isLetter(c)
    ensures c !in word
  {
  }
}
