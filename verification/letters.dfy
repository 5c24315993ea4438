/**
 The letter check of the word game: a candidate word is valid when it can be
 spelt from the letters of the base word, each letter of the base word being
 usable at most once. Program.cs implements this with a list of available
 letters from which one matching occurrence is removed per character of the
 candidate; this module models that loop and proves that it decides
 multiset inclusion.
 */
module Letters {

  /** The meaning of the letter check: no character occurs in `word` more often
      than it occurs in `baseWord`. */
  predicate Fits(word: string, baseWord: string) {
    multiset(word) <= multiset(baseWord)
  }

  /** Number of occurrences of `c` in `s`, counted position by position. */
  function Occurrences(s: string, c: char): nat {
    if s == [] then 0
    else Occurrences(s[1..], c) + (if s[0] == c then 1 else 0)
  }

  lemma {:induction false} OccurrencesIsMultiplicity(s: string, c: char)
    ensures Occurrences(s, c) == multiset(s)[c]
  {
    if s != [] {
      OccurrencesIsMultiplicity(s[1..], c);
      assert s == [s[0]] + s[1..];
      assert multiset(s) == multiset{s[0]} + multiset(s[1..]);
    }
  }

  /** A word fits exactly when, character by character, it uses no character
      more often than the base word holds it. */
  lemma FitsIffCountsBounded(word: string, baseWord: string)
    ensures Fits(word, baseWord)
            <==> forall c :: Occurrences(word, c) <= Occurrences(baseWord, c)
  {
    if Fits(word, baseWord) {
      forall c
        ensures Occurrences(word, c) <= Occurrences(baseWord, c)
      {
        OccurrencesIsMultiplicity(word, c);
        OccurrencesIsMultiplicity(baseWord, c);
      }
    } else {
      var c :| multiset(word)[c] > multiset(baseWord)[c];
      OccurrencesIsMultiplicity(word, c);
      OccurrencesIsMultiplicity(baseWord, c);
    }
  }

  /** Each occurrence consumes one base letter: a word that repeats a character
      more often than the base word does is rejected, even when that character
      does appear in the base word. */
  lemma OverusedLetterRejected(word: string, baseWord: string, c: char)
    requires Occurrences(word, c) > Occurrences(baseWord, c)
    ensures !Fits(word, baseWord)
  {
    FitsIffCountsBounded(word, baseWord);
  }

  /** A word whose every character is bounded by its count in the base word
      fits the base word. */
  lemma CountsBoundedFits(word: string, baseWord: string)
    requires forall c :: Occurrences(word, c) <= Occurrences(baseWord, c)
    ensures Fits(word, baseWord)
  {
    FitsIffCountsBounded(word, baseWord);
  }

  /** Any rearrangement of the base word, the base word itself included,
      passes the letter check. */
  lemma RearrangementFits(word: string, baseWord: string)
    requires multiset(word) == multiset(baseWord)
    ensures Fits(word, baseWord)
  {
  }

  /** The sequence `pool` with its first occurrence of `c` taken out
      (List<char>.RemoveAt at the first matching index). */
  function RemoveFirst(pool: seq<char>, c: char): (r: seq<char>)
    requires c in pool
    ensures multiset(r) == multiset(pool) - multiset{c}
    ensures |r| == |pool| - 1
  {
    assert pool == [pool[0]] + pool[1..];
    if pool[0] == c then pool[1..]
    else [pool[0]] + RemoveFirst(pool[1..], c)
  }

  /** The removal algorithm stated recursively: take the candidate's characters
      in order, each removing one matching letter from the pool, and fail as
      soon as a character finds no letter left. */
  function Consumes(word: string, pool: seq<char>): bool
    decreases |word|
  {
    if word == [] then true
    else if word[0] in pool then Consumes(word[1..], RemoveFirst(pool, word[0]))
    else false
  }

  /** The removal algorithm decides multiset inclusion. */
  lemma {:induction false} ConsumesIffFits(word: string, pool: seq<char>)
    ensures Consumes(word, pool) <==> Fits(word, pool)
    decreases |word|
  {
    if word != [] {
      var c := word[0];
      assert word == [c] + word[1..];
      assert multiset(word) == multiset{c} + multiset(word[1..]);
      if c in pool {
        ConsumesIffFits(word[1..], RemoveFirst(pool, c));
        assert multiset(pool) == multiset(RemoveFirst(pool, c)) + multiset{c};
      } else {
        assert multiset(word)[c] > 0 == multiset(pool)[c];
      }
    }
  }

  /** The imperative letter check of Program.cs: copy the base word into a
      list of available letters, then for each character of `word` remove the
      first matching available letter, failing when there is none. */
  method IsWordValid(baseWord: string, word: string) returns (ok: bool)
    ensures ok <==> Fits(word, baseWord)
    ensures ok == Consumes(word, baseWord)
  {
    var available: seq<char> := [];
    var i := 0;
    while i < |baseWord|
      invariant 0 <= i <= |baseWord|
      invariant available == baseWord[..i]
    {
      available := available + [baseWord[i]];
      i := i + 1;
    }
    assert baseWord[..i] == baseWord;
    ConsumesIffFits(word, baseWord);

    i := 0;
    while i < |word|
      invariant 0 <= i <= |word|
      invariant multiset(word[..i]) + multiset(available) == multiset(baseWord)
    {
      var letter := word[i];
      var letterFound := false;
      var j := 0;
      while j < |available|
        invariant 0 <= j <= |available|
        invariant !letterFound
        invariant forall k :: 0 <= k < j ==> available[k] != letter
      {
        if available[j] == letter {
          assert available == available[..j] + [letter] + available[j + 1..];
          available := available[..j] + available[j + 1..];
          letterFound := true;
          break;
        }
        j := j + 1;
      }
      assert word[..i + 1] == word[..i] + [letter];
      if !letterFound {
        assert letter !in available;
        assert multiset(word[..i + 1])[letter] > multiset(baseWord)[letter];
        assert multiset(word)[letter] >= multiset(word[..i + 1])[letter] by {
          assert word == word[..i + 1] + word[i + 1..];
        }
        return false;
      }
      i := i + 1;
    }
    assert word[..i] == word;
    return true;
  }
}
