/** Worked classifications of sample chat inputs: the four the welcome
    message suggests to the user, and two more. Each fact about a literal
    text is proved in a lemma of its own, to keep the solver's work small. */
module IntentExamples {
  import opened Text
  import opened Intent

  /** "Random anime please": the random rule fires first. */
  lemma ClassifyRandomPlease(text: string)
    requires text == "Random anime please"
    ensures Classify(text) == RandomAnime
  {
    assert Lower(text) == "random anime please";
    assert StartsWith(Lower(text), "random");
    ContainsAnyOfTwo(Lower(text), "random", "surprise");
  }

  lemma ShowMeTopNotRandom(lower: string)
    requires lower == "show me top anime"
    ensures !ContainsAny(lower, RandomTriggers)
  {
    NoneOfTwo(lower, "random", "surprise", 0, 2);
  }

  lemma ShowMeTopIsTop(lower: string)
    requires lower == "show me top anime"
    ensures ContainsAny(lower, TopTriggers)
  {
    assert lower[8..11] == "top";
    assert OccursAt(lower, "top", 8);
    ContainsIff(lower, "top");
    ContainsAnyOfThree(lower, "top", "best", "highest rated");
  }

  /** "show me top anime": the top rule fires before the anime rule. */
  lemma ClassifyShowMeTop(text: string)
    requires text == "show me top anime"
    ensures Classify(text) == TopAnime
  {
    LowerUnchanged(text);
    ShowMeTopNotRandom(Lower(text));
    ShowMeTopIsTop(Lower(text));
  }

  // ------------------------------------------------ "Find anime with Luffy"

  /** None of two phrases occurs when each lacks a character of the text's. */
  lemma NoneOfTwo(s: string, a: string, b: string, i: nat, j: nat)
    requires i < |a| && a[i] !in s
    requires j < |b| && b[j] !in s
    ensures !ContainsAny(s, [a, b])
  {
    MissingCharNotContained(s, a, i);
    MissingCharNotContained(s, b, j);
    ContainsAnyOfTwo(s, a, b);
  }

  /** None of three phrases occurs when each lacks a character of the text's. */
  lemma NoneOfThree(s: string, a: string, b: string, c: string, i: nat, j: nat, k: nat)
    requires i < |a| && a[i] !in s
    requires j < |b| && b[j] !in s
    requires k < |c| && c[k] !in s
    ensures !ContainsAny(s, [a, b, c])
  {
    MissingCharNotContained(s, a, i);
    MissingCharNotContained(s, b, j);
    MissingCharNotContained(s, c, k);
    ContainsAnyOfThree(s, a, b, c);
  }

  lemma LuffyNotRandom(lower: string)
    requires lower == "find anime with luffy"
    ensures !ContainsAny(lower, RandomTriggers)
  {
    NoneOfTwo(lower, "random", "surprise", 0, 0);
  }

  lemma LuffyNotTop(lower: string)
    requires lower == "find anime with luffy"
    ensures !ContainsAny(lower, TopTriggers)
  {
    NoneOfThree(lower, "top", "best", "highest rated", 1, 0, 2);
  }

  lemma LuffyIsCharacter(lower: string)
    requires lower == "find anime with luffy"
    ensures ContainsAny(lower, CharacterTriggers)
  {
    assert StartsWith(lower, "find anime with");
    ContainsAnyOfThree(lower, "character", "find anime with", "who is");
  }

  /** A text made of one occurrence of the phrase and a tail too short to
      hold another loses exactly that occurrence. */
  lemma RemoveLeadingOnly(s: string, p: string)
    requires p != [] && |p| <= |s| < 2 * |p| && Lower(s[..|p|]) == Lower(p)
    ensures RemoveAllCI(s, p) == s[|p|..]
  {
  }

  lemma LuffyLower(text: string)
    requires text == "Find anime with Luffy"
    ensures Lower(text) == "find anime with luffy"
  {
  }

  lemma LuffyNoCharacterWord(text: string)
    requires text == "Find anime with Luffy"
    ensures RemoveAllCI(text, "character") == text
  {
    LuffyLower(text);
    assert Lower("character") == "character";
    MissingCharNotContained(Lower(text), "character", 0);
    RemoveAllAbsent(text, "character");
  }

  lemma LuffyLeadingPhrase(text: string)
    requires text == "Find anime with Luffy"
    ensures RemoveAllCI(text, "find anime with") == " Luffy"
  {
    assert text[..15] == "Find anime with";
    RemoveLeadingOnly(text, "find anime with");
    assert text[15..] == " Luffy";
  }

  /** Deleting "who is" and "tell me about" leaves " Luffy" unchanged. */
  lemma LuffyLastDeletions(rest: string)
    requires rest == " Luffy"
    ensures RemoveAllCI(RemoveAllCI(rest, "who is"), "tell me about") == rest
  {
    assert Lower(rest) == " luffy";
    assert Lower("who is") == "who is";
    MissingCharNotContained(Lower(rest), "who is", 0);
    RemoveAllAbsent(rest, "who is");
  }

  /** The fold, one deletion at a time: `states[i + 1]` is what deleting
      `ps[i]` leaves of `states[i]`. */
  lemma {:induction false} RemovePhrasesSteps(states: seq<string>, ps: seq<string>)
    requires |states| == |ps| + 1
    requires forall i :: 0 <= i < |ps| ==> RemoveAllCI(states[i], ps[i]) == states[i + 1]
    ensures RemovePhrases(states[0], ps) == states[|ps|]
    decreases |ps|
  {
    if ps != [] {
      RemovePhrasesSteps(states[1..], ps[1..]);
    }
  }

  /** No phrase of `ps` occurs in `s`: phrase `k` lacks its character `missing[k]`. */
  lemma NoneOf(s: string, ps: seq<string>, missing: seq<nat>)
    requires |missing| == |ps|
    requires forall k :: 0 <= k < |ps| ==> missing[k] < |ps[k]| && ps[k][missing[k]] !in s
    ensures !ContainsAny(s, ps)
  {
    forall k | 0 <= k < |ps|
      ensures !Contains(s, ps[k])
    {
      MissingCharNotContained(s, ps[k], missing[k]);
    }
  }

  lemma LuffyQuery(text: string)
    requires text == "Find anime with Luffy"
    ensures ExtractQuery(text, CharacterPhrases) == "Luffy"
  {
    var rest := " Luffy";
    LuffyNoCharacterWord(text);
    LuffyLeadingPhrase(text);
    LuffyLastDeletions(rest);
    RemovePhrasesSteps([text, text, rest, rest, rest], CharacterPhrases);
    var word := "Luffy";
    assert !IsWhitespace(word[0]) && !IsWhitespace(word[|word| - 1]);
    TrimLeadingBlank(rest, word);
  }

  /** "Find anime with Luffy" asks for the character "Luffy". */
  lemma ClassifyFindAnimeWith(text: string)
    requires text == "Find anime with Luffy"
    ensures Classify(text) == CharacterSearch("Luffy")
  {
    var lower := Lower(text);
    LuffyLower(text);
    LuffyNotRandom(lower);
    LuffyNotTop(lower);
    LuffyIsCharacter(lower);
    LuffyQuery(text);
  }

  // ------------------------------------------------- "Tell me about Naruto"

  lemma NarutoLower(text: string)
    requires text == "Tell me about Naruto"
    ensures Lower(text) == "tell me about naruto"
  {
  }

  lemma NarutoNotRandom(lower: string)
    requires lower == "tell me about naruto"
    ensures !ContainsAny(lower, RandomTriggers)
  {
    NoneOfTwo(lower, "random", "surprise", 3, 0);
  }

  lemma NarutoNotTop(lower: string)
    requires lower == "tell me about naruto"
    ensures !ContainsAny(lower, TopTriggers)
  {
    NoneOfThree(lower, "top", "best", "highest rated", 2, 2, 0);
  }

  lemma NarutoNotCharacter(lower: string)
    requires lower == "tell me about naruto"
    ensures !ContainsAny(lower, CharacterTriggers)
  {
    NoneOfThree(lower, "character", "find anime with", "who is", 0, 0, 0);
  }

  lemma NarutoNoGenre(lower: string)
    requires lower == "tell me about naruto"
    ensures !ContainsAny(lower, Genres)
  {
    NoneOf(lower, Genres, [1, 1, 0, 0, 0, 0, 1, 5, 0, 1]);
  }

  lemma NarutoNotAnime(lower: string)
    requires lower == "tell me about naruto"
    ensures !ContainsAny(lower, AnimeTriggers)
  {
    NoneOfThree(lower, "anime", "series", "show", 2, 0, 0);
  }

  lemma NarutoLeadingPhrase(text: string)
    requires text == "Tell me about Naruto"
    ensures RemoveAllCI(text, "tell me about") == " Naruto"
  {
    assert text[..13] == "Tell me about";
    RemoveLeadingOnly(text, "tell me about");
    assert text[13..] == " Naruto";
  }

  lemma NarutoRestUntouched(rest: string)
    requires rest == " Naruto"
    ensures forall k :: 1 <= k < |QueryPhrases| ==> RemoveAllCI(rest, QueryPhrases[k]) == rest
  {
    assert Lower(rest) == " naruto";
    NoneOf(Lower(rest), QueryPhrases[1..], [0, 0, 0, 0]);
    forall k | 1 <= k < |QueryPhrases|
      ensures RemoveAllCI(rest, QueryPhrases[k]) == rest
    {
      assert QueryPhrases[1..][k - 1] == QueryPhrases[k];
      assert Lower(QueryPhrases[k]) == QueryPhrases[k];
      RemoveAllAbsent(rest, QueryPhrases[k]);
    }
  }

  lemma NarutoRemoved(text: string)
    requires text == "Tell me about Naruto"
    ensures RemovePhrases(text, QueryPhrases) == " Naruto"
  {
    var rest := " Naruto";
    NarutoLeadingPhrase(text);
    NarutoRestUntouched(rest);
    var states := [text, rest, rest, rest, rest, rest];
    assert forall i :: 1 <= i < |states| ==> states[i] == rest;
    RemovePhrasesSteps(states, QueryPhrases);
  }

  lemma NarutoQuery(text: string)
    requires text == "Tell me about Naruto"
    ensures ExtractQuery(text, QueryPhrases) == "Naruto"
  {
    NarutoRemoved(text);
    var word := "Naruto";
    assert !IsWhitespace(word[0]) && !IsWhitespace(word[|word| - 1]);
    TrimLeadingBlank(" Naruto", word);
  }

  /** "Tell me about Naruto" names no character trigger, genre or anime
      word, so it is a general search for "Naruto". */
  lemma ClassifyTellMeAbout(text: string)
    requires text == "Tell me about Naruto"
    ensures Classify(text) == General("Naruto")
  {
    var lower := Lower(text);
    NarutoLower(text);
    NarutoNotRandom(lower);
    NarutoNotTop(lower);
    NarutoNotCharacter(lower);
    NarutoNoGenre(lower);
    NarutoNotAnime(lower);
    NarutoQuery(text);
    ClassifyGeneral(text);
  }

  // ------------------------------------------------- "Show me action anime"

  /** A phrase of two or more characters whose first two never appear side
      by side in `s` does not occur in `s`. */
  lemma NoPairNotContained(s: string, p: string)
    requires |p| >= 2
    requires forall i :: 0 <= i < |s| - 1 ==> !(s[i] == p[0] && s[i + 1] == p[1])
    ensures !Contains(s, p)
  {
    forall i | 0 <= i && i + |p| <= |s|
      ensures !OccursAt(s, p, i)
    {
      assert s[i..i + |p|][0] == s[i] && s[i..i + |p|][1] == s[i + 1];
    }
    ContainsIff(s, p);
  }

  lemma ShowMeActionLower(text: string)
    requires text == "Show me action anime"
    ensures Lower(text) == "show me action anime"
  {
  }

  lemma ShowMeActionNotRandom(lower: string)
    requires lower == "show me action anime"
    ensures !ContainsAny(lower, RandomTriggers)
  {
    NoneOfTwo(lower, "random", "surprise", 0, 1);
  }

  lemma ShowMeActionNotTop(lower: string)
    requires lower == "show me action anime"
    ensures !ContainsAny(lower, TopTriggers)
  {
    NoneOfThree(lower, "top", "best", "highest rated", 2, 0, 2);
  }

  /** "who is" shares every letter with the text, but "wh" never appears. */
  lemma ShowMeActionNoWhoIs(lower: string)
    requires lower == "show me action anime"
    ensures !Contains(lower, "who is")
  {
    NoPairNotContained(lower, "who is");
  }

  lemma ShowMeActionNotCharacter(lower: string)
    requires lower == "show me action anime"
    ensures !ContainsAny(lower, CharacterTriggers)
  {
    MissingCharNotContained(lower, "character", 3);
    MissingCharNotContained(lower, "find anime with", 0);
    ShowMeActionNoWhoIs(lower);
    ContainsAnyOfThree(lower, "character", "find anime with", "who is");
  }

  lemma ShowMeActionFirstGenre(lower: string)
    requires lower == "show me action anime"
    ensures FirstContained(lower, Genres) == 0
  {
    assert lower[8..14] == "action";
    assert OccursAt(lower, Genres[0], 8);
    ContainsIff(lower, Genres[0]);
  }

  /** "Show me action anime": the genre rule fires before the anime rule. */
  lemma ClassifyShowMeAction(text: string)
    requires text == "Show me action anime"
    ensures Classify(text) == GenreSearch("action")
  {
    var lower := Lower(text);
    ShowMeActionLower(text);
    ShowMeActionNotRandom(lower);
    ShowMeActionNotTop(lower);
    ShowMeActionNotCharacter(lower);
    ShowMeActionFirstGenre(lower);
    ClassifyFirstGenre(text);
  }

  // ------------------------------------------------------------- "dramatic"

  lemma DramaticNotRandom(lower: string)
    requires lower == "dramatic"
    ensures !ContainsAny(lower, RandomTriggers)
  {
    NoneOfTwo(lower, "random", "surprise", 4, 0);
  }

  lemma DramaticNotTop(lower: string)
    requires lower == "dramatic"
    ensures !ContainsAny(lower, TopTriggers)
  {
    NoneOfThree(lower, "top", "best", "highest rated", 1, 0, 0);
  }

  lemma DramaticNotCharacter(lower: string)
    requires lower == "dramatic"
    ensures !ContainsAny(lower, CharacterTriggers)
  {
    NoneOfThree(lower, "character", "find anime with", "who is", 1, 2, 0);
  }

  /** "drama" is the first listed genre that occurs in "dramatic". */
  lemma DramaticFirstGenre(lower: string)
    requires lower == "dramatic"
    ensures FirstContained(lower, Genres) == 3
  {
    MissingCharNotContained(lower, "action", 4);
    MissingCharNotContained(lower, "adventure", 2);
    MissingCharNotContained(lower, "comedy", 1);
    assert lower[..5] == "drama";
    assert Contains(lower, Genres[3]);
  }

  /** Matching is by substring, not by word: "dramatic" is a drama request. */
  lemma ClassifyDramatic(text: string)
    requires text == "dramatic"
    ensures Classify(text) == GenreSearch("drama")
  {
    LowerUnchanged(text);
    var lower := Lower(text);
    DramaticNotRandom(lower);
    DramaticNotTop(lower);
    DramaticNotCharacter(lower);
    DramaticFirstGenre(lower);
    ClassifyFirstGenre(text);
  }
}
