/** The intent classifier of the chat screen: free text in, one search
    intent out, decided by an ordered cascade of case-insensitive substring
    tests. */
module Intent {
  import opened Sequences
  import opened Text

  datatype SearchIntent =
    | AnimeSearch(query: string)
    | CharacterSearch(query: string)
    | GenreSearch(genre: string)
    | TopAnime
    | RandomAnime
    | General(query: string)

  const RandomTriggers: seq<string> := ["random", "surprise"]
  const TopTriggers: seq<string> := ["top", "best", "highest rated"]
  const CharacterTriggers: seq<string> := ["character", "find anime with", "who is"]
  /** Phrases deleted from the text of a character search, in this order. */
  const CharacterPhrases: seq<string> := ["character", "find anime with", "who is", "tell me about"]
  /** The known genres; when several occur, the earliest listed one wins. */
  const Genres: seq<string> :=
    ["action", "adventure", "comedy", "drama", "fantasy", "horror", "mystery", "romance", "sci-fi", "thriller"]
  /** Phrases deleted from the text of an anime or general search, in this order. */
  const QueryPhrases: seq<string> := ["tell me about", "what is", "find", "show me", "search for"]
  const AnimeTriggers: seq<string> := ["anime", "series", "show"]

  /** Index of the first phrase of `ps` that occurs in `s`, or `|ps|` when
      none does. */
  function FirstContained(s: string, ps: seq<string>): (k: nat)
    ensures k <= |ps|
    ensures forall j :: 0 <= j < k ==> !Contains(s, ps[j])
    ensures k < |ps| ==> Contains(s, ps[k])
  {
    if ps == [] then 0
    else if Contains(s, ps[0]) then 0
    else 1 + FirstContained(s, ps[1..])
  }

  /** Some phrase of `ps` occurs in `s`: a chain of `contains` tests joined by `||`. */
  predicate ContainsAny(s: string, ps: seq<string>)
  {
    FirstContained(s, ps) < |ps|
  }

  lemma ContainsAnyIff(s: string, ps: seq<string>)
    ensures ContainsAny(s, ps) <==> exists k :: 0 <= k < |ps| && Contains(s, ps[k])
  {
  }

  lemma ContainsAnyOfTwo(s: string, a: string, b: string)
    ensures ContainsAny(s, [a, b]) <==> Contains(s, a) || Contains(s, b)
  {
    ContainsAnyIff(s, [a, b]);
    assert [a, b][0] == a && [a, b][1] == b;
  }

  lemma ContainsAnyOfThree(s: string, a: string, b: string, c: string)
    ensures ContainsAny(s, [a, b, c]) <==> Contains(s, a) || Contains(s, b) || Contains(s, c)
  {
    ContainsAnyIff(s, [a, b, c]);
    assert [a, b, c][0] == a && [a, b, c][1] == b && [a, b, c][2] == c;
  }

  // --------------------------------------------------------- extraction

  /** Deletes each phrase in turn, in list order, from the text left by the
      previous deletions: a left fold of `RemoveAllCI`. */
  function RemovePhrases(s: string, phrases: seq<string>): string
    decreases |phrases|
  {
    if phrases == [] then s else RemovePhrases(RemoveAllCI(s, phrases[0]), phrases[1..])
  }

  /** `extractQueryFromText`: delete the phrases, then trim. */
  function ExtractQuery(text: string, phrases: seq<string>): string
  {
    Trim(RemovePhrases(text, phrases))
  }

  lemma {:induction false} RemovePhrasesSubsequence(s: string, phrases: seq<string>)
    ensures IsSubsequence(RemovePhrases(s, phrases), s)
    decreases |phrases|
  {
    if phrases == [] {
      SliceIsSubsequence(s, 0, |s|);
      assert s[0..|s|] == s;
    } else {
      var s' := RemoveAllCI(s, phrases[0]);
      RemoveAllSubsequence(s, phrases[0]);
      RemovePhrasesSubsequence(s', phrases[1..]);
      SubsequenceTransitive(RemovePhrases(s', phrases[1..]), s', s);
    }
  }

  lemma {:induction false} RemovePhrasesAbsent(s: string, phrases: seq<string>)
    requires forall k :: 0 <= k < |phrases| ==> !ContainsCI(s, phrases[k])
    ensures RemovePhrases(s, phrases) == s
    decreases |phrases|
  {
    if phrases != [] {
      RemoveAllAbsent(s, phrases[0]);
      RemovePhrasesAbsent(s, phrases[1..]);
    }
  }

  /** The extracted query keeps only characters of the text, in their
      order, so it is never longer; and it has no whitespace at either end. */
  lemma ExtractQueryShrinks(text: string, phrases: seq<string>)
    ensures IsSubsequence(ExtractQuery(text, phrases), text)
    ensures |ExtractQuery(text, phrases)| <= |text|
    ensures IsTrimmed(ExtractQuery(text, phrases))
  {
    var removed := RemovePhrases(text, phrases);
    RemovePhrasesSubsequence(text, phrases);
    TrimSubsequence(removed);
    SubsequenceTransitive(Trim(removed), removed, text);
    SubsequenceLength(Trim(removed), text);
    TrimSlice(removed);
  }

  /** When none of the phrases occurs (ignoring case), extraction only trims. */
  lemma ExtractQueryNoPhrase(text: string, phrases: seq<string>)
    requires forall k :: 0 <= k < |phrases| ==> !ContainsCI(text, phrases[k])
    ensures ExtractQuery(text, phrases) == Trim(text)
  {
    RemovePhrasesAbsent(text, phrases);
  }

  /** `extractQueryFromText` as the source writes it: rebinding `query` in
      a loop over the phrases. */
  method ExtractQueryFromText(text: string, phrases: seq<string>) returns (query: string)
    ensures query == ExtractQuery(text, phrases)
    ensures IsSubsequence(query, text) && IsTrimmed(query)
  {
    query := text;
    for i := 0 to |phrases|
      invariant RemovePhrases(query, phrases[i..]) == RemovePhrases(text, phrases)
    {
      assert phrases[i..][1..] == phrases[i + 1..];
      query := RemoveAllCI(query, phrases[i]);
    }
    assert phrases[|phrases|..] == [];
    query := Trim(query);
    ExtractQueryShrinks(text, phrases);
  }

  // -------------------------------------------------------- classification

  /** The classifier's decision, rule by rule, on the lower-cased text;
      phrase deletion works on the original text. */
  function Classify(text: string): SearchIntent
  {
    var lower := Lower(text);
    if ContainsAny(lower, RandomTriggers) then RandomAnime
    else if ContainsAny(lower, TopTriggers) then TopAnime
    else if ContainsAny(lower, CharacterTriggers) then CharacterSearch(ExtractQuery(text, CharacterPhrases))
    else
      var g := FirstContained(lower, Genres);
      if g < |Genres| then GenreSearch(Genres[g])
      else
        var query := ExtractQuery(text, QueryPhrases);
        if ContainsAny(lower, AnimeTriggers) then AnimeSearch(query) else General(query)
  }

  /** `parseIntent` as the source writes it: the if-cascade, then a `for`
      loop over the genre list that returns at the first genre found. */
  method ParseIntent(text: string) returns (intent: SearchIntent)
    ensures intent == Classify(text)
  {
    var lowercased := Lower(text);
    ContainsAnyOfTwo(lowercased, "random", "surprise");
    ContainsAnyOfThree(lowercased, "top", "best", "highest rated");
    ContainsAnyOfThree(lowercased, "character", "find anime with", "who is");
    ContainsAnyOfThree(lowercased, "anime", "series", "show");

    if Contains(lowercased, "random") || Contains(lowercased, "surprise") {
      return RandomAnime;
    }
    if Contains(lowercased, "top") || Contains(lowercased, "best") || Contains(lowercased, "highest rated") {
      return TopAnime;
    }
    if Contains(lowercased, "character") || Contains(lowercased, "find anime with") || Contains(lowercased, "who is") {
      var query := ExtractQueryFromText(text, ["character", "find anime with", "who is", "tell me about"]);
      return CharacterSearch(query);
    }

    for i := 0 to |Genres|
      invariant forall j :: 0 <= j < i ==> !Contains(lowercased, Genres[j])
    {
      if Contains(lowercased, Genres[i]) {
        return GenreSearch(Genres[i]);
      }
    }

    var query := ExtractQueryFromText(text, ["tell me about", "what is", "find", "show me", "search for"]);
    if Contains(lowercased, "anime") || Contains(lowercased, "series") || Contains(lowercased, "show") {
      return AnimeSearch(query);
    }
    return General(query);
  }

  // ------------------------------------------------- the rules, one by one

  /** Rule 1: a random or surprise request wins over everything else. */
  lemma ClassifyRandom(text: string)
    ensures Classify(text) == RandomAnime <==> ContainsAny(Lower(text), RandomTriggers)
  {
  }

  /** Rule 2: a top-anime request, decided before the character and genre rules. */
  lemma ClassifyTop(text: string)
    ensures Classify(text) == TopAnime <==>
      !ContainsAny(Lower(text), RandomTriggers) && ContainsAny(Lower(text), TopTriggers)
  {
  }

  /** Rule 3: a character search, whose query is the text with the four
      character phrases deleted and then trimmed. */
  lemma ClassifyCharacter(text: string)
    ensures Classify(text).CharacterSearch? <==>
      && !ContainsAny(Lower(text), RandomTriggers)
      && !ContainsAny(Lower(text), TopTriggers)
      && ContainsAny(Lower(text), CharacterTriggers)
    ensures Classify(text).CharacterSearch? ==> Classify(text).query == ExtractQuery(text, CharacterPhrases)
  {
  }

  /** `g` is the genre at index `k`, it occurs in `lower`, and no genre
      listed before it does. */
  predicate FirstGenreAt(lower: string, g: string, k: int)
  {
    && 0 <= k < |Genres|
    && Genres[k] == g
    && Contains(lower, g)
    && forall j :: 0 <= j < k ==> !Contains(lower, Genres[j])
  }

  /** Rule 4: a genre search for the earliest-listed genre that occurs in the
      text, whatever the genres' positions in the text. */
  lemma ClassifyGenre(text: string, g: string)
    ensures Classify(text) == GenreSearch(g) <==>
      && !ContainsAny(Lower(text), RandomTriggers)
      && !ContainsAny(Lower(text), TopTriggers)
      && !ContainsAny(Lower(text), CharacterTriggers)
      && exists k :: FirstGenreAt(Lower(text), g, k)
  {
    var lower := Lower(text);
    var f := FirstContained(lower, Genres);
    if Classify(text) == GenreSearch(g) {
      assert FirstGenreAt(lower, g, f);
    }
    if exists k :: FirstGenreAt(lower, g, k) {
      var k :| FirstGenreAt(lower, g, k);
      assert f == k;
    }
  }

  /** With no random, top or character trigger, the first listed genre that
      occurs decides the search. */
  lemma ClassifyFirstGenre(text: string)
    requires !ContainsAny(Lower(text), RandomTriggers)
    requires !ContainsAny(Lower(text), TopTriggers)
    requires !ContainsAny(Lower(text), CharacterTriggers)
    requires FirstContained(Lower(text), Genres) < |Genres|
    ensures Classify(text) == GenreSearch(Genres[FirstContained(Lower(text), Genres)])
  {
  }

  /** When no rule fires, the text is a general search for its query. */
  lemma ClassifyGeneral(text: string)
    requires !ContainsAny(Lower(text), RandomTriggers)
    requires !ContainsAny(Lower(text), TopTriggers)
    requires !ContainsAny(Lower(text), CharacterTriggers)
    requires !ContainsAny(Lower(text), Genres)
    requires !ContainsAny(Lower(text), AnimeTriggers)
    ensures Classify(text) == General(ExtractQuery(text, QueryPhrases))
  {
  }

  /** Rules 5 and 6: with no earlier rule firing, the query is the text with
      the five filler phrases deleted and trimmed; it is an anime search when
      the text mentions anime, a series or a show, and a general one
      otherwise. */
  lemma ClassifyFallback(text: string)
    ensures Classify(text).AnimeSearch? <==>
      && !ContainsAny(Lower(text), RandomTriggers)
      && !ContainsAny(Lower(text), TopTriggers)
      && !ContainsAny(Lower(text), CharacterTriggers)
      && !ContainsAny(Lower(text), Genres)
      && ContainsAny(Lower(text), AnimeTriggers)
    ensures Classify(text).General? <==>
      && !ContainsAny(Lower(text), RandomTriggers)
      && !ContainsAny(Lower(text), TopTriggers)
      && !ContainsAny(Lower(text), CharacterTriggers)
      && !ContainsAny(Lower(text), Genres)
      && !ContainsAny(Lower(text), AnimeTriggers)
    ensures Classify(text).AnimeSearch? || Classify(text).General? ==>
      Classify(text).query == ExtractQuery(text, QueryPhrases)
  {
  }

  /** No phrase occurs in a text that lacks one of its characters, `p[j]`. */
  lemma {:induction false} MissingCharNotContained(s: string, p: string, j: nat)
    requires j < |p| && p[j] !in s
    ensures !Contains(s, p)
    decreases |s|
  {
    if |p| <= |s| {
      assert s[..|p|][j] == s[j];
    }
    if s != [] {
      assert s == [s[0]] + s[1..];
      MissingCharNotContained(s[1..], p, j);
    }
  }

  /** No non-empty phrase occurs in the empty text. */
  lemma NothingInEmpty(s: string, ps: seq<string>)
    requires |s| == 0
    requires forall k :: 0 <= k < |ps| ==> ps[k] != []
    ensures !ContainsAny(s, ps)
  {
    forall k | 0 <= k < |ps|
      ensures !Contains(s, ps[k])
    {
    }
  }

  /** No trigger phrase and no genre occurs in the empty text. */
  lemma EmptyHasNoTrigger(lower: string)
    requires |lower| == 0
    ensures !ContainsAny(lower, RandomTriggers)
    ensures !ContainsAny(lower, TopTriggers)
    ensures !ContainsAny(lower, CharacterTriggers)
    ensures !ContainsAny(lower, Genres)
    ensures !ContainsAny(lower, AnimeTriggers)
  {
    NothingInEmpty(lower, RandomTriggers);
    NothingInEmpty(lower, TopTriggers);
    NothingInEmpty(lower, CharacterTriggers);
    NothingInEmpty(lower, Genres);
    NothingInEmpty(lower, AnimeTriggers);
  }

  /** Deleting non-empty phrases from the empty text leaves the empty query. */
  lemma EmptyQuery(text: string, phrases: seq<string>)
    requires |text| == 0
    requires forall k :: 0 <= k < |phrases| ==> phrases[k] != []
    ensures ExtractQuery(text, phrases) == ""
  {
    forall k | 0 <= k < |phrases|
      ensures !ContainsCI(text, phrases[k])
    {
      assert |Lower(phrases[k])| == |phrases[k]|;
    }
    RemovePhrasesAbsent(text, phrases);
    assert text == "";
  }

  /** The empty text falls through every rule to a general search for "". */
  lemma ClassifyEmpty(text: string)
    requires |text| == 0
    ensures Classify(text) == General("")
  {
    EmptyHasNoTrigger(Lower(text));
    EmptyQuery(text, QueryPhrases);
    ClassifyGeneral(text);
  }
}
