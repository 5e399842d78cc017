/** The chat screen's view model: the conversation, the search history, and
    how one user turn becomes messages. The catalogue service is a
    parameter; persistence of the history is not modelled. */
module Chat {
  import opened Wrappers
  import opened Sequences
  import opened Text
  import opened Models
  import opened Intent

  /** The history keeps this many searches, newest first. */
  const MaxRecentSearches: nat := 20

  function Min(a: int, b: int): int
  {
    if a <= b then a else b
  }

  // -------------------------------------------------------------- history

  /** The history after recording `query`: inserted at the front, then cut
      to its first twenty entries. */
  function PushRecent(history: seq<RecentSearch>, query: string): seq<RecentSearch>
  {
    var s := [RecentSearch(query)] + history;
    if |s| > MaxRecentSearches then s[..MaxRecentSearches] else s
  }

  /** The newest search comes first, the count grows by one up to twenty,
      and the rest is the old history's oldest-dropped prefix, in order. */
  lemma PushRecentShape(history: seq<RecentSearch>, query: string)
    ensures |PushRecent(history, query)| == Min(|history| + 1, MaxRecentSearches)
    ensures PushRecent(history, query)[0] == RecentSearch(query)
    ensures PushRecent(history, query)[1..] == history[..|PushRecent(history, query)| - 1]
  {
  }

  // -------------------------------------------------------------- replies

  // The fixed wording around the values a reply shows.
  const NoAnimeOpen := "Sorry, I couldn't find any anime matching '"
  const NoCharacterOpen := "Sorry, I couldn't find any characters matching '"
  const TryAnotherClose := "'. Try a different search term!"
  const OneAnimeOpen := "Here's what I found for '"
  const OneAnimeClose := "':"
  const ManyAnimeOpen := "I found "
  const ManyAnimeMiddle := " anime matching '"
  const ManyAnimeClose := "'. Here's the top result:"
  const MoreAnimeOpen := "And "
  const MoreAnimeClose := " more results! Try being more specific if you're looking for something particular."
  const CharacterOpen := "I found the character '"
  const CharacterClose := "'!"
  const NoDescription := "No description available."
  const FavoritesOpen := "\n\nThis character has "
  const FavoritesClose := " favorites on MyAnimeList."
  const ErrorOpen := "Sorry, I encountered an error: "
  const ErrorClose := ". Please try again."

  function NoAnimeText(query: string): string
  {
    NoAnimeOpen + query + TryAnotherClose
  }

  function OneAnimeText(query: string): string
  {
    OneAnimeOpen + query + OneAnimeClose
  }

  function ManyAnimeText(count: int, query: string): string
  {
    ManyAnimeOpen + IntToString(count) + ManyAnimeMiddle + query + ManyAnimeClose
  }

  function MoreAnimeText(extra: int): string
  {
    MoreAnimeOpen + IntToString(extra) + MoreAnimeClose
  }

  /** An assistant message with no text that shows one anime card. */
  function Card(anime: AnimeData): ChatMessage
  {
    ChatMessage("", false, Some(anime))
  }

  function Cards(animes: seq<AnimeData>): seq<ChatMessage>
  {
    seq(|animes|, i requires 0 <= i < |animes| => Card(animes[i]))
  }

  lemma CardsSnoc(animes: seq<AnimeData>, anime: AnimeData)
    ensures Cards(animes + [anime]) == Cards(animes) + [Card(anime)]
  {
    assert |Cards(animes + [anime])| == |Cards(animes) + [Card(anime)]|;
    forall i | 0 <= i < |animes| + 1
      ensures Cards(animes + [anime])[i] == (Cards(animes) + [Card(anime)])[i]
    {
    }
  }

  /** The messages `handleAnimeResults` appends for a result list. */
  function AnimeResultMessages(results: seq<AnimeData>, query: string): seq<ChatMessage>
  {
    var n := |results|;
    if n == 0 then [ChatMessage(NoAnimeText(query), false, None)]
    else if n == 1 then [ChatMessage(OneAnimeText(query), false, Some(results[0]))]
    else
      [ChatMessage(ManyAnimeText(n, query), false, Some(results[0]))]
      + Cards(results[1..Min(n, 3)])
      + (if n > 3 then [ChatMessage(MoreAnimeText(n - 3), false, None)] else [])
  }

  /** Two or more results: the header, the cards, then the note if any. */
  lemma AnimeResultMessagesMany(results: seq<AnimeData>, query: string)
    requires |results| >= 2
    ensures AnimeResultMessages(results, query) ==
      [ChatMessage(ManyAnimeText(|results|, query), false, Some(results[0]))]
      + Cards(results[1..Min(|results|, 3)])
      + (if |results| > 3 then [ChatMessage(MoreAnimeText(|results| - 3), false, None)] else [])
  {
  }

  /** One message for no result or one result; otherwise a header, up to two
      more cards and, past three results, a trailing "more results" note.
      Message `k` carries result `k` exactly when `k` is below both the
      result count and three; every message comes from the assistant. */
  lemma AnimeResultMessagesShape(results: seq<AnimeData>, query: string)
    ensures |AnimeResultMessages(results, query)| ==
      if |results| <= 1 then 1
      else Min(|results|, 3) + (if |results| > 3 then 1 else 0)
    ensures forall k :: 0 <= k < |AnimeResultMessages(results, query)| ==>
      && !AnimeResultMessages(results, query)[k].isUser
      && (AnimeResultMessages(results, query)[k].animeData.Some? <==> k < Min(|results|, 3))
      && (k < Min(|results|, 3) ==> AnimeResultMessages(results, query)[k].animeData == Some(results[k]))
  {
    var n := |results|;
    var m := AnimeResultMessages(results, query);
    if n >= 2 {
      var top := Min(n, 3);
      var cards := Cards(results[1..top]);
      var tail := if n > 3 then [ChatMessage(MoreAnimeText(n - 3), false, None)] else [];
      assert m == [ChatMessage(ManyAnimeText(n, query), false, Some(results[0]))] + cards + tail;
      forall k | 0 <= k < |m|
        ensures !m[k].isUser
        ensures m[k].animeData.Some? <==> k < top
        ensures k < top ==> m[k].animeData == Some(results[k])
      {
        if 0 < k < top {
          assert m[k] == cards[k - 1] == Card(results[k]);
        } else if k >= top {
          assert m[k] == tail[k - top];
        }
      }
    }
  }

  function NoCharacterText(query: string): string
  {
    NoCharacterOpen + query + TryAnotherClose
  }

  /** The description of the first character found; absent fields read as
      "No description available." and 0. */
  function CharacterText(c: CharacterData): string
  {
    var about := if c.about.Some? then c.about.value else NoDescription;
    var favorites := if c.favorites.Some? then c.favorites.value else 0;
    CharacterOpen + c.name + CharacterClose + "\n\n" + about
      + FavoritesOpen + IntToString(favorites) + FavoritesClose
  }

  /** The message `handleCharacterResults` appends for a result list. */
  function CharacterResultMessages(results: seq<CharacterData>, query: string): seq<ChatMessage>
  {
    if results == [] then [ChatMessage(NoCharacterText(query), false, None)]
    else [ChatMessage(CharacterText(results[0]), false, None)]
  }

  /** Exactly one assistant message without a card, describing the first
      character when there is one. */
  lemma CharacterResultMessagesShape(results: seq<CharacterData>, query: string)
    ensures |CharacterResultMessages(results, query)| == 1
    ensures !CharacterResultMessages(results, query)[0].isUser
    ensures CharacterResultMessages(results, query)[0].animeData == None
    ensures results != [] ==>
      var prefix := CharacterOpen + results[0].name + CharacterClose;
      CharacterResultMessages(results, query)[0].text[..|prefix|] == prefix
  {
  }

  function ErrorMessage(description: string): ChatMessage
  {
    ChatMessage(ErrorOpen + description + ErrorClose, false, None)
  }

  const RandomFoundText := "Here's a random anime for you!"
  const RandomMissingText := "Sorry, I couldn't get a random anime right now. Please try again."

  /** What the catalogue service answers for each request; a thrown error
      is an `Err` carrying its description. */
  datatype Catalog = Catalog(
    searchAnime: string -> Result<seq<AnimeData>, string>,
    searchCharacters: string -> Result<seq<CharacterData>, string>,
    searchAnimeByGenre: string -> Result<seq<AnimeData>, string>,
    topAnime: Result<seq<AnimeData>, string>,
    randomAnime: Result<Option<AnimeData>, string>)

  function AnimeReply(response: Result<seq<AnimeData>, string>, query: string): seq<ChatMessage>
  {
    match response
    case Ok(results) => AnimeResultMessages(results, query)
    case Err(description) => [ErrorMessage(description)]
  }

  /** The assistant's messages for one classified turn: which service call
      each intent makes, and with which label its results are shown. */
  function ReplyMessages(intent: SearchIntent, catalog: Catalog): seq<ChatMessage>
  {
    match intent
    case AnimeSearch(query) => AnimeReply(catalog.searchAnime(query), query)
    case CharacterSearch(query) =>
      (match catalog.searchCharacters(query)
       case Ok(results) => CharacterResultMessages(results, query)
       case Err(description) => [ErrorMessage(description)])
    case GenreSearch(genre) => AnimeReply(catalog.searchAnimeByGenre(genre), "anime in " + genre + " genre")
    case TopAnime => AnimeReply(catalog.topAnime, "top anime")
    case RandomAnime =>
      (match catalog.randomAnime
       case Ok(Some(anime)) => [ChatMessage(RandomFoundText, false, Some(anime))]
       case Ok(None) => [ChatMessage(RandomMissingText, false, None)]
       case Err(description) => [ErrorMessage(description)])
    case General(query) => AnimeReply(catalog.searchAnime(query), query)
  }

  /** A reply to an anime-list request is one to four assistant messages. */
  lemma AnimeReplyBounds(response: Result<seq<AnimeData>, string>, query: string)
    ensures 1 <= |AnimeReply(response, query)| <= 4
    ensures forall k :: 0 <= k < |AnimeReply(response, query)| ==> !AnimeReply(response, query)[k].isUser
  {
    if response.Ok? {
      AnimeResultMessagesShape(response.value, query);
    }
  }

  /** Every turn is answered by one to four assistant messages. */
  lemma ReplyMessagesBounds(intent: SearchIntent, catalog: Catalog)
    ensures 1 <= |ReplyMessages(intent, catalog)| <= 4
    ensures forall k :: 0 <= k < |ReplyMessages(intent, catalog)| ==> !ReplyMessages(intent, catalog)[k].isUser
  {
    match intent
    case AnimeSearch(query) => AnimeReplyBounds(catalog.searchAnime(query), query);
    case CharacterSearch(query) =>
      if catalog.searchCharacters(query).Ok? { CharacterResultMessagesShape(catalog.searchCharacters(query).value, query); }
    case GenreSearch(genre) => AnimeReplyBounds(catalog.searchAnimeByGenre(genre), "anime in " + genre + " genre");
    case TopAnime => AnimeReplyBounds(catalog.topAnime, "top anime");
    case RandomAnime =>
    case General(query) => AnimeReplyBounds(catalog.searchAnime(query), query);
  }

  const WelcomeText :=
    "Hello! I'm your anime assistant. Ask me about any anime, character, or get recommendations!\n\n"
    + "Try saying:\n\U{2022} \"Tell me about Naruto\"\n\U{2022} \"Find anime with Luffy\"\n"
    + "\U{2022} \"Show me action anime\"\n\U{2022} \"Random anime please\""

  // ------------------------------------------------------------ the class

  class ChatViewModel {
    var messages: seq<ChatMessage>
    var recentSearches: seq<RecentSearch>

    /** Starts with no messages and with the stored history, when one was
        stored and could be read back. */
    constructor(stored: Option<seq<RecentSearch>>)
      ensures messages == []
      ensures recentSearches == if stored.Some? then stored.value else []
    {
      messages := [];
      recentSearches := if stored.Some? then stored.value else [];
    }

    method AddWelcomeMessage()
      modifies this
      ensures messages == old(messages) + [ChatMessage(WelcomeText, false, None)]
      ensures recentSearches == old(recentSearches)
    {
      messages := messages + [ChatMessage(WelcomeText, false, None)];
    }

    /** One turn: the user's message, the history entry, then the reply for
        the intent the text is classified as. */
    method ProcessUserMessage(text: string, catalog: Catalog)
      modifies this
      ensures messages == old(messages) + [ChatMessage(text, true, None)] + ReplyMessages(Classify(text), catalog)
      ensures recentSearches == PushRecent(old(recentSearches), text)
    {
      messages := messages + [ChatMessage(text, true, None)];
      AddToRecentSearches(text);
      var intent := ParseIntent(text);
      Reply(intent, catalog);
    }

    /** Asks the catalogue what the intent calls for and appends the reply. */
    method Reply(intent: SearchIntent, catalog: Catalog)
      modifies this
      ensures messages == old(messages) + ReplyMessages(intent, catalog)
      ensures recentSearches == old(recentSearches)
    {
      match intent {
        case AnimeSearch(query) => ReplyWithAnime(catalog.searchAnime(query), query);
        case CharacterSearch(query) =>
          match catalog.searchCharacters(query) {
            case Ok(results) => HandleCharacterResults(results, query);
            case Err(description) => messages := messages + [ErrorMessage(description)];
          }
        case GenreSearch(genre) => ReplyWithAnime(catalog.searchAnimeByGenre(genre), "anime in " + genre + " genre");
        case TopAnime => ReplyWithAnime(catalog.topAnime, "top anime");
        case RandomAnime =>
          match catalog.randomAnime {
            case Ok(result) =>
              if result.Some? {
                messages := messages + [ChatMessage(RandomFoundText, false, Some(result.value))];
              } else {
                messages := messages + [ChatMessage(RandomMissingText, false, None)];
              }
            case Err(description) => messages := messages + [ErrorMessage(description)];
          }
        case General(query) => ReplyWithAnime(catalog.searchAnime(query), query);
      }
    }

    /** Shows an anime list under the given label, or the error the
        catalogue raised instead. */
    method ReplyWithAnime(response: Result<seq<AnimeData>, string>, query: string)
      modifies this
      ensures messages == old(messages) + AnimeReply(response, query)
      ensures recentSearches == old(recentSearches)
    {
      match response {
        case Ok(results) => HandleAnimeResults(results, query);
        case Err(description) => messages := messages + [ErrorMessage(description)];
      }
    }

    /** Appends the messages for an anime result list, cards for the second
        and third results added one by one. */
    method HandleAnimeResults(results: seq<AnimeData>, query: string)
      modifies this
      ensures messages == old(messages) + AnimeResultMessages(results, query)
      ensures recentSearches == old(recentSearches)
    {
      if |results| == 0 {
        messages := messages + [ChatMessage(NoAnimeText(query), false, None)];
      } else if |results| == 1 {
        messages := messages + [ChatMessage(OneAnimeText(query), false, Some(results[0]))];
      } else {
        var header := ChatMessage(ManyAnimeText(|results|, query), false, Some(results[0]));
        ghost var before := messages;
        messages := messages + [header];
        var top := Min(|results|, 3);
        for i := 1 to top
          invariant messages == before + [header] + Cards(results[1..i])
          invariant recentSearches == old(recentSearches)
        {
          ghost var cards := Cards(results[1..i]);
          assert results[1..i + 1] == results[1..i] + [results[i]];
          CardsSnoc(results[1..i], results[i]);
          AppendAssoc(before + [header], cards, [Card(results[i])]);
          messages := messages + [Card(results[i])];
        }
        var more := if |results| > 3 then [ChatMessage(MoreAnimeText(|results| - 3), false, None)] else [];
        AppendAssoc3(before, [header], Cards(results[1..top]), more);
        messages := messages + more;
        AnimeResultMessagesMany(results, query);
      }
    }

    method HandleCharacterResults(results: seq<CharacterData>, query: string)
      modifies this
      ensures messages == old(messages) + CharacterResultMessages(results, query)
      ensures recentSearches == old(recentSearches)
    {
      if results == [] {
        messages := messages + [ChatMessage(NoCharacterText(query), false, None)];
      } else {
        messages := messages + [ChatMessage(CharacterText(results[0]), false, None)];
      }
    }

    /** Records a search: insert at the front, keep the first twenty. */
    method AddToRecentSearches(query: string)
      modifies this
      ensures recentSearches == PushRecent(old(recentSearches), query)
      ensures recentSearches[0] == RecentSearch(query)
      ensures |recentSearches| == Min(|old(recentSearches)| + 1, MaxRecentSearches)
      ensures messages == old(messages)
    {
      recentSearches := [RecentSearch(query)] + recentSearches;
      if |recentSearches| > MaxRecentSearches {
        recentSearches := recentSearches[..MaxRecentSearches];
      }
    }

    method ClearRecentSearches()
      modifies this
      ensures recentSearches == []
      ensures messages == old(messages)
    {
      recentSearches := [];
    }

    /** Runs a past search again as a new turn. */
    method RepeatSearch(query: string, catalog: Catalog)
      modifies this
      ensures messages == old(messages) + [ChatMessage(query, true, None)] + ReplyMessages(Classify(query), catalog)
      ensures recentSearches == PushRecent(old(recentSearches), query)
    {
      ProcessUserMessage(query, catalog);
    }
  }
}
