# OtakuVerse chat core in Dafny

OtakuVerse is an iOS chat front-end over the Jikan anime catalogue. The user
types free text; the chat view model classifies it into a search intent,
asks the catalogue, and turns the answer into assistant messages. It also
keeps a bounded history of recent searches and a list of favourite anime.

This project models that logic from `OtakuVerse/ViewModels.swift` and proves
properties of it:

- **Intent classifier** (`intent.dfy`, module `Intent`). `Classify` is the
  cascade of `parseIntent` as a pure function. The order is random, then
  top, then character, then the genre list, then anime or general.
  `ParseIntent` is the source's own shape, an if-cascade plus a `for` loop
  over the genres that returns early. It is proved equal to `Classify`.
  `ExtractQuery` is `extractQueryFromText` as a left fold of case-insensitive
  phrase deletion over the phrase list, followed by trimming.
  `ExtractQueryFromText` is the same thing as a loop.
- **String primitives** (`text.dfy`, module `Text`). These model the
  Foundation operations the classifier uses: ASCII lower-casing, substring
  test, one-pass case-insensitive deletion, whitespace trimming, and decimal
  rendering of integers for message texts.
- **Chat view model** (`chat.dfy`, module `Chat`). Class `ChatViewModel`
  has `messages` and `recentSearches` as `seq` fields. Its methods append
  the messages of a turn, record and clear the history, and expand a result
  list into one to four messages.
- **Favourites** (`favorites.dfy`, module `Favorites`). Class
  `FavoritesManager` has the `favorites` list, with add, remove, toggle and
  membership. Records are identified by `malId` alone, as the custom `==`
  of `AnimeData` says.
- `models.dfy` holds the records. `sequences.dfy` defines order-preserving
  deletion ("subsequence"), used to state that clean-up never adds
  anything. `examples.dfy` classifies sample inputs end to end.

The catalogue service is a parameter (`Chat.Catalog`): one entry per
endpoint, returning results or an error description. Storage reads become
constructor parameters. Storage writes are not modelled.

Notes on phrase deletion and classification:

- Phrases are deleted in list order, each from what the previous deletions
  left. A deletion can bring together a copy of a phrase that was already
  processed, and that copy stays. So the order of deletion matters.
- Deletion is a single left-to-right pass over non-overlapping
  occurrences. Text that a deletion joins together is not searched again.
- "Tell me about Naruto" contains no character trigger, genre or anime
  word. It is a general search for "Naruto" (`IntentExamples.ClassifyTellMeAbout`).

## Model

| member | source | states |
|---|---|---|
| `Intent.ParseIntent` | OtakuVerse/ViewModels.swift:84-118 | the loop-and-return implementation gives exactly the intent the rule cascade defines, for every text |
| `Intent.ClassifyRandom` | OtakuVerse/ViewModels.swift:88-90 | the result is `RandomAnime` if and only if the lower-cased text contains "random" or "surprise", whatever else it contains |
| `Intent.ClassifyTop` | OtakuVerse/ViewModels.swift:93-95 | the result is `TopAnime` if and only if no random trigger occurs and "top", "best" or "highest rated" does; this is decided before the character and genre rules |
| `Intent.ClassifyCharacter` | OtakuVerse/ViewModels.swift:98-101 | the result is a character search if and only if no random or top trigger occurs and "character", "find anime with" or "who is" does; its query is the text with the four character phrases deleted in order and then trimmed |
| `Intent.ClassifyGenre` | OtakuVerse/ViewModels.swift:104-109 | the result is `GenreSearch(g)` if and only if no earlier rule fires and `g` is the earliest-listed genre that occurs in the lower-cased text; list order decides, not position in the text |
| `Intent.ClassifyFallback` | OtakuVerse/ViewModels.swift:112-117 | with no earlier rule firing, the result is an anime search if and only if "anime", "series" or "show" occurs, and a general search otherwise; both carry the text with the five filler phrases deleted and then trimmed |
| `Intent.ClassifyGeneral` | OtakuVerse/ViewModels.swift:112-117 | when no trigger, genre or anime word occurs, the text is a general search for itself with the filler phrases deleted and trimmed |
| `Intent.ClassifyEmpty` | OtakuVerse/ViewModels.swift:84-117 | the empty text falls through every rule to `General("")` |
| `Intent.ClassifyFirstGenre` | OtakuVerse/ViewModels.swift:104-109 | when no random, top or character trigger occurs and some listed genre occurs, the text is a search for the earliest-listed genre that occurs, even when an anime word is present too |
| `Intent.FirstContained` | OtakuVerse/ViewModels.swift:104-109 | the index returned is that of the first listed phrase that occurs, or the list length when none occurs |
| `Intent.ContainsAnyIff` | OtakuVerse/ViewModels.swift:88 | a chain of `contains` tests joined by `||` holds if and only if some listed phrase occurs |
| `Intent.ExtractQueryFromText` | OtakuVerse/ViewModels.swift:120-126 | the loop returns the trimmed left fold of phrase deletions; the result keeps only characters of the text, in order, and has no whitespace at either end |
| `Intent.ExtractQueryShrinks` | OtakuVerse/ViewModels.swift:120-126 | the extracted query is an order-preserving deletion from the text, no longer than it, and trimmed at both ends |
| `Intent.ExtractQueryNoPhrase` | OtakuVerse/ViewModels.swift:120-126 | when none of the phrases occurs, ignoring case, extraction only trims the text |
| `Intent.RemovePhrasesSubsequence` | OtakuVerse/ViewModels.swift:121-124 | deleting the phrases one by one never adds or reorders characters |
| `Intent.RemovePhrasesAbsent` | OtakuVerse/ViewModels.swift:121-124 | deleting phrases that do not occur, ignoring case, leaves the text unchanged |
| `Text.ContainsIff` | OtakuVerse/ViewModels.swift:85-88 | the substring test holds exactly when the phrase occurs at some index of the text |
| `Text.LowerIsLower` | OtakuVerse/ViewModels.swift:85 | lower-casing leaves no upper-case letter and is idempotent |
| `Text.RemoveAllSubsequence` | OtakuVerse/ViewModels.swift:123 | case-insensitive deletion of a phrase never adds or reorders characters |
| `Text.RemoveAllAbsent` | OtakuVerse/ViewModels.swift:123 | when the phrase does not occur, ignoring case, deletion returns the text unchanged |
| `Text.RemoveAllPresent` | OtakuVerse/ViewModels.swift:123 | when a non-empty phrase occurs, ignoring case, at least one copy of it is deleted |
| `Text.RemoveAllAt` | OtakuVerse/ViewModels.swift:123 | when the leftmost occurrence of a non-empty phrase, ignoring case, starts at `i`, the result is the text before `i` unchanged followed by the deletion applied to the text after that occurrence; so every non-overlapping occurrence found left to right is deleted, not only the first |
| `Text.RemoveAllUnchangedIff` | OtakuVerse/ViewModels.swift:123 | for a non-empty phrase, deletion leaves the text as it was if and only if the phrase does not occur, ignoring case |
| `Text.TrimStart` | OtakuVerse/ViewModels.swift:125 | the result is the longest suffix of the text that does not start with whitespace, and everything cut is whitespace |
| `Text.TrimEnd` | OtakuVerse/ViewModels.swift:125 | the result is the longest prefix of the text that does not end with whitespace, and everything cut is whitespace |
| `Text.TrimSlice` | OtakuVerse/ViewModels.swift:125 | trimming returns a contiguous slice of the text; everything before and after it is whitespace, and neither of its ends is |
| `Text.TrimSubsequence` | OtakuVerse/ViewModels.swift:125 | trimming never adds characters |
| `Text.TrimFixedPoint` | OtakuVerse/ViewModels.swift:125 | trimming leaves a text unchanged if and only if neither end is whitespace, so trimming twice is the same as trimming once |
| `Text.NatToString` | OtakuVerse/ViewModels.swift:144 | a count is written as a non-empty run of decimal digits with no leading zero, starting with "0" only for zero |
| `Text.NatToStringRoundTrip` | OtakuVerse/ViewModels.swift:144 | the digits written for a count read back as that count |
| `Text.IntToString` | OtakuVerse/ViewModels.swift:180 | an integer is written as a non-empty string that starts with a minus sign if and only if the integer is negative; the characters after the optional sign are decimal digits with no leading zero that read back as the integer's magnitude |
| `Chat.PushRecentShape` | OtakuVerse/ViewModels.swift:188-198 | after recording a query, it is the first entry; the count is min(old count + 1, 20); the remaining entries are the old list's first (count - 1) entries, in order |
| `Chat.ChatViewModel.AddToRecentSearches` | OtakuVerse/ViewModels.swift:188-198 | the history becomes the query inserted at the front and cut to twenty; the messages are unchanged |
| `Chat.ChatViewModel.ClearRecentSearches` | OtakuVerse/ViewModels.swift:213-216 | the history becomes empty and the messages are unchanged |
| `Chat.AnimeResultMessagesShape` | OtakuVerse/ViewModels.swift:128-164 | for n results: one message when n is 0 or 1; otherwise min(n, 3) messages plus one trailing "more results" message when n > 3. Message k carries result k exactly when k < min(n, 3), and all messages are the assistant's |
| `Chat.ChatViewModel.HandleAnimeResults` | OtakuVerse/ViewModels.swift:128-164 | the messages grow only by appending the result messages; earlier messages and the history are unchanged |
| `Chat.CharacterResultMessagesShape` | OtakuVerse/ViewModels.swift:166-186 | a character search appends exactly one assistant message without a card; when a character was found, its text opens with that character's name |
| `Chat.ChatViewModel.HandleCharacterResults` | OtakuVerse/ViewModels.swift:166-186 | the messages grow only by appending that message; the history is unchanged |
| `Chat.ReplyMessagesBounds` | OtakuVerse/ViewModels.swift:41-81 | every classified turn is answered by one to four assistant messages, including the error and no-random-result paths |
| `Chat.ChatViewModel.ProcessUserMessage` | OtakuVerse/ViewModels.swift:32-82 | a turn appends the user's message and then the reply for the classified intent. It dispatches to the endpoint for that intent, with the label the source uses. It records the text in the history |
| `Chat.ChatViewModel.Reply` | OtakuVerse/ViewModels.swift:44-81 | the messages grow by exactly the reply for the intent: the endpoint the intent selects, the label its results are shown under, and the error or missing-result message; the history is unchanged |
| `Chat.ChatViewModel.ReplyWithAnime` | OtakuVerse/ViewModels.swift:46-80 | an anime list is shown as `handleAnimeResults` shows it, and a thrown error as one error message; the history is unchanged |
| `Chat.ChatViewModel.RepeatSearch` | OtakuVerse/ViewModels.swift:218-222 | repeating a search is a new turn with the same text |
| `Chat.ChatViewModel.AddWelcomeMessage` | OtakuVerse/ViewModels.swift:24-30 | appends the welcome text as one assistant message and leaves the history unchanged |
| `Chat.ChatViewModel.constructor` | OtakuVerse/ViewModels.swift:200-205 | starts with no messages and with the stored history when one could be read, otherwise with an empty one |
| `Favorites.HasId` | OtakuVerse/ViewModels.swift:256-258 | membership holds exactly when some entry has the given `malId` |
| `Favorites.FavoritesManager.IsFavorite` | OtakuVerse/ViewModels.swift:256-258 | an anime is a favourite exactly when some entry is the same anime by `malId` (OtakuVerse/Models.swift:79-81) |
| `Favorites.WithoutId` | OtakuVerse/ViewModels.swift:251-254 | removal deletes every entry with the id and keeps every other entry, in order and with its multiplicity; it changes nothing when the id is absent |
| `Favorites.WithFavoriteSpec` | OtakuVerse/ViewModels.swift:244-249 | adding makes the anime a favourite. When its id is present the list is left exactly as it was, keeping the stored record; otherwise the anime is appended after the old entries. It changes no other id's membership and never creates two entries with the same id |
| `Favorites.WithoutIdKeepsUnique` | OtakuVerse/ViewModels.swift:251-254 | removal keeps ids unique |
| `Favorites.ToggledFlips` | OtakuVerse/ViewModels.swift:236-242 | toggling flips whether the anime is a favourite and leaves every other id's membership as it was |
| `Favorites.ToggledTwiceAbsent` | OtakuVerse/ViewModels.swift:236-242 | toggling an anime that was not a favourite twice gives back the original list |
| `Favorites.FavoritesManager.ToggleFavorite` | OtakuVerse/ViewModels.swift:236-242 | the list becomes the toggled list, and `IsFavorite` is negated |
| `Favorites.FavoritesManager.AddFavorite` | OtakuVerse/ViewModels.swift:244-249 | the list becomes the added list; the anime is a favourite afterwards; unique ids stay unique |
| `Favorites.FavoritesManager.RemoveFavorite` | OtakuVerse/ViewModels.swift:251-254 | the list loses every entry with the id; the anime is not a favourite afterwards; unique ids stay unique |
| `Favorites.FavoritesManager.ClearAllFavorites` | OtakuVerse/ViewModels.swift:260-263 | the list becomes empty |
| `Favorites.FavoritesManager.constructor` | OtakuVerse/ViewModels.swift:265-270 | starts from the stored list when one could be read, otherwise from an empty one |
| `IntentExamples.ClassifyRandomPlease` | OtakuVerse/ViewModels.swift:26 | "Random anime please" gives `RandomAnime` |
| `IntentExamples.ClassifyShowMeTop` | OtakuVerse/ViewModels.swift:93-95 | "show me top anime" gives `TopAnime`, although it also mentions anime |
| `IntentExamples.ClassifyShowMeAction` | OtakuVerse/ViewModels.swift:26 | "Show me action anime" gives `GenreSearch("action")`: the genre rule is decided before the anime word |
| `IntentExamples.ClassifyDramatic` | OtakuVerse/ViewModels.swift:104-109 | matching is by substring: "dramatic" gives `GenreSearch("drama")` |
| `IntentExamples.ClassifyFindAnimeWith` | OtakuVerse/ViewModels.swift:26 | "Find anime with Luffy" gives `CharacterSearch("Luffy")` |
| `IntentExamples.ClassifyTellMeAbout` | OtakuVerse/ViewModels.swift:26 | "Tell me about Naruto" gives `General("Naruto")`: it has no character trigger, genre or anime word |

The functions that define the model, and which the rows above state
properties of:

- `Intent.Classify` (OtakuVerse/ViewModels.swift:84-118): the rule cascade of `parseIntent`.
- `Intent.RemovePhrases` and `Intent.ExtractQuery` (OtakuVerse/ViewModels.swift:120-126): the left fold of phrase deletions, then trimming.
- `Text.Lower` (OtakuVerse/ViewModels.swift:85), `Text.Contains` (OtakuVerse/ViewModels.swift:88), `Text.RemoveAllCI` (OtakuVerse/ViewModels.swift:123) and `Text.Trim` (OtakuVerse/ViewModels.swift:125): the string operations.
- `Chat.PushRecent` (OtakuVerse/ViewModels.swift:188-198): the history after recording a search.
- `Chat.AnimeResultMessages` (OtakuVerse/ViewModels.swift:128-164), `Chat.CharacterResultMessages` (OtakuVerse/ViewModels.swift:166-186) and `Chat.ReplyMessages` (OtakuVerse/ViewModels.swift:44-81): the messages a reply appends.
- `Favorites.WithFavorite` (OtakuVerse/ViewModels.swift:244-249), `Favorites.WithoutId` (OtakuVerse/ViewModels.swift:251-254) and `Favorites.Toggled` (OtakuVerse/ViewModels.swift:236-242): the favourites list after each change.

## Left out

- SwiftUI views, navigation, the share sheet and opening URLs (`AdditionalViews.swift`, `FavoritesView.swift`, `AnimeCardView.swift`, `ChatView.swift`, `ContentView.swift`, `OtakuVerseApp.swift`). They are layout with no logic to state.
- The Jikan HTTP client and JSON decoding (`AnimeAPIService.swift`). It is network I/O. Its answers are the `Chat.Catalog` parameter, and a thrown error is an `Err` with its description.
- Storage in `UserDefaults`. Saves are not modelled. Loads are the optional constructor parameters. `ThemeManager` is only a stored flag, so it is left out.
- `RandomAnimeViewModel`, and the asynchronous ordering of `processUserMessage` and `repeatSearch`. They sequence network calls. Each turn is modelled as running alone, so interleaving of concurrent turns is not captured.
- Message ids and timestamps (`UUID()`, `Date()`), date formatting and `Double` scores. They are nondeterministic or floating point, and nothing in the core depends on them.
- Codable records beyond the fields used. `AnimeData` is reduced to `malId` and `title`.
- `Text.Lower`: `lowercased()` and `.caseInsensitive` are modelled with ASCII case mapping only. Full Unicode case folding is not modelled.
- `Text.RemoveAllCI`: strings are sequences of Unicode scalars, not grapheme clusters. A phrase that matches only part of a combined character would match here but not in Swift.
- `Favorites.FavoritesManager.AddFavorite`: unique ids are preserved only when they held before. A stored list read back at start-up is not checked for duplicates, and neither is it in the source.
