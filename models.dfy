/** The records the chat core exchanges, reduced to the fields it uses.
    Identifiers and timestamps (`UUID()`, `Date()`) are not modelled. */
module Models {
  import opened Wrappers

  /** A catalogue entry. Two entries are the same anime when their
      MyAnimeList ids agree, whatever their other fields say. */
  datatype AnimeData = AnimeData(malId: int, title: string)

  /** The app's `==` on anime records: identity by `malId` only. */
  predicate SameAnime(a: AnimeData, b: AnimeData)
  {
    a.malId == b.malId
  }

  /** A character record: name, optional biography, optional favourite count. */
  datatype CharacterData = CharacterData(name: string, about: Option<string>, favorites: Option<int>)

  /** One line of the conversation, from the user or from the assistant,
      optionally carrying an anime card. */
  datatype ChatMessage = ChatMessage(text: string, isUser: bool, animeData: Option<AnimeData>)

  /** An entry of the search history. */
  datatype RecentSearch = RecentSearch(query: string)
}
