/** The favourites list: a list of anime records with at most one entry per
    MyAnimeList id, since records are compared by `malId` alone. Saving to
    and loading from storage are not modelled. */
module Favorites {
  import opened Wrappers
  import opened Sequences
  import opened Models

  /** Some entry of `s` has the given id (`contains { $0.malId == id }`). */
  predicate HasId(s: seq<AnimeData>, id: int)
    ensures HasId(s, id) <==> exists i :: 0 <= i < |s| && s[i].malId == id
  {
    s != [] && (s[0].malId == id || HasId(s[1..], id))
  }

  /** No two entries share an id. */
  predicate UniqueIds(s: seq<AnimeData>)
  {
    forall i, j :: 0 <= i < j < |s| ==> s[i].malId != s[j].malId
  }

  /** `removeAll { $0.malId == id }`: the entries with another id, in order. */
  function WithoutId(s: seq<AnimeData>, id: int): (r: seq<AnimeData>)
    ensures !HasId(r, id)
    ensures forall a :: a in r <==> a in s && a.malId != id
    ensures IsSubsequence(r, s)
    ensures !HasId(s, id) ==> r == s
    ensures forall a :: multiset(r)[a] == if a.malId == id then 0 else multiset(s)[a]
  {
    if s == [] then []
    else if s[0].malId == id then
      var r := WithoutId(s[1..], id);
      SuffixSubsequence(r, s, 1);
      assert s == [s[0]] + s[1..];
      assert multiset(s) == multiset{s[0]} + multiset(s[1..]);
      r
    else
      var r := WithoutId(s[1..], id);
      ConsSubsequence(s[0], r, s[1..]);
      assert [s[0]] + s[1..] == s;
      assert multiset(s) == multiset{s[0]} + multiset(s[1..]);
      assert multiset([s[0]] + r) == multiset{s[0]} + multiset(r);
      [s[0]] + r
  }

  /** `addFavorite`: append unless an entry with the same id is present. */
  function WithFavorite(s: seq<AnimeData>, anime: AnimeData): seq<AnimeData>
  {
    if HasId(s, anime.malId) then s else s + [anime]
  }

  /** `toggleFavorite`: remove when present, add when absent. */
  function Toggled(s: seq<AnimeData>, anime: AnimeData): seq<AnimeData>
  {
    if HasId(s, anime.malId) then WithoutId(s, anime.malId) else WithFavorite(s, anime)
  }

  /** Adding makes the anime a favourite, changes no other id's membership
      and never creates a second entry for an id. */
  lemma WithFavoriteSpec(s: seq<AnimeData>, anime: AnimeData)
    ensures HasId(WithFavorite(s, anime), anime.malId)
    ensures forall id :: id != anime.malId ==> (HasId(WithFavorite(s, anime), id) <==> HasId(s, id))
    ensures UniqueIds(s) ==> UniqueIds(WithFavorite(s, anime))
    ensures |WithFavorite(s, anime)| == if HasId(s, anime.malId) then |s| else |s| + 1
    ensures HasId(s, anime.malId) ==> WithFavorite(s, anime) == s
    ensures !HasId(s, anime.malId) ==> WithFavorite(s, anime)[..|s|] == s && WithFavorite(s, anime)[|s|] == anime
  {
    var r := WithFavorite(s, anime);
    forall id | id != anime.malId
      ensures HasId(r, id) <==> HasId(s, id)
    {
      if !HasId(s, anime.malId) {
        if HasId(r, id) {
          var i :| 0 <= i < |r| && r[i].malId == id;
          assert i < |s| && s[i].malId == id;
        }
        if HasId(s, id) {
          var i :| 0 <= i < |s| && s[i].malId == id;
          assert r[i].malId == id;
        }
      }
    }
    if !HasId(s, anime.malId) {
      assert r[|s|] == anime;
    }
  }

  /** Removing keeps the other entries and their order, and keeps ids unique. */
  lemma {:induction false} WithoutIdKeepsUnique(s: seq<AnimeData>, id: int)
    ensures UniqueIds(s) ==> UniqueIds(WithoutId(s, id))
    decreases |s|
  {
    if s != [] && UniqueIds(s) {
      var tail := s[1..];
      assert UniqueIds(tail) by {
        forall i, j | 0 <= i < j < |tail|
          ensures tail[i].malId != tail[j].malId
        {
          assert tail[i] == s[i + 1] && tail[j] == s[j + 1];
        }
      }
      WithoutIdKeepsUnique(tail, id);
      if s[0].malId != id {
        forall i | 0 <= i < |tail|
          ensures tail[i].malId != s[0].malId
        {
          assert tail[i] == s[i + 1];
        }
        ConsUnique(s[0], WithoutId(tail, id), tail);
      }
    }
  }

  /** An entry whose id no entry of `tail` has can go in front of any
      selection of `tail`'s entries with unique ids. */
  lemma ConsUnique(x: AnimeData, r: seq<AnimeData>, tail: seq<AnimeData>)
    requires UniqueIds(r)
    requires forall i :: 0 <= i < |tail| ==> tail[i].malId != x.malId
    requires forall a :: a in r ==> a in tail
    ensures UniqueIds([x] + r)
  {
    forall i | 0 <= i < |r|
      ensures r[i].malId != x.malId
    {
      assert r[i] in tail;
    }
    forall i, j | 0 <= i < j < |[x] + r|
      ensures ([x] + r)[i].malId != ([x] + r)[j].malId
    {
      if i > 0 {
        assert ([x] + r)[i] == r[i - 1] && ([x] + r)[j] == r[j - 1];
      } else {
        assert ([x] + r)[j] == r[j - 1];
      }
    }
  }

  /** Removing one id leaves the membership of every other id as it was. */
  lemma WithoutIdOtherIds(s: seq<AnimeData>, id: int, other: int)
    requires other != id
    ensures HasId(WithoutId(s, id), other) <==> HasId(s, other)
  {
    var r := WithoutId(s, id);
    if HasId(s, other) {
      var i :| 0 <= i < |s| && s[i].malId == other;
      assert s[i] in r;
    }
    if HasId(r, other) {
      var i :| 0 <= i < |r| && r[i].malId == other;
      assert r[i] in s;
    }
  }

  /** Toggling flips membership of the anime's id and leaves every other id's
      membership as it was. */
  lemma ToggledFlips(s: seq<AnimeData>, anime: AnimeData)
    ensures HasId(Toggled(s, anime), anime.malId) <==> !HasId(s, anime.malId)
    ensures forall id :: id != anime.malId ==> (HasId(Toggled(s, anime), id) <==> HasId(s, id))
  {
    WithFavoriteSpec(s, anime);
    forall id | id != anime.malId
      ensures HasId(Toggled(s, anime), id) <==> HasId(s, id)
    {
      WithoutIdOtherIds(s, anime.malId, id);
    }
  }

  /** Toggling an anime that is not a favourite twice gives back the list. */
  lemma ToggledTwiceAbsent(s: seq<AnimeData>, anime: AnimeData)
    requires !HasId(s, anime.malId)
    ensures Toggled(Toggled(s, anime), anime) == s
  {
    var t := s + [anime];
    assert t[|s|].malId == anime.malId;
    WithoutIdAppend(s, anime);
  }

  /** Removing an id from a list that has it only in an appended last entry
      drops exactly that entry. */
  lemma {:induction false} WithoutIdAppend(s: seq<AnimeData>, anime: AnimeData)
    requires !HasId(s, anime.malId)
    ensures WithoutId(s + [anime], anime.malId) == s
  {
    if s == [] {
      assert [anime][1..] == [];
    } else {
      assert (s + [anime])[1..] == s[1..] + [anime];
      assert !HasId(s[1..], anime.malId);
      WithoutIdAppend(s[1..], anime);
      assert [s[0]] + s[1..] == s;
    }
  }

  class FavoritesManager {
    var favorites: seq<AnimeData>

    /** Starts from the stored list, when one was stored and could be read back. */
    constructor(stored: Option<seq<AnimeData>>)
      ensures favorites == if stored.Some? then stored.value else []
    {
      favorites := if stored.Some? then stored.value else [];
    }

    /** Some favourite has this anime's id. */
    predicate IsFavorite(anime: AnimeData)
      reads this
      ensures IsFavorite(anime) <==> exists i :: 0 <= i < |favorites| && SameAnime(favorites[i], anime)
    {
      HasId(favorites, anime.malId)
    }

    method ToggleFavorite(anime: AnimeData)
      modifies this
      ensures favorites == Toggled(old(favorites), anime)
      ensures IsFavorite(anime) <==> !old(IsFavorite(anime))
    {
      if IsFavorite(anime) {
        RemoveFavorite(anime);
      } else {
        AddFavorite(anime);
      }
      ToggledFlips(old(favorites), anime);
    }

    method AddFavorite(anime: AnimeData)
      modifies this
      ensures favorites == WithFavorite(old(favorites), anime)
      ensures IsFavorite(anime)
      ensures UniqueIds(old(favorites)) ==> UniqueIds(favorites)
    {
      if !IsFavorite(anime) {
        favorites := favorites + [anime];
      }
      WithFavoriteSpec(old(favorites), anime);
    }

    method RemoveFavorite(anime: AnimeData)
      modifies this
      ensures favorites == WithoutId(old(favorites), anime.malId)
      ensures !IsFavorite(anime)
      ensures UniqueIds(old(favorites)) ==> UniqueIds(favorites)
    {
      favorites := WithoutId(favorites, anime.malId);
      WithoutIdKeepsUnique(old(favorites), anime.malId);
    }

    method ClearAllFavorites()
      modifies this
      ensures favorites == []
    {
      favorites := [];
    }
  }
}
