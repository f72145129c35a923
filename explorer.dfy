/**
 * The `AnimeExplorer` object: the favourites list it updates in place, the
 * current tab, and the translation preference.
 */
module Explorer {
  import opened Optional
  import opened Favorites
  import Card

  /** The four views of the page. */
  datatype Tab = SearchTab | TrendingTab | SeasonalTab | FavoritesTab

  class AnimeExplorer {
    var currentTab: Tab
    var favorites: seq<Favorite>
    var translateToEnglish: bool

    /**
     * The state after construction. `stored` is what was read back from
     * storage: None when nothing is stored (`JSON.parse(null) || []`).
     */
    constructor (stored: Option<seq<Favorite>>)
      ensures currentTab == SearchTab && !translateToEnglish
      ensures favorites == (if stored.Some? then stored.value else [])
    {
      currentTab := SearchTab;
      favorites := if stored.Some? then stored.value else [];
      translateToEnglish := false;
    }

    /** `this.favorites.findIndex(fav => fav.mal_id === malId)` */
    method FindIndex(malId: int) returns (i: int)
      ensures i == IndexOf(favorites, malId)
    {
      i := 0;
      while i < |favorites|
        invariant 0 <= i <= |favorites|
        invariant forall j :: 0 <= j < i ==> favorites[j].malId != malId
      {
        if favorites[i].malId == malId {
          return;
        }
        i := i + 1;
      }
      i := -1;
    }

    /** `this.favorites.some(fav => fav.mal_id === malId)` */
    method IsFavorited(malId: int) returns (b: bool)
      ensures b <==> HasId(favorites, malId)
    {
      var i := 0;
      while i < |favorites|
        invariant 0 <= i <= |favorites|
        invariant forall j :: 0 <= j < i ==> favorites[j].malId != malId
      {
        if favorites[i].malId == malId {
          return true;
        }
        i := i + 1;
      }
      return false;
    }

    /**
     * `toggleFavorite`: splice out the first entry with `malId`, or push a
     * new entry when there is none.
     */
    method ToggleFavorite(malId: int, title: string, imageUrl: string)
      modifies this`favorites
      ensures favorites == Toggled(old(favorites), malId, title, imageUrl)
      ensures Except(favorites, malId) == Except(old(favorites), malId)
      ensures !HasId(old(favorites), malId) ==>
        favorites == old(favorites) + [Favorite(malId, title, imageUrl)]
      ensures UniqueIds(old(favorites)) ==> UniqueIds(favorites)
      ensures UniqueIds(old(favorites)) ==> (HasId(favorites, malId) <==> !HasId(old(favorites), malId))
    {
      ghost var before := favorites;
      var existingIndex := FindIndex(malId);
      if existingIndex > -1 {
        favorites := favorites[..existingIndex] + favorites[existingIndex + 1..];
      } else {
        favorites := favorites + [Favorite(malId, title, imageUrl)];
      }
      ToggleKeepsOthers(before, malId, title, imageUrl);
      if UniqueIds(before) {
        ToggleKeepsUnique(before, malId, title, imageUrl);
        ToggleFlipsMembership(before, malId, title, imageUrl);
      }
    }

    /** `switchTab`: the chosen tab becomes the current one. */
    method SwitchTab(tab: Tab)
      modifies this`currentTab
      ensures currentTab == tab
    {
      currentTab := tab;
    }

    /** `displayResults`, with the cards decorated from the current favourites and preference. */
    method DisplayResults(animeList: Option<seq<Card.AnimeRecord>>) returns (r: Card.Results)
      ensures r == Card.NoResults <==> animeList.None? || |animeList.value| == 0
      ensures r.Cards? ==> |r.cards| == |animeList.value|
      ensures r.Cards? ==> forall i :: 0 <= i < |r.cards| ==>
                r.cards[i] == Card.CreateCard(animeList.value[i], favorites, translateToEnglish)
    {
      r := Card.RenderResults(animeList, favorites, translateToEnglish);
    }

    /** `displayFavorites` */
    method DisplayFavorites() returns (r: Card.FavoritesView)
      ensures r == Card.NoFavorites <==> |favorites| == 0
      ensures r.FavoriteCards? ==> |r.cards| == |favorites|
      ensures r.FavoriteCards? ==> forall i :: 0 <= i < |favorites| ==> r.cards[i] == Card.FavoriteCardOf(favorites[i])
    {
      r := Card.RenderFavorites(favorites);
    }
  }

  /** Toggling twice from a list without the identifier restores the list, through the store's own methods. */
  method ToggleTwiceRestores(explorer: AnimeExplorer, malId: int, title: string, imageUrl: string)
    requires !HasId(explorer.favorites, malId)
    modifies explorer
    ensures explorer.favorites == old(explorer.favorites)
  {
    explorer.ToggleFavorite(malId, title, imageUrl);
    assert explorer.favorites[|old(explorer.favorites)|].malId == malId;
    var present := explorer.IsFavorited(malId);
    assert present;
    explorer.ToggleFavorite(malId, title, imageUrl);
    ToggleTwiceFromAbsent(old(explorer.favorites), malId, title, imageUrl, title, imageUrl);
  }
}
