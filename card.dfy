/**
 * The pure rules that decorate a result card (`createAnimeCard`) and the
 * choice between the empty-state placeholder and a list of cards
 * (`displayResults`, `displayFavorites`). JavaScript truthiness is written
 * out: an absent or empty string is false, and so are an absent score or
 * year and the number 0.
 */
module Card {
  import opened Optional
  import opened Favorites
  import opened Escape

  datatype Genre = Genre(name: string)

  /**
   * A catalog record as the API delivers it. `airedYear` stands for the
   * year parsed from `aired.from` when that date is given.
   */
  datatype AnimeRecord = AnimeRecord(
    malId: int,
    title: string,
    titleEnglish: Option<string>,
    score: Option<real>,
    year: Option<int>,
    airedYear: Option<int>,
    genres: Option<seq<Genre>>,
    mediaType: Option<string>,
    imageUrl: string)

  /** A displayed value, or the `'N/A'` placeholder. */
  datatype Label<T> = Shown(value: T) | NotAvailable

  /** What one result card shows; `quotedTitle` is the title as embedded in the toggle handler. */
  datatype AnimeCard = AnimeCard(
    malId: int,
    imageUrl: string,
    title: string,
    score: Label<real>,
    year: Label<int>,
    genres: seq<string>,
    mediaType: string,
    favorited: bool,
    quotedTitle: string)

  /** The content of a results container. */
  datatype Results = NoResults | Cards(cards: seq<AnimeCard>)

  /** One card of the favourites view. */
  datatype FavoriteCard = FavoriteCard(malId: int, title: string, imageUrl: string, quotedTitle: string)

  /** The content of the favourites container. */
  datatype FavoritesView = NoFavorites | FavoriteCards(cards: seq<FavoriteCard>)

  /** A string property that JavaScript treats as true: present and non-empty. */
  predicate Truthy(s: Option<string>)
  {
    s.Some? && s.value != []
  }

  /** `translateToEnglish && anime.title_english ? anime.title_english : anime.title` */
  function DisplayTitle(anime: AnimeRecord, translate: bool): (r: string)
    ensures r == anime.title || anime.titleEnglish == Some(r)
  {
    if translate && Truthy(anime.titleEnglish) then anime.titleEnglish.value else anime.title
  }

  /** The English title is shown exactly when translation is on and an English title exists. */
  lemma TitleIsEnglishExactly(anime: AnimeRecord, translate: bool)
    requires anime.titleEnglish.Some? && anime.titleEnglish.value != anime.title
    ensures DisplayTitle(anime, translate) == anime.titleEnglish.value
        <==> translate && anime.titleEnglish.value != []
    ensures DisplayTitle(anime, translate) == anime.title
        <==> !(translate && anime.titleEnglish.value != [])
  {
  }

  /** Without an English title the translation preference makes no difference. */
  lemma TitleIgnoresFlagWithoutEnglish(anime: AnimeRecord)
    requires !Truthy(anime.titleEnglish)
    ensures DisplayTitle(anime, true) == DisplayTitle(anime, false) == anime.title
  {
  }

  /** The example pair of titles: translated, and not. */
  lemma TitleExample()
    ensures var anime := AnimeRecord(16498, "Shingeki no Kyojin", Some("Attack on Titan"),
                                     None, None, None, None, None, "");
      DisplayTitle(anime, true) == "Attack on Titan"
      && DisplayTitle(anime, false) == "Shingeki no Kyojin"
  {
  }

  /** The names of the genres, in order. */
  function Names(gs: seq<Genre>): (r: seq<string>)
    ensures |r| == |gs|
    ensures forall i :: 0 <= i < |gs| ==> r[i] == gs[i].name
  {
    if gs == [] then [] else [gs[0].name] + Names(gs[1..])
  }

  function Min(a: int, b: int): int
  {
    if a <= b then a else b
  }

  /** `anime.genres ? anime.genres.slice(0, 3).map(g => g.name) : []` */
  function GenreNames(genres: Option<seq<Genre>>): (r: seq<string>)
    ensures genres.None? ==> r == []
    ensures genres.Some? ==>
      |r| == Min(3, |genres.value|)
      && forall i :: 0 <= i < |r| ==> r[i] == genres.value[i].name
  {
    match genres
    case None => []
    case Some(gs) => Names(gs[..Min(3, |gs|)])
  }

  /** The genre list of a card holds at most three names, and exactly three when there are more. */
  lemma GenresTruncated(genres: Option<seq<Genre>>)
    ensures |GenreNames(genres)| <= 3
    ensures genres.Some? && |genres.value| >= 3 ==> |GenreNames(genres)| == 3
  {
  }

  /** `anime.score || 'N/A'` */
  function ScoreLabel(score: Option<real>): (r: Label<real>)
    ensures r == NotAvailable <==> score.None? || score.value == 0.0
    ensures r.Shown? ==> Some(r.value) == score
  {
    if score.Some? && score.value != 0.0 then Shown(score.value) else NotAvailable
  }

  /**
   * `anime.year || (anime.aired && anime.aired.from ? <year of aired.from> : 'N/A')`:
   * the record's own year when it is set and non-zero, else the year it
   * began airing, else the placeholder.
   */
  function YearLabel(year: Option<int>, airedYear: Option<int>): (r: Label<int>)
    ensures year.Some? && year.value != 0 ==> r == Shown(year.value)
    ensures (year.None? || year.value == 0) && airedYear.Some? ==> r == Shown(airedYear.value)
    ensures r == NotAvailable <==> (year.None? || year.value == 0) && airedYear.None?
  {
    if year.Some? && year.value != 0 then Shown(year.value)
    else if airedYear.Some? then Shown(airedYear.value)
    else NotAvailable
  }

  /** `anime.type || 'Anime'`: a card never shows an empty type. */
  function TypeLabel(mediaType: Option<string>): (r: string)
    ensures r != []
    ensures Truthy(mediaType) ==> r == mediaType.value
    ensures !Truthy(mediaType) ==> r == "Anime"
  {
    if Truthy(mediaType) then mediaType.value else "Anime"
  }

  /**
   * `createAnimeCard`, with the favourites list and the translation
   * preference it reads passed in. The title is embedded in the toggle
   * handler with the quote-only escape of the code (module Escape).
   */
  function CreateCard(anime: AnimeRecord, favs: seq<Favorite>, translate: bool): (c: AnimeCard)
    ensures c.malId == anime.malId && c.imageUrl == anime.imageUrl
    ensures c.favorited <==> HasId(favs, anime.malId)
    ensures c.title == DisplayTitle(anime, translate)
    ensures c.score == ScoreLabel(anime.score) && c.year == YearLabel(anime.year, anime.airedYear)
    ensures c.genres == GenreNames(anime.genres) && c.mediaType == TypeLabel(anime.mediaType)
    ensures c.title == anime.title || (translate && anime.titleEnglish == Some(c.title))
    ensures !Truthy(anime.titleEnglish) ==> c.title == anime.title
    ensures |c.genres| <= 3 && c.mediaType != []
    ensures QuotesEscaped(c.quotedTitle) && DropQuoteBackslashes(c.quotedTitle) == c.title
    ensures PlainText(c.title) ==> DecodeLiteral(c.quotedTitle) == Some(c.title)
  {
    var title := DisplayTitle(anime, translate);
    EscapeQuotesEmbeds(title);
    AnimeCard(anime.malId, anime.imageUrl, title, ScoreLabel(anime.score),
              YearLabel(anime.year, anime.airedYear), GenreNames(anime.genres),
              TypeLabel(anime.mediaType), HasId(favs, anime.malId), EscapeQuotes(title))
  }

  /** `animeList.map(anime => this.createAnimeCard(anime))` */
  function CardsOf(list: seq<AnimeRecord>, favs: seq<Favorite>, translate: bool): (r: seq<AnimeCard>)
    ensures |r| == |list|
    ensures forall i :: 0 <= i < |list| ==> r[i] == CreateCard(list[i], favs, translate)
  {
    if list == [] then [] else [CreateCard(list[0], favs, translate)] + CardsOf(list[1..], favs, translate)
  }

  /** `displayResults`: the placeholder for a missing or empty list, else one card per record. */
  function RenderResults(list: Option<seq<AnimeRecord>>, favs: seq<Favorite>, translate: bool): (r: Results)
    ensures r == NoResults <==> list.None? || |list.value| == 0
    ensures r.Cards? ==> |r.cards| == |list.value| > 0
    ensures r.Cards? ==> forall i :: 0 <= i < |r.cards| ==> r.cards[i] == CreateCard(list.value[i], favs, translate)
  {
    if list.None? || |list.value| == 0 then NoResults else Cards(CardsOf(list.value, favs, translate))
  }

  /** One card of `displayFavorites`, its title embedded with the same quote-only escape as the result cards. */
  function FavoriteCardOf(fav: Favorite): (c: FavoriteCard)
    ensures c.malId == fav.malId && c.title == fav.title && c.imageUrl == fav.imageUrl
    ensures QuotesEscaped(c.quotedTitle) && DropQuoteBackslashes(c.quotedTitle) == fav.title
    ensures PlainText(fav.title) ==> DecodeLiteral(c.quotedTitle) == Some(fav.title)
  {
    EscapeQuotesEmbeds(fav.title);
    FavoriteCard(fav.malId, fav.title, fav.imageUrl, EscapeQuotes(fav.title))
  }

  /** `this.favorites.map(anime => ...)`, one card per entry in list order. */
  function FavoriteCardsOf(favs: seq<Favorite>): (r: seq<FavoriteCard>)
    ensures |r| == |favs|
    ensures forall i :: 0 <= i < |favs| ==> r[i] == FavoriteCardOf(favs[i])
  {
    if favs == [] then [] else [FavoriteCardOf(favs[0])] + FavoriteCardsOf(favs[1..])
  }

  /** `displayFavorites`: the placeholder for an empty list, else one card per entry. */
  function RenderFavorites(favs: seq<Favorite>): (r: FavoritesView)
    ensures r == NoFavorites <==> |favs| == 0
    ensures r.FavoriteCards? ==> |r.cards| == |favs|
    ensures r.FavoriteCards? ==> forall i :: 0 <= i < |favs| ==> r.cards[i] == FavoriteCardOf(favs[i])
    ensures r.FavoriteCards? ==> forall i :: 0 <= i < |favs| ==>
              (r.cards[i].malId == favs[i].malId && r.cards[i].title == favs[i].title
               && r.cards[i].imageUrl == favs[i].imageUrl
               && DropQuoteBackslashes(r.cards[i].quotedTitle) == favs[i].title
               && (PlainText(favs[i].title) ==> DecodeLiteral(r.cards[i].quotedTitle) == Some(favs[i].title)))
  {
    if |favs| == 0 then NoFavorites else FavoriteCards(FavoriteCardsOf(favs))
  }
}
