# Anime Explorer: favourites store and card rules

A Dafny model of the core of the Anime Explorer page (`script.js`, class
`AnimeExplorer`): a browser widget that lists anime from a public catalog and
lets the user keep a list of favourites.

The model covers four parts:

- **Favourites store** (`favorites.dfy`, `explorer.dfy`). `favorites` is an ordered list of
  `{mal_id, title, imageUrl}` entries. `toggleFavorite` finds the first entry with
  the identifier (`findIndex`). It splices that entry out, or pushes a new entry when
  there is none. Membership is `some(fav => fav.mal_id === id)`. The class
  `Explorer.AnimeExplorer` holds the list as a `seq` field. Its methods are proved
  against the specification functions `Favorites.IndexOf`, `Favorites.HasId` and
  `Favorites.Toggled`. The lemmas about those functions give the list's
  properties: append at the end, removal of the first match, uniqueness kept,
  membership flipped, every other entry unchanged, and the double-toggle round trip.
- **Card rules** (`card.dfy`). These are the pure decisions of `createAnimeCard`:
  the title chosen from the translation preference, the genre list cut to three
  names, and the score, year and type placeholders. They also cover the empty-state
  choice of `displayResults` and `displayFavorites`. JavaScript truthiness is
  written out: an absent or empty string, an absent score or year, and the number
  0 all count as false.
- **Title escaping** (`escape.dfy`). The title goes into the inline `onclick`
  handler after `title.replace(/'/g, "\\'")`. The model includes a decoder for the
  single-quoted JavaScript literal that the handler's code contains.
- **Season of a month** (`seasons.dfy`). This is `getCurrentSeason`, with the
  month passed in as a parameter, 1 for January.

`optional.dfy` holds the `Option` type that stands for absent, `null` or
`undefined` properties.

Two behaviours of the code worth noting:

- Switching tabs only sets `currentTab` (script.js:209-220). It does not reload
  the view.
- The toggle keeps identifiers unique: it pushes only when `findIndex` finds no
  entry (script.js:157-160), and `Favorites.ToggleKeepsUnique` proves that this
  preserves uniqueness. The list read back from storage at start-up
  (script.js:4) is not checked, though, and may hold duplicates. So uniqueness
  is a hypothesis of the toggle's contracts, not an invariant of the class.

## Model

| member | source | states |
|---|---|---|
| `Explorer.AnimeExplorer.constructor` | script.js:2-5 | starts on the search tab with translation off; the favourites are the stored list, or empty when nothing is stored |
| `Favorites.HasId` | script.js:124 | the membership test: some entry of the list carries the id (a definition, no contract; `Explorer.AnimeExplorer.IsFavorited` is proved to compute it) |
| `Favorites.Toggled` | script.js:155-161 | the list after a toggle; it is one entry shorter when the id was present and one entry longer when it was absent |
| `Favorites.IndexOf` | script.js:155 | -1 exactly when no entry has the id; otherwise an index whose entry has the id and before which no entry has it |
| `Explorer.AnimeExplorer.FindIndex` | script.js:155 | the linear search returns exactly `IndexOf` of the current list |
| `Explorer.AnimeExplorer.IsFavorited` | script.js:124 | true exactly when some entry of the list has the id |
| `Explorer.AnimeExplorer.ToggleFavorite` | script.js:154-161 | the new list is `Toggled` of the old one; entries of other ids are unchanged and in order; an absent id is appended at the end; with unique ids before, ids stay unique and membership of the id is negated |
| `Favorites.ToggleAbsentAppends` | script.js:159-161 | for an absent id, exactly one entry `{id, title, imageUrl}` is added, at the end, and all earlier entries stay as they were |
| `Favorites.TogglePresentRemovesFirst` | script.js:155-158 | for a present id, the result is the list without its first entry carrying that id; the rest keep their order |
| `Favorites.ToggleKeepsOthers` | script.js:155-161 | the subsequence of entries whose id differs from the toggled one is the same before and after |
| `Favorites.ToggleKeepsOtherMembership` | script.js:155-161 | the toggle never changes whether any other id is a favourite |
| `Favorites.ToggleFlipsMembership` | script.js:155-161 | with at most one entry per id, the id is a favourite after the toggle exactly when it was not before |
| `Favorites.ToggleKeepsUnique` | script.js:155-161 | at most one entry per id before implies the same after |
| `Favorites.ToggleTwiceFromAbsent` | script.js:155-161 | adding an absent id and then toggling it again, with any title, gives back exactly the original list |
| `Favorites.ToggleTwiceFromPresent` | script.js:155-161 | removing a present (unique) id and toggling it again re-appends it at the end with the second call's title and image, so membership is restored |
| `Explorer.ToggleTwiceRestores` | script.js:154-161 | through the class's own methods: two toggles of an absent id leave the store's list as it was |
| `Explorer.AnimeExplorer.SwitchTab` | script.js:209-220 | the chosen tab becomes the current tab, and nothing else changes |
| `Explorer.AnimeExplorer.DisplayResults` | script.js:107-121 | the placeholder exactly for a missing or empty list; otherwise one card per record, in order, each the record's `CreateCard` under the current favourites and preference |
| `Explorer.AnimeExplorer.DisplayFavorites` | script.js:180-207 | the placeholder exactly when the list is empty; otherwise one card per entry, in list order, each the entry's `FavoriteCardOf` |
| `Card.DisplayTitle` | script.js:128 | the shown title is always either the primary title or the English title |
| `Card.TitleIsEnglishExactly` | script.js:128 | when the two titles differ, the English one is shown exactly when translation is on and it is non-empty; otherwise the primary title is shown |
| `Card.TitleIgnoresFlagWithoutEnglish` | script.js:128 | with an absent or empty English title, both settings of the flag give the primary title |
| `Card.TitleExample` | script.js:128 | "Attack on Titan" / "Shingeki no Kyojin": translation on gives the English title, off gives the primary one |
| `Card.Names` | script.js:125 | one name per genre, in order |
| `Card.GenreNames` | script.js:125 | empty when genres are absent; otherwise the names of the first min(3, n) genres, in their original order |
| `Card.GenresTruncated` | script.js:125 | a card shows at most three genres, and exactly three when the record has three or more |
| `Card.ScoreLabel` | script.js:127 | 'N/A' exactly when the score is absent or 0; otherwise the score itself |
| `Card.YearLabel` | script.js:126 | the record's year when set and non-zero, else the year the record began airing, else 'N/A' exactly when neither exists |
| `Card.TypeLabel` | script.js:143 | the media type when it is a non-empty string, otherwise 'Anime'; never empty |
| `Card.CreateCard` | script.js:123-152 | the card keeps the id and image; it is marked favourite exactly when some favourite has the id; its title, score, year, genres and type are exactly `DisplayTitle`, `ScoreLabel`, `YearLabel`, `GenreNames` and `TypeLabel` of the record, so their proved rules hold on every card; the title embedded in the toggle handler has a backslash before every quote and gives back the title when those backslashes are removed; that literal decodes to the title when the title has no backslash or line break |
| `Card.CardsOf` | script.js:120 | one card per record, in order, each the record's `CreateCard` |
| `Card.RenderResults` | script.js:107-121 | the placeholder exactly for a missing or empty list; otherwise a non-empty card list, one card per record in order |
| `Card.FavoriteCardOf` | script.js:192-206 | a favourite's card keeps its id, title and image; its embedded title has a backslash before every quote and gives back the title when those are removed; it decodes to the title when the title has no backslash or line break |
| `Card.FavoriteCardsOf` | script.js:192-206 | one card per favourite, in list order |
| `Card.RenderFavorites` | script.js:180-207 | the placeholder exactly when there are no favourites; otherwise one card per entry, in order, with id, title and image kept and the title embedded as the code escapes it |
| `Escape.EscapeQuotes` | script.js:145 | the escaped title is as long as the title plus its number of single quotes, never starts with a quote, and is empty only for the empty title |
| `Escape.EscapedQuotesFollowBackslash` | script.js:145 | every single quote in the escaped title has a backslash right before it |
| `Escape.DropQuoteBackslashesOfEscape` | script.js:145 | removing the backslash before each quote gives back the original title |
| `Escape.EscapeQuotesWithoutQuotes` | script.js:145 | a title without single quotes is embedded unchanged |
| `Escape.EscapeQuotesLosesBackslash` | script.js:145 | the title consisting of one backslash is embedded unchanged and its literal does not decode |
| `Escape.EscapeLiteral` | script.js:145 | the corrected escape never shortens the title |
| `Escape.DecodeEscapeLiteral` | script.js:145 | the literal written by the corrected escape decodes to exactly the title, for every title |
| `Escape.EscapeLiteralAgrees` | script.js:145 | on titles without backslashes and line breaks, the corrected escape equals the as-written one |
| `Escape.EscapeQuotesEmbeds` | script.js:145 | the as-written escape leaves no bare quote, gives back the title when the inserted backslashes are removed, and decodes to the title when the title has no backslash or line break |
| `Escape.DecodeEscapeQuotesShrinks` | script.js:145 | whenever the as-written literal decodes, the decoded text is no longer than the title, and strictly shorter when the title holds a backslash or line break |
| `Escape.EscapeQuotesSoundExactly` | script.js:145 | the as-written literal decodes back to the title if and only if the title has no backslash or line break |
| `Escape.EscapeQuotesSoundWithoutBackslash` | script.js:200 | on titles without backslashes and line breaks, the as-written escape decodes back to the title |
| `Seasons.SeasonOfMonth` | script.js:99-105 | `getCurrentSeason` with the month passed in (a definition, no contract; its properties are the three lemmas below) |
| `Seasons.SeasonRanges` | script.js:99-105 | months 3-5 are spring, 6-8 summer, 9-11 fall, and 12, 1, 2 winter, each in both directions |
| `Seasons.SeasonIsQuarter` | script.js:99-105 | the season equals an independent definition: quarter `(month mod 12) / 3` of a year counted from December |
| `Seasons.SeasonsHaveThreeMonths` | script.js:99-105 | each season takes exactly three of the twelve months |

## Findings

| source | as written | input that shows it | evidently intended | confidence | as-written member | corrected member |
|---|---|---|---|---|---|---|
| script.js:145 | The title is escaped with `replace(/'/g, "\\'")` before it goes into the single-quoted literal of the `onclick` handler. Backslashes and line breaks are not escaped. | The title `\` (one backslash) gives the literal `'\'`. The escaped quote does not end the literal, so the handler's code does not parse. A title `a\nb` with a raw line break fails the same way. | The literal in the handler decodes back to the displayed title. | not executed; follows from JavaScript's string literal grammar | `Escape.EscapeQuotesLosesBackslash` | `Escape.DecodeEscapeLiteral` |

The same escape is used for the favourites cards (script.js:200). The card
functions `Card.CreateCard` and `Card.FavoriteCardOf` embed the title as the code
does, with `Escape.EscapeQuotes`, so their contracts promise a clean decode only
for titles without a backslash or line break. The corrected
`Escape.EscapeLiteral` stands beside them: `Escape.DecodeEscapeLiteral` proves
that it decodes back for every title, and `Escape.EscapeLiteralAgrees` proves
that it writes the same text as the code on every title without a backslash or line break.
`Escape.EscapeQuotesSoundExactly` proves that these are exactly the titles the code
embeds correctly.

## Left out

- Network requests: the four catalog queries, `response.json()`, the URL building, and the catch-and-alert error handling (script.js:47-97). These are network I/O and promise scheduling. The records they deliver are the inputs of `Card.RenderResults`.
- Durable storage: the `localStorage` read at start-up and the write after each toggle (script.js:4, script.js:163), with their JSON encoding. The constructor takes the stored list as a parameter, so a save-and-reload round trip is not modelled.
- The clock: the month, the year of the seasonal query, and parsing `aired.from` into a year (script.js:89, script.js:100, script.js:126). The month is a parameter of `Seasons.SeasonOfMonth`. The parsed year is the `airedYear` field of a record. An unparsable date, which renders `NaN`, is not modelled.
- Tab names: `switchTab` takes any string from the tab button's `data-tab` attribute (and `'search'` from the random-anime path). The model takes one of the four tabs the page has, `search`, `trending`, `seasonal` and `favorites`, as a datatype. Any other string is not modelled.
- Season names: the season is a datatype whose four constructors stand for the lower-case names `'spring'`, `'summer'`, `'fall'` and `'winter'`.
- HTML and the DOM: the template strings, `innerHTML`, the class toggling in `switchTab` and `updateFavoriteButtons`, event binding, the loading indicator and `alert` (script.js:16-45, script.js:130-151, script.js:171-178, script.js:211-217, script.js:230-241). Cards are modelled as the values they display. The HTML attribute layer around the handler (double quotes, entities) is not part of the escaping model.
- `updateFavoriteButtons`: it reads the id back out of the `onclick` markup with a regular expression (script.js:173). That depends on live DOM nodes.
- The refresh that follows a toggle (`updateFavoriteButtons` and `displayFavorites` when the favourites tab is open, script.js:164-168). It is DOM work. `Explorer.AnimeExplorer.DisplayFavorites` models what it would render.
- The translation switch handler and `applyFilters` (script.js:37-44, script.js:222-228). They only set the flag and re-run the loaders.
- Scores: the score is a `real`, so `NaN` (also falsy in JavaScript) is not modelled.
- `Card.ScoreLabel`: the placeholder test covers absent and 0 scores. `NaN` and non-numeric values are not modelled, for the reason given above.
- `Escape.DecodeLiteral` decodes only the escapes `\'`, `\"`, `\\`, `\n` and `\r`. It returns None for every other escape sequence. The output of `Escape.EscapeLiteral` holds no other sequence. The output of `Escape.EscapeQuotes` can: for the title `a\b` it holds `\b`, which JavaScript decodes to U+0008. So for the as-written escape, None also stands for escapes that JavaScript would decode into a different string. The card contracts state the decode only for titles without a backslash, where this cannot happen.
- `Escape.EscapeLiteral`: its own contract states only the length bound. Its round trip is stated by `Escape.DecodeEscapeLiteral`.
