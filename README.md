# Weather-Cursor city search, modelled in Dafny

This project models the city search of the Weather-Cursor iOS client and
proves properties of the model. The user types a city name. The client's
`NetworkService.searchCity` then does the following:

- it refuses to run with the placeholder API key;
- it trims the query;
- it sends up to three geocoding requests: the query, the query with
  ", India" appended, and the query's first three characters;
- it merges the answers, dropping later candidates whose name and country
  were already found;
- it falls back to a fixed table of twenty Indian cities when nothing was
  found;
- it sorts the list by a five-level relevance comparator.

`WeatherViewModel.searchCity` then fills in coordinates for entries that
have none, with one single-result request each, and publishes the list.
`SearchResultsViewController` shows it as a table.

The geocoding HTTP request is a parameter, `CitySearch.Geocoder`: a
function from a `Lookup` (query text and page size) to an optional list of
locations. `None` covers a transport error, a status other than 200 and a
body that does not decode, because the code treats all three the same.
Everything else is modelled as the code does it. The searches also return a
ghost log of the requests they sent, so the number and order of requests
can be stated.

Files:

- `wrappers.dfy`: `Option` and `Result`.
- `text.dfy`: the string operations. It has trimming of
  `CharacterSet.whitespaces`, ASCII lowercasing, `hasPrefix`, `contains`,
  `<` as lexicographic order on characters, and `joined(separator:)`.
- `weather_model.dfy`: the `Location` record, the weather response parts
  that the code reads, and the compass label of `Wind.direction`.
- `relevance.dfy`: the relevance comparator and the sort.
- `city_search.dfy`: `NetworkService.searchCity`.
- `weather_view_model.dfy`: `TemperatureUnit`, the coordinate backfill and
  the `WeatherViewModel` class.
- `search_results_view.dfy`: the `SearchResultsViewController` class.

Three behaviours of the code are worth knowing before reading the model:

- The code does not remove duplicates globally. Strategy 1's results are
  appended unfiltered. The later filters compare candidates only with what
  was accumulated before that strategy, not with each other.
  `CitySearch.DuplicatesFromOneLookupSurvive` exhibits a result with two
  identical entries. The model states the per-strategy "new identities
  only" property, with order and repeats.
- The sort is Swift's `sort(by:)`, which is stable. The model sorts with an
  insertion sort and proves it stable: entries with equal names, the only
  entries the comparator ties, keep their incoming order
  (`Relevance.RankStable`).
- The source hard-codes `apiKey = "YOUR_API_KEY"`, so as shipped every
  search fails with `apiKeyMissing`. The model takes the key as a
  parameter, so the configured case can be stated too. Nothing in the code
  discards the results of a search that finishes after a newer one, and the
  model has no such guard either.

## Model

| member | source | states |
|---|---|---|
| `CitySearch.ErrorDescription` | Weather-Cursor/Services/NetworkService.swift:11-24 | A server error shows its own message after a fixed 14-character prefix. Every other error text starts with a letter other than "S" and has at least 11 characters. |
| `CitySearch.ErrorDescriptionInjective` | Weather-Cursor/Services/NetworkService.swift:11-24 | Two errors with the same description are the same error, so the shown text identifies the error. |
| `CitySearch.RunStrategies` | Weather-Cursor/Services/NetworkService.swift:72-115 | Runs the three query strategies in order, one lookup each with limit 100, and returns exactly their merged results: the first lookup kept whole, later lookups adding only locations not already seen. |
| `CitySearch.SearchCity` | Weather-Cursor/Services/NetworkService.swift:61-190 | The placeholder key fails with `ApiKeyMissing` and sends no request. A query that is all whitespace gives `[]` with no request. Otherwise the requests sent are exactly the strategy plan, and the answer is the ranked merged-or-fallback list. |
| `CitySearch.StrategyLookups` | Weather-Cursor/Services/NetworkService.swift:75-115 | Two requests for a query of at most 3 characters and three otherwise. In order they are the query, the query + ", India", then its first 3 characters. All use limit 100. |
| `CitySearch.NewOnly` | Weather-Cursor/Services/NetworkService.swift:94-96 | The filter keeps no more candidates than it was given. Its full behaviour is stated by the four lemmas below. |
| `CitySearch.NewOnlyKeepsUnseen` | Weather-Cursor/Services/NetworkService.swift:94-96 | A candidate survives the filter exactly when no earlier-accumulated entry has the same name and country. |
| `CitySearch.NewOnlyCount` | Weather-Cursor/Services/NetworkService.swift:94-96 | A candidate with an unseen identity survives as many times as it is offered. Candidates are not compared with each other. A candidate with a known identity never survives. |
| `CitySearch.NewOnlyInOrder` | Weather-Cursor/Services/NetworkService.swift:94-96 | The survivors keep their relative order among the candidates. |
| `CitySearch.NewOnlyAppend` | Weather-Cursor/Services/NetworkService.swift:94-96 | The filter works candidate by candidate: filtering a concatenation gives the concatenation of the filtered parts. |
| `CitySearch.Absorb` | Weather-Cursor/Services/NetworkService.swift:81-83 | One strategy step never removes or moves an entry already accumulated. |
| `CitySearch.AbsorbSpec` | Weather-Cursor/Services/NetworkService.swift:81-114 | After one strategy, the entries accumulated earlier stay in place, and a failed lookup adds nothing. The first strategy adds all of its results, unchanged. A later strategy adds its results with an unseen identity. They keep their order and their repeats, and are counted element by element. |
| `CitySearch.AccumulatedGrows` | Weather-Cursor/Services/NetworkService.swift:82-113 | The accumulator after fewer strategies is a prefix of the one after more. Later strategies never remove or reorder entries. |
| `CitySearch.StrategyOneKept` | Weather-Cursor/Services/NetworkService.swift:81-83 | Everything the first lookup returns, duplicates included, is the front of the merged list, in order. |
| `CitySearch.LaterStrategyAddsOnlyUnseen` | Weather-Cursor/Services/NetworkService.swift:92-114 | For strategy 2 or 3, a failed lookup leaves the list unchanged. Otherwise the appended part is a subsequence of the lookup's results. Each result with an identity unseen before the strategy occurs in it as often as the lookup returned it. Every other result is absent. |
| `CitySearch.MatchingCities` | Weather-Cursor/Services/NetworkService.swift:129-131 | A table city is kept exactly when its lowercased name contains the lowercased query. |
| `CitySearch.MatchingCitiesAppend` | Weather-Cursor/Services/NetworkService.swift:129-131 | The matches of a concatenated table are the matches of each part, in order. |
| `CitySearch.MatchingCitiesCount` | Weather-Cursor/Services/NetworkService.swift:129-131 | A matching name is kept as often as the table lists it. A non-matching name is not kept. |
| `CitySearch.MatchingCitiesInOrder` | Weather-Cursor/Services/NetworkService.swift:129-131 | The matches keep their table order. |
| `CitySearch.FallbackCitiesDistinct` | Weather-Cursor/Services/NetworkService.swift:121-126 | The fallback table lists each city once. |
| `CitySearch.FallbackLocations` | Weather-Cursor/Services/NetworkService.swift:134-143 | One location per matching name, in the same order, each built as a fallback entry. |
| `CitySearch.FallbackLocationsCount` | Weather-Cursor/Services/NetworkService.swift:134-143 | A fallback entry occurs exactly as often as its name. |
| `CitySearch.FallbackEntries` | Weather-Cursor/Services/NetworkService.swift:119-144 | Every fallback entry has lat 0, lon 0, country "IN", no state and a matching table name. Every matching table city appears. |
| `CitySearch.FallbackEachOnce` | Weather-Cursor/Services/NetworkService.swift:119-143 | Each matching table city gives exactly one fallback entry. |
| `CitySearch.FallbackInTableOrder` | Weather-Cursor/Services/NetworkService.swift:119-143 | The fallback entries follow the table order. |
| `CitySearch.Gathered` | Weather-Cursor/Services/NetworkService.swift:119-144 | The list before sorting is empty exactly when no strategy found anything and no table city matches the query. |
| `CitySearch.FallbackOnlyWhenNothingFound` | Weather-Cursor/Services/NetworkService.swift:119-144 | A non-empty merge is used as it is. Only an empty merge is replaced. The replacement holds each matching table city exactly once, in table order, each with (0, 0), "IN" and no state, and nothing else. |
| `CitySearch.DuplicatesFromOneLookupSurvive` | Weather-Cursor/Services/NetworkService.swift:81-114 | When a lookup returns the same city twice, both copies reach the ranked answer. |
| `Relevance.Rank` | Weather-Cursor/Services/NetworkService.swift:149-182 | The sorted list is a permutation of its input. No entry sorts strictly before an entry to its left. |
| `Relevance.RankStable` | Weather-Cursor/Services/NetworkService.swift:150-182 | The sort is stable: for every name, the entries with that name appear in the output in the same order as in the input. |
| `Relevance.InsertStable` | Weather-Cursor/Services/NetworkService.swift:150-182 | Inserting into an ordered list places the new entry after every entry with the same name. |
| `Relevance.NamePrecedes` | Weather-Cursor/Services/NetworkService.swift:150-182 | A name in a better match tier (exact, then starts with the query, then contains it, then the rest) always sorts first, whatever the lengths and letters. |
| `Relevance.SortedByTier` | Weather-Cursor/Services/NetworkService.swift:150-173 | An ordered list runs through the tiers in order: exact matches, then names starting with the query, then names only containing it, then the rest. |
| `Relevance.Insert` | Weather-Cursor/Services/NetworkService.swift:150-182 | Inserting adds exactly the one entry (multiset). |
| `Relevance.InsertSorted` | Weather-Cursor/Services/NetworkService.swift:150-182 | Inserting into an ordered list keeps it ordered. |
| `Relevance.NamePrecedesIrreflexive` | Weather-Cursor/Services/NetworkService.swift:150-182 | No name sorts before itself. |
| `Relevance.NamePrecedesTransitive` | Weather-Cursor/Services/NetworkService.swift:150-182 | The comparator is transitive. |
| `Relevance.TiedIffSameName` | Weather-Cursor/Services/NetworkService.swift:150-182 | Two names are tied (neither sorts first) exactly when they are equal. |
| `Relevance.ExactMatchesFirst` | Weather-Cursor/Services/NetworkService.swift:151-157 | In an ordered list, every entry whose lowercased name equals the query precedes every entry whose name does not. If there is such an entry, the first entry is one. |
| `Text.Trim` | Weather-Cursor/Services/NetworkService.swift:67-70 | The result is empty exactly when the input is all whitespace. Otherwise it neither starts nor ends with whitespace. It is a slice of the input with only whitespace around it. |
| `Text.Lowercased` | Weather-Cursor/Services/NetworkService.swift:149 | Same length; each character is folded to lower case. |
| `Text.ContainsIffOccurs` | Weather-Cursor/Services/NetworkService.swift:160-161 | `Contains` holds exactly when the needle occurs at some offset. |
| `Text.HasPrefix` | Weather-Cursor/Services/NetworkService.swift:168-169 | `hasPrefix` holds exactly when the string agrees with the prefix at every position of the prefix. |
| `Text.Contains` | Weather-Cursor/Services/NetworkService.swift:160-161 | The empty string is contained in every string. A contained string is never longer than the string containing it. |
| `Text.LessThan` | Weather-Cursor/Services/NetworkService.swift:181 | A proper prefix sorts before the longer string. |
| `Text.LessThanIrreflexive` | Weather-Cursor/Services/NetworkService.swift:181 | No string is `<` itself. |
| `Text.LessThanTransitive` | Weather-Cursor/Services/NetworkService.swift:181 | `<` on strings is transitive. |
| `Text.LessThanTotal` | Weather-Cursor/Services/NetworkService.swift:181 | Of two different strings, one is `<` the other. |
| `Text.Join` | Weather-Cursor/SearchResultsViewController.swift:139 | Joining no parts gives the empty string. Otherwise the result starts with the first part, and its length is the parts' total plus one separator between each two neighbours. |
| `Text.JoinPair` | Weather-Cursor/SearchResultsViewController.swift:139 | Joining two parts puts the separator between them. |
| `WeatherModel.RoundedSector` | Weather-Cursor/Models/WeatherModel.swift:44 | The result is the integer nearest to deg / 22.5, strictly within half a step, so there is no tie. |
| `WeatherModel.SwiftRem16` | Weather-Cursor/Models/WeatherModel.swift:44 | Swift's `% 16`: congruent to n, strictly between -16 and 16, with the sign of n. |
| `WeatherModel.Direction` | Weather-Cursor/Models/WeatherModel.swift:42-46 | There is a label exactly when deg >= -11 or the rounded sector is a multiple of 16. The label is then entry (sector mod 16) of the 16-point table. A negative index, a trap in Swift, gives none. |
| `WeatherModel.DirectionDefinedForBearings` | Weather-Cursor/Models/WeatherModel.swift:43-45 | Every bearing >= 0 has one of the 16 labels. |
| `WeatherModel.CardinalDirections` | Weather-Cursor/Models/WeatherModel.swift:43-45 | 0 and 360 give "N", 90 gives "E", 180 gives "S", 270 gives "W". |
| `WeatherModel.DirectionPeriodic` | Weather-Cursor/Models/WeatherModel.swift:44 | For deg >= 0, adding 360 degrees does not change the label. |
| `WeatherModel.NegativeBearingTraps` | Weather-Cursor/Models/WeatherModel.swift:44-45 | -11 still gives "N", but -12 indexes the table at -1. |
| `ViewModel.UnitFromRawValue` | Weather-Cursor/ViewModels/WeatherViewModel.swift:5-7 | A unit is found only for its own raw value, and none is found for a string that is no unit's raw value. |
| `ViewModel.RawValueRoundTrip` | Weather-Cursor/ViewModels/WeatherViewModel.swift:5-7 | Reading back a unit's raw value ("C" or "F") gives the same unit. |
| `ViewModel.Toggled` | Weather-Cursor/ViewModels/WeatherViewModel.swift:50 | Toggling always changes the unit. |
| `ViewModel.ToggledTwice` | Weather-Cursor/ViewModels/WeatherViewModel.swift:49-50 | Toggling twice restores the unit. |
| `ViewModel.FetchCoordinates` | Weather-Cursor/ViewModels/WeatherViewModel.swift:107-130 | Coordinates are found exactly when the single-result lookup succeeds with a non-empty list. They are then both taken from its first result. |
| `ViewModel.CoordinateLookup` | Weather-Cursor/ViewModels/WeatherViewModel.swift:108-110 | The request has limit 1. Its text is the name, then ", ", then the country code. |
| `ViewModel.BackfillOne` | Weather-Cursor/ViewModels/WeatherViewModel.swift:85-95 | Name, country and state never change. An entry with coordinates, or one whose lookup fails or finds nothing, is unchanged. Otherwise both coordinates come from the first result. |
| `ViewModel.Backfilled` | Weather-Cursor/ViewModels/WeatherViewModel.swift:84-97 | The list keeps its length, and every entry that already had coordinates keeps its place. |
| `ViewModel.BackfillLookups` | Weather-Cursor/ViewModels/WeatherViewModel.swift:84-87 | At most one request per entry. |
| `ViewModel.LackingIndices` | Weather-Cursor/ViewModels/WeatherViewModel.swift:85 | The positions of exactly the entries with (0, 0), in increasing order. |
| `ViewModel.BackfillLookupsSpec` | Weather-Cursor/ViewModels/WeatherViewModel.swift:84-87 | The requests sent are, in list order, one "name, country" request for each entry with (0, 0): request k is for the k-th such entry. There are exactly as many requests as such entries. |
| `ViewModel.BackfillLookupsMembers` | Weather-Cursor/ViewModels/WeatherViewModel.swift:84-87 | A request is sent exactly for the entries with (0, 0). |
| `ViewModel.BackfillSpec` | Weather-Cursor/ViewModels/WeatherViewModel.swift:84-97 | Length and order are kept, and name, country and state never change. An entry with coordinates, or whose lookup fails or is empty, is unchanged. Otherwise both coordinates come from the lookup together. |
| `ViewModel.BackfillCoordinates` | Weather-Cursor/ViewModels/WeatherViewModel.swift:84-97 | The loop's result is the backfilled list. It sends one "name, country" request with limit 1 for each entry with (0, 0), in list order. |
| `ViewModel.WeatherViewModel.constructor` | Weather-Cursor/ViewModels/WeatherViewModel.swift:36-47 | Restores the saved unit when its raw value is valid; otherwise Celsius. All other state starts empty. |
| `ViewModel.WeatherViewModel.ToggleTemperatureUnit` | Weather-Cursor/ViewModels/WeatherViewModel.swift:49-53 | Swaps the unit and saves its raw value. Nothing else changes. |
| `ViewModel.WeatherViewModel.ClearSearchResults` | Weather-Cursor/ViewModels/WeatherViewModel.swift:132-134 | Empties the results. Nothing else changes. |
| `ViewModel.WeatherViewModel.SearchCity` | Weather-Cursor/ViewModels/WeatherViewModel.swift:76-105 | Loading is off on exit. On the key error the results stay empty and the error's description is shown. Otherwise the error message is untouched and the results are the ranked search answer after the backfill. |
| `ViewModel.WeatherViewModel.GetBackgroundImageName` | Weather-Cursor/ViewModels/WeatherViewModel.swift:156-179 | With no weather data or no entry, the default background. Otherwise the lowercased `main` of the first entry selects from the five named backgrounds, and anything else gives the default. |
| `SearchResultsView.SearchResultsViewController.constructor` | Weather-Cursor/SearchResultsViewController.swift:7-44 | No rows, the no-results label hidden, the spinner stopped. |
| `SearchResultsView.SearchResultsViewController.ReceiveResults` | Weather-Cursor/SearchResultsViewController.swift:96-100 | The rows become the published results. The no-results label is hidden exactly when there is at least one. |
| `SearchResultsView.SearchResultsViewController.ReceiveLoading` | Weather-Cursor/SearchResultsViewController.swift:103-111 | The spinner animates exactly while loading. |
| `SearchResultsView.SearchResultsViewController.NumberOfRows` | Weather-Cursor/SearchResultsViewController.swift:117-119 | One row per location. |
| `SearchResultsView.SearchResultsViewController.CellContent` | Weather-Cursor/SearchResultsViewController.swift:121-139 | The main text is the row's name. The detail is "state, country" when the state is present and non-empty, and otherwise exactly the country. |
| `SearchResultsView.SearchResultsViewController.DidSelectRow` | Weather-Cursor/SearchResultsViewController.swift:157-164 | Weather is requested at the row's latitude and longitude, with the row's name as the city name. |

## Left out

- HTTP and decoding: URL building, percent-encoding, `URLSession`, status checks and `JSONDecoder` are replaced by the `Geocoder` parameter. Its `None` covers every failure the code turns into `nil`.
- `NetworkService.fetchWeather` and `WeatherViewModel.fetchWeather`: a single weather HTTP request. A row selection is modelled up to the request it makes (`DidSelectRow`).
- The debug `print` calls.
- `TemperatureUnit.convert`, `displayName` and `getTemperatureString`: floating-point conversion and `String(format:)` display text.
- `formattedDate`, `sunriseTime` and `sunsetTime`: `DateFormatter` output.
- Location services: `requestLocationPermission`, `fetchWeatherForCurrentLocation` and the `CLLocationManagerDelegate` callbacks are platform I/O.
- Combine publishing, `@MainActor` and `Task`: the published properties are plain fields, and the subscribers are methods that callers invoke with the published value.
- `ViewModel.WeatherViewModel.SearchCity`: states the final state only. `isLoading` is true and `searchResults` is empty while the search runs, but that transient state is not stated.
- `UserDefaults`: the saved unit is the field `savedUnit`, and the constructor takes its stored value as a parameter.
- All of `ViewController.swift`: UIKit layout, image brightness sampling and the 200 ms debounce.
- Unicode: `lowercased()` folds only ASCII letters, `count` counts characters rather than grapheme clusters, and `<` is order by code point.
- UI details: table reloading, cell colours and fonts, and dismissing the search controller.
