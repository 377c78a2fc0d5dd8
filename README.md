# cuacaharian client state, in Dafny

A model of the state-keeping core of the *cuacaharian* weather client (a
React single-page app over the OpenWeatherMap API). It covers:

- the **favorites store** (`FavoritesContext`): an insertion-ordered list of
  `(city, country)` pairs, keyed by the city compared case-insensitively. It is
  loaded from the `favorites` storage key and written back after every change.
- the **recent-searches log** kept by the detail page: at most five cities,
  most recent first. A city is recorded after a successful fetch unless it is
  already in the log.
- the **per-city snapshot store**: each live result overwrites
  `weather_<lowercased city>`. Every page shows the live result, else the
  snapshot, else nothing. The offline line shows exactly when the snapshot is
  shown.
- the **five-day forecast sample**: every 8th 3-hourly entry, the first five
  of them.
- the **error texts**: "Kota tidak ditemukan" when a message mentions `404`.
  The detail page and the home cards wrap their fetch errors in fixed
  messages, so they can never show it. The favorites page component passes
  raw errors through, so it could. However, src/App.tsx:83-87 routes only
  `/`, `/search` and `/weather/:city` and never mounts that component, so in
  the application as shipped no mounted page shows the not-found text.
- the **search form**: the suggestion length gate, the suggestion-failure
  notification, the blank-input warning and the navigation targets.

Browser storage is a class `Storage.LocalStorage` over a
`map<string, StoredValue>`. The JSON encoding is abstracted: each key holds a
typed value. Network and query outcomes are inputs of type
`FetchOutcome<T>`: either the data or the error message.
`toLowerCase` is ASCII lowering (`Text.Lower`). `trim` removes the ECMAScript
whitespace and line-terminator code points (`Text.Trim`).
A route `/weather/<encodeURIComponent(c)>` is the value `WeatherRoute(c)`, so
the detail page's `decodeURIComponent` gives `c` back.

Modules follow the source files. `Text`, `Cities`, `Domain`, `Storage`,
`Forecast` and `ErrorText` hold what several pages share. `FavoritesContext`,
`WeatherPage`, `HomePage`, `FavoritesPage` and `SearchPage` hold one source
file each. `Scenarios` holds client methods that drive the components as the
pages do: a heart clicked twice, a search followed by that round trip, and a
success followed by an offline visit. Each checks what the specifications let
a caller conclude.

Three behaviours of the code are worth calling out:

- The detail page and the home cards keep a "Kota tidak ditemukan" branch
  (src/pages/Weather.tsx:102-104, src/pages/Home.tsx:67). Their fetchers,
  however, rethrow fixed messages (src/pages/Weather.tsx:44,58,
  src/pages/Home.tsx:40), so the branch never runs and those pages always show
  the generic text (`WeatherPage.NotFoundAlertUnreachable`,
  `HomePage.CardNotFoundUnreachable`). Only the favorites page component,
  whose fetcher lets the raw error through, reaches it
  (`FavoritesPage.AxiosNotFoundIsShown`).
- The log is meant to hold five entries, but src/pages/Weather.tsx:92 pops
  only once per insertion. A stored log that already holds more than five
  entries stays longer than five (`WeatherPage.RecordedSearches`). The bound
  is kept only when it held before.
- The heart on the detail page reads its state from the route's city, but its
  click adds or removes the name the provider returned. When the two names
  differ and the provider's name is already a favorite, the click changes
  nothing (`WeatherPage.ToggleIsNoOpWhenNamesDisagree`). When the two names
  are the same city, a click always flips the heart
  (`WeatherPage.ToggleFlipsWhenNamesAgree`).

## Model

| member | source | states |
|---|---|---|
| `Text.Lower` | src/context/FavoritesContext.tsx:28 | the lowercased name has the input's length and lowers each character (ASCII A–Z) |
| `Text.SameCityIgnoresCase` | src/context/FavoritesContext.tsx:28 | two names that differ only in the case of ASCII letters are the same city (e.g. "Jakarta" and "jakarta") |
| `Text.Trim` | src/pages/Search.tsx:50 | `trim()` is the slice `s[a..b]` with a blank prefix `s[..a]` and a blank suffix `s[b..]`, itself starting and ending with non-whitespace; it is empty exactly when the input is blank |
| `Text.StripsBlankEnds` | src/pages/Search.tsx:50 | dropping a blank prefix and then a blank suffix leaves a slice of the input between a blank prefix and a blank suffix |
| `Cities.AnySameCity` | src/context/FavoritesContext.tsx:28 | `some` over a list with a city projection is true iff some entry's city equals the city case-insensitively (shared by src/pages/Weather.tsx:90) |
| `Text.ContainsEmbedded` | src/pages/Favorites.tsx:65 | `includes` finds a string in any string that embeds it |
| `Storage.SnapshotKeyIdentifiesCity` | src/pages/Weather.tsx:88 | two cities share the key `weather_<lower(city)>` iff they are the same city case-insensitively |
| `Storage.SnapshotKeyIsNotAListKey` | src/pages/Weather.tsx:88-89 | no snapshot key equals `favorites` or `recentSearches`, so snapshot writes never clobber either list |
| `Storage.LocalStorage.SetItem` | src/context/FavoritesContext.tsx:23 | `setItem` maps the key to the value and leaves every other key as it was |
| `Storage.LoadFavorites` | src/context/FavoritesContext.tsx:17-20 | the initial favorites are the stored list, or empty when the key is absent |
| `Storage.LoadRecentSearches` | src/pages/Home.tsx:146-149 | the recent searches are the stored list, or empty when the key is absent (also the `\|\| '[]'` read at src/pages/Weather.tsx:89) |
| `Storage.WithSnapshotIsolated` | src/pages/Weather.tsx:87-88 | after a write the result is the snapshot of every spelling of that city; other cities' snapshots and both lists are unchanged; only that key is added |
| `Storage.PersistSnapshot` | src/pages/Home.tsx:57-61 | a live result overwrites the card city's snapshot and nothing else; without one the store is unchanged (same effect at src/pages/Favorites.tsx:50-54) |
| `Storage.OfflineIffSnapshotShown` | src/pages/Favorites.tsx:93 | the offline line shows iff something is displayed and there is no live result; then what is displayed is the snapshot; nothing is displayed iff neither exists |
| `Storage.CardDisplayFallback` | src/pages/Home.tsx:74-75 | a card shows live, else the stored snapshot of its lowercased key, else nothing; the offline line (src/pages/Home.tsx:136, src/pages/Favorites.tsx:93) shows iff no live result and a snapshot exists |
| `Storage.SnapshotServesLaterFailure` | src/pages/Home.tsx:57-75 | a success for a city, then a failure for any spelling of it, shows the first result marked offline |
| `Storage.NoSnapshotNoOfflineView` | src/pages/Favorites.tsx:56-57 | a failed fetch for a city never fetched before shows nothing and no offline line |
| `Forecast.SliceTo` | src/pages/Weather.tsx:113 | `slice(0, n)` is the prefix of length min(n, length) |
| `Forecast.EveryStrideFromSpec` | src/pages/Weather.tsx:113 | filtering `index % 8 === 0` from index i keeps one entry per multiple of 8 in [i, n), the k-th being at the k-th multiple |
| `Forecast.DailyForecast` | src/pages/Weather.tsx:113 | the sample has min(5, ceil(n/8)) entries and its k-th entry is `list[8k]` |
| `Forecast.FortyEntriesSampleFiveDays` | src/pages/Weather.tsx:113 | 40 entries sample exactly the indices 0, 8, 16, 24, 32 |
| `Forecast.ShortListsSampleEveryStartedDay` | src/pages/Favorites.tsx:58 | at least 33 entries give five samples; at most 32 give one per started day |
| `ErrorText.Rethrowing` | src/pages/Weather.tsx:36-47 | a catching fetcher passes data through and turns every failure into a failure with the fixed message |
| `ErrorText.NoFourNoNotFound` | src/pages/Weather.tsx:102 | a message without the digit 4 never mentions 404 |
| `ErrorText.FixedMessagesNeverNotFound` | src/pages/Weather.tsx:44 | neither fixed fetch message (src/pages/Weather.tsx:58, src/pages/Home.tsx:40) nor "City not provided" mentions 404 |
| `ErrorText.RethrownErrorsNeverNotFound` | src/pages/Weather.tsx:57-58 | behind either rethrowing fetcher no error mentions 404, whatever the network reported |
| `ErrorText.AxiosStatusMessageMentionsNotFound` | src/pages/Favorites.tsx:20-25 | the raw error of an HTTP 404 answer, which this fetcher does not catch, mentions 404 |
| `FavoritesContext.HasCity` | src/context/FavoritesContext.tsx:28 | `some` is true iff some favorite's city equals the city case-insensitively |
| `FavoritesContext.WithFavorite` | src/context/FavoritesContext.tsx:26-33 | if the city is present in any spelling the list is unchanged (country not updated); otherwise the prior entries are kept in order and exactly `{city, country}` is appended |
| `FavoritesContext.WithoutFavorite` | src/context/FavoritesContext.tsx:35-37 | removal keeps exactly the entries whose lowercased city differs; no match remains |
| `FavoritesContext.WithoutFavoriteConcat` | src/context/FavoritesContext.tsx:36 | the filter distributes over concatenation, so the survivors keep their original order |
| `FavoritesContext.WithoutAbsentFavorite` | src/context/FavoritesContext.tsx:36 | removing a city that is not present leaves the list unchanged |
| `FavoritesContext.WithFavoriteIdempotent` | src/context/FavoritesContext.tsx:28-31 | adding the same city twice, in any case and with any country, gives the list one addition gives |
| `FavoritesContext.AddedCityIsFavorite` | src/context/FavoritesContext.tsx:28-29 | after adding a city, membership holds for every spelling of it |
| `FavoritesContext.WithFavoriteKeepsUnique` | src/context/FavoritesContext.tsx:28 | adding preserves "no two entries are the same city case-insensitively" |
| `FavoritesContext.WithoutFavoriteKeepsUnique` | src/context/FavoritesContext.tsx:36 | removing preserves the same uniqueness invariant |
| `FavoritesContext.AddThenRemoveRestores` | src/context/FavoritesContext.tsx:26-37 | adding an absent city and removing it (any case) restores the original list |
| `FavoritesContext.FavoritesProvider.constructor` | src/context/FavoritesContext.tsx:17-24 | the state starts as the stored list (empty if absent), and the mount effect writes it back under `favorites` |
| `FavoritesContext.FavoritesProvider.AddFavorite` | src/context/FavoritesContext.tsx:26-33 | the state becomes `WithFavorite` of the old state, and `favorites` in storage holds it; no other key changes |
| `FavoritesContext.FavoritesProvider.RemoveFavorite` | src/context/FavoritesContext.tsx:35-37 | the state becomes `WithoutFavorite` of the old state, and `favorites` in storage holds it; no other key changes |
| `FavoritesContext.PersistedListReloads` | src/context/FavoritesContext.tsx:22-24 | while the provider is mounted, reloading the store gives exactly the current list |
| `FavoritesContext.ToggleFavorite` | src/pages/Weather.tsx:131-135 | a heart click removes the shown name when filled and adds the shown name and country otherwise (same handler at src/pages/Home.tsx:96-100, src/pages/Favorites.tsx:73-76) |
| `FavoritesContext.UseFavorites` | src/context/FavoritesContext.tsx:46-49 | the hook fails with its message iff there is no provider value, and otherwise returns that value |
| `WeatherPage.MentionsCity` | src/pages/Weather.tsx:90 | `some` over the log is true iff an entry's city equals the city case-insensitively |
| `WeatherPage.RecordedSearches` | src/pages/Weather.tsx:90-92 | a present city leaves the log unchanged; otherwise the city is at index 0 followed by the prior entries in order, the last dropped only when the length would exceed 5; at most 5 entries stay at most 5 |
| `WeatherPage.RecordedKeepsDistinct` | src/pages/Weather.tsx:90-91 | recording preserves "no case-insensitive duplicate cities" |
| `WeatherPage.SixthCityEvictsOldest` | src/pages/Weather.tsx:91-92 | a new city on a full log of five gives the city followed by the four newest entries |
| `WeatherPage.PersistFetchedWeather` | src/pages/Weather.tsx:86-96 | with a live result and a city the store becomes `AfterFetch`: the snapshot is written and a new city is recorded, a present city leaving `recentSearches` unwritten; without a result or city nothing is written |
| `WeatherPage.PersistedLogHoldsCity` | src/pages/Weather.tsx:87-93 | after the effect the reloaded log mentions the city, in front when new and unchanged otherwise, stays within 5 if it was, and the city's snapshot is the result |
| `WeatherPage.IsFavorite` | src/pages/Weather.tsx:68 | false for an empty city, otherwise case-insensitive membership in the favorites |
| `WeatherPage.WeatherQuery` | src/pages/Weather.tsx:70-76 | the weather query is disabled iff the city is empty; otherwise data passes through, the query fails iff the network failed, and every error carries the fixed message |
| `WeatherPage.ForecastQuery` | src/pages/Weather.tsx:78-84 | the forecast query is gated the same way; it fails iff the network failed and then carries its own fixed message |
| `WeatherPage.WeatherAlert` | src/pages/Weather.tsx:98-109 | an alert shows iff a query failed; it is the not-found text iff some failure message mentions 404, and "Gagal mengambil data cuaca atau prakiraan" otherwise |
| `WeatherPage.NotFoundAlertUnreachable` | src/pages/Weather.tsx:102-104 | for every network outcome the page never shows the not-found text; it alerts (generically) iff there is a city and a fetch failed |
| `WeatherPage.DetailDisplayFallback` | src/pages/Weather.tsx:111-112 | live result, else the lowercased-key snapshot when there is a city, else none; the offline line (line 171) shows iff no live result, a city, and a stored snapshot |
| `WeatherPage.ToggleFlipsWhenNamesAgree` | src/pages/Weather.tsx:131-135 | when the shown name is the route city in any spelling, a click flips `isFavorite` |
| `WeatherPage.ToggleIsNoOpWhenNamesDisagree` | src/pages/Weather.tsx:131-135 | when the route city is not a favorite but the shown name is, a click leaves the favorites unchanged |
| `Scenarios.FavoriteThenUnfavorite` | src/pages/Weather.tsx:131-135 | on the page of a non-favorite city whose shown name is that city, two heart clicks restore the favorites and leave the recent-searches log unchanged |
| `HomePage.IsFav` | src/pages/Home.tsx:48 | the heart equals the `isFavorite` prop when given, else case-insensitive membership of the card's city |
| `HomePage.FavoriteCardClickRemoves` | src/pages/Home.tsx:96-100 | on a favorite card (prop true, line 170) a click removes the shown name |
| `HomePage.CardQuery` | src/pages/Home.tsx:32-44 | the card's fetcher passes data through and turns every failure into the fixed message |
| `HomePage.CardAlert` | src/pages/Home.tsx:63-72 | an alert shows iff the query failed; it is the not-found text iff the message mentions 404, else the fetch-failed text |
| `HomePage.CardNotFoundUnreachable` | src/pages/Home.tsx:40 | a home card never shows the not-found text; every failure shows the fetch-failed text |
| `HomePage.LinkTarget` | src/pages/Home.tsx:79 | the link goes to the displayed weather's name when present and non-empty, else to the card's city |
| `HomePage.OfflineCardLinksToSnapshotName` | src/pages/Home.tsx:74-79 | an offline card links to the name stored in its snapshot |
| `FavoritesPage.CardIsFavorite` | src/pages/Favorites.tsx:36 | the heart is case-insensitive membership of the card's city |
| `FavoritesPage.ListedCardsAreFavorites` | src/pages/Favorites.tsx:128-130 | every card rendered from the favorites list shows a filled heart |
| `FavoritesPage.CardErrorText` | src/pages/Favorites.tsx:63-67 | an error text shows iff the query failed; it is "Kota tidak ditemukan" iff the raw message mentions 404, else "Terjadi kesalahan" |
| `FavoritesPage.AxiosNotFoundIsShown` | src/pages/Favorites.tsx:20-25 | an HTTP 404 failure reaches the card unchanged and shows "Kota tidak ditemukan" |
| `SearchPage.SuggestionNames` | src/pages/Search.tsx:33 | the suggestions are the `name` of each result, in response order |
| `SearchPage.SearchForm.constructor` | src/pages/Search.tsx:19-20 | the form starts with an empty city and no suggestions |
| `SearchPage.SearchForm.FetchSuggestions` | src/pages/Search.tsx:23-46 | a query shorter than 3 clears the suggestions without a request; otherwise a success sets the result names, and a failure clears them and shows "Gagal mengambil saran kota"; the city is untouched |
| `SearchPage.SearchForm.ChangeInput` | src/pages/Search.tsx:80-83 | typing sets the city to the input and requests suggestions for it, with the same notification on failure |
| `SearchPage.SearchForm.HandleSearch` | src/pages/Search.tsx:48-60 | a blank city (after trimming) gives the warning "Masukkan nama kota terlebih dahulu" and no navigation; otherwise it navigates to `/weather/` + encode(trim(city)), never with an empty city |
| `SearchPage.SearchForm.HandleSuggestionClick` | src/pages/Search.tsx:62-66 | the city becomes the suggestion, the suggestions are emptied, and the route is that suggestion's |

## Left out

- The service worker (src/service-worker.ts): its cache-first, stale-while-revalidate and expiry behaviour lives in the workbox library, which is not part of this model. `skipWaiting` and `clients.claim` are browser lifecycle calls.
- react-query itself: the 5-minute `staleTime`, `retry: 2`, request deduplication and keeping stale data across refetches. Each query is its settled outcome, given as an input.
- The network (axios), geolocation lookup (src/pages/Search.tsx:106-139), SweetAlert and the loading overlay/spinners. Of the notifications, the model keeps only their texts: the detail-page and card alerts, the blank-city warning (src/pages/Search.tsx:51-56) and the suggestion-failure alert (src/pages/Search.tsx:37-42). Titles, icons and button colours are not modelled.
- src/App.tsx (navigation chrome) and vite.config.ts (build and manifest): presentation and configuration only.
- JSON encoding: storage maps keys to typed values. A value of another shape under `favorites` or `recentSearches` loads as an empty list, where `JSON.parse` would give whatever was stored. Only external writers can produce one.
- `Text.Lower`: lowers ASCII letters only, while `toLowerCase` is Unicode-aware (e.g. "Ä" → "ä" is not modelled).
- `encodeURIComponent` / `decodeURIComponent`: a route carries the raw city, which assumes decoding undoes encoding.
- `SearchPage.SearchForm.FetchSuggestions`: compares the string's length in characters; JavaScript's `length` counts UTF-16 code units, which differs for characters outside the Basic Multilingual Plane.
- Concurrency: effects run right after the state change they depend on. The model does not cover overlapping suggestion requests that resolve out of order, and results discarded after navigation are not modelled.
- The query function's `Promise.reject(new Error('City not provided'))` branch (src/pages/Weather.tsx:72,80) never runs, since the query is disabled for an empty city. Only its message is modelled, to show it does not mention 404.
- Dates, temperatures, humidity and wind are carried as opaque payload and not interpreted.
- Snapshot keys are never evicted, in the source and in the model.
