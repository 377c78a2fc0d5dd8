/**
  The city detail page (`/weather/:city`): its two queries, enabled only for
  a non-empty city; the effect that stores a live result as the city's
  snapshot and records the city in the recent-searches log; the error alert;
  the live-else-snapshot display; and the favorite button.
 */
module WeatherPage {
  import opened Text
  import opened Cities
  import opened Domain
  import opened Storage
  import opened ErrorText
  import opened FavoritesContext

  const MaxRecentSearches := 5
  const GenericAlertText := "Gagal mengambil data cuaca atau prakiraan"

  /** The city a log entry records. */
  function SearchCity(search: RecentSearch): string
  {
    search.city
  }

  /** `recentSearches.some(s => s.city.toLowerCase() === city.toLowerCase())`. */
  function MentionsCity(searches: seq<RecentSearch>, city: string): (r: bool)
    ensures r <==> exists i :: 0 <= i < |searches| && SameCity(searches[i].city, city)
  {
    AnySameCity(searches, SearchCity, city)
  }

  /** No two entries of the log name the same city. */
  ghost predicate DistinctSearches(searches: seq<RecentSearch>)
  {
    DistinctCities(searches, SearchCity)
  }

  /** The log after a successful fetch of `city`: unchanged when the city is
      already in it; otherwise the city in front of the previous entries, in
      their order, of which the last is dropped once there would be more
      than five. */
  function RecordedSearches(searches: seq<RecentSearch>, city: string): (r: seq<RecentSearch>)
    ensures MentionsCity(searches, city) ==> r == searches
    ensures !MentionsCity(searches, city) ==>
      && |r| == (if |searches| < MaxRecentSearches then |searches| + 1 else |searches|)
      && r[0] == RecentSearch(city)
      && r[1..] == searches[..|r| - 1]
    ensures |searches| <= MaxRecentSearches ==> |r| <= MaxRecentSearches
  {
    if MentionsCity(searches, city) then searches
    else
      var unshifted := [RecentSearch(city)] + searches;
      if |unshifted| > MaxRecentSearches then unshifted[..|unshifted| - 1] else unshifted
  }

  /** Recording keeps the cities of the log pairwise distinct. */
  lemma RecordedKeepsDistinct(searches: seq<RecentSearch>, city: string)
    requires DistinctSearches(searches)
    ensures DistinctSearches(RecordedSearches(searches, city))
  {
    var r := RecordedSearches(searches, city);
    if !MentionsCity(searches, city) {
      forall i, j | 0 <= i < j < |r|
        ensures !SameCity(r[i].city, r[j].city)
      {
        assert r[j] == searches[j - 1];
        if i > 0 {
          assert r[i] == searches[i - 1];
        }
      }
    }
  }

  /** A full log of five distinct cities that receives a sixth evicts the
      oldest (the last) entry. */
  lemma SixthCityEvictsOldest(searches: seq<RecentSearch>, city: string)
    requires |searches| == MaxRecentSearches
    requires !MentionsCity(searches, city)
    ensures RecordedSearches(searches, city) == [RecentSearch(city)] + searches[..MaxRecentSearches - 1]
  {
    var r := RecordedSearches(searches, city);
    assert r == [r[0]] + r[1..];
  }

  /** The store after the page's storage effect for a live result of a
      non-empty city: the result becomes the city's snapshot, and a city not
      yet in the log is recorded; a city already in it leaves the log
      unwritten. */
  function AfterFetch(items: map<string, StoredValue>, decodedCity: string, weather: WeatherData): map<string, StoredValue>
  {
    var snapshotted := WithSnapshot(items, decodedCity, weather);
    var searches := LoadRecentSearches(items);
    if MentionsCity(searches, decodedCity) then snapshotted
    else snapshotted[RecentSearchesKey := RecentValue(RecordedSearches(searches, decodedCity))]
  }

  /** The storage effect of the page, run after every change of the result
      or the city. */
  method PersistFetchedWeather(store: LocalStorage, decodedCity: string, weather: Option<WeatherData>)
    modifies store
    ensures weather.None? || decodedCity == "" ==> store.items == old(store.items)
    ensures weather.Some? && decodedCity != "" ==> store.items == AfterFetch(old(store.items), decodedCity, weather.value)
  {
    if weather.Some? && decodedCity != "" {
      ghost var before := store.items;
      store.SetItem(SnapshotKey(decodedCity), SnapshotValue(weather.value));
      WithSnapshotIsolated(before, decodedCity, weather.value, decodedCity);
      var recentSearches := LoadRecentSearches(store.items);
      if !MentionsCity(recentSearches, decodedCity) {
        recentSearches := [RecentSearch(decodedCity)] + recentSearches;
        if |recentSearches| > MaxRecentSearches {
          recentSearches := recentSearches[..|recentSearches| - 1];
        }
        store.SetItem(RecentSearchesKey, RecentValue(recentSearches));
      }
    }
  }

  /** After the effect, the log read back holds the city, in front when it
      was new and otherwise unchanged, and no more than five entries if it
      held no more before; the city's snapshot is the result. */
  lemma PersistedLogHoldsCity(items: map<string, StoredValue>, decodedCity: string, weather: WeatherData)
    ensures var searches := LoadRecentSearches(items);
      var after := LoadRecentSearches(AfterFetch(items, decodedCity, weather));
      && MentionsCity(after, decodedCity)
      && (MentionsCity(searches, decodedCity) ==> after == searches)
      && (!MentionsCity(searches, decodedCity) ==> after[0] == RecentSearch(decodedCity))
      && (|searches| <= MaxRecentSearches ==> |after| <= MaxRecentSearches)
    ensures StoredSnapshot(AfterFetch(items, decodedCity, weather), decodedCity) == Some(weather)
  {
    var searches := LoadRecentSearches(items);
    WithSnapshotIsolated(items, decodedCity, weather, decodedCity);
    SnapshotKeyIsNotAListKey(decodedCity);
    if !MentionsCity(searches, decodedCity) {
      assert RecordedSearches(searches, decodedCity)[0].city == decodedCity;
    }
  }

  /** The heart's state: false without a city, otherwise case-insensitive
      membership of the city in the favorites. */
  function IsFavorite(decodedCity: string, favorites: seq<Favorite>): (r: bool)
    ensures r <==> decodedCity != "" && exists i :: 0 <= i < |favorites| && SameCity(favorites[i].city, decodedCity)
  {
    if decodedCity == "" then false else HasCity(favorites, decodedCity)
  }

  /** The current-weather query: disabled (no request, no data, no error)
      without a city; otherwise the network outcome behind the fetcher that
      replaces every error by a fixed message. */
  function WeatherQuery(decodedCity: string, network: FetchOutcome<WeatherData>): (r: Option<FetchOutcome<WeatherData>>)
    ensures r.None? <==> decodedCity == ""
    ensures r.Some? && network.Fetched? ==> r.value == network
    ensures r.Some? ==> (r.value.FetchFailed? <==> network.FetchFailed?)
    ensures r.Some? && r.value.FetchFailed? ==> r.value.message == WeatherFetchFailedMessage
  {
    if decodedCity == "" then None else Some(Rethrowing(network, WeatherFetchFailedMessage))
  }

  /** The forecast query, gated and wrapped the same way with its own message. */
  function ForecastQuery(decodedCity: string, network: FetchOutcome<seq<ForecastEntry>>): (r: Option<FetchOutcome<seq<ForecastEntry>>>)
    ensures r.None? <==> decodedCity == ""
    ensures r.Some? && network.Fetched? ==> r.value == network
    ensures r.Some? ==> (r.value.FetchFailed? <==> network.FetchFailed?)
    ensures r.Some? && r.value.FetchFailed? ==> r.value.message == ForecastFetchFailedMessage
  {
    if decodedCity == "" then None else Some(Rethrowing(network, ForecastFetchFailedMessage))
  }

  /** The error of a query that ran and failed. */
  function QueryError<T>(query: Option<FetchOutcome<T>>): Option<string>
  {
    if query.Some? then ErrorOf(query.value) else None
  }

  /** The alert: none unless a query failed; the not-found text exactly when
      some failure message mentions 404; the generic text otherwise. */
  function WeatherAlert(weather: Option<FetchOutcome<WeatherData>>, forecast: Option<FetchOutcome<seq<ForecastEntry>>>): (r: Option<string>)
    ensures r.Some? <==> (weather.Some? && weather.value.FetchFailed?) || (forecast.Some? && forecast.value.FetchFailed?)
    ensures r == Some(NotFoundText) <==>
      (weather.Some? && weather.value.FetchFailed? && MentionsNotFound(weather.value.message))
      || (forecast.Some? && forecast.value.FetchFailed? && MentionsNotFound(forecast.value.message))
    ensures r.Some? && r != Some(NotFoundText) ==> r == Some(GenericAlertText)
  {
    var weatherError, forecastError := QueryError(weather), QueryError(forecast);
    if weatherError.None? && forecastError.None? then None
    else if (weatherError.Some? && MentionsNotFound(weatherError.value))
         || (forecastError.Some? && MentionsNotFound(forecastError.value)) then Some(NotFoundText)
    else Some(GenericAlertText)
  }

  /** Because both fetchers rethrow fixed messages, the page never says the
      city was not found: any failure shows the generic text, and without a
      city nothing is fetched and nothing is alerted. */
  lemma NotFoundAlertUnreachable(decodedCity: string, weather: FetchOutcome<WeatherData>, forecast: FetchOutcome<seq<ForecastEntry>>)
    ensures var alert := WeatherAlert(WeatherQuery(decodedCity, weather), ForecastQuery(decodedCity, forecast));
      && alert != Some(NotFoundText)
      && (alert.Some? <==> decodedCity != "" && (weather.FetchFailed? || forecast.FetchFailed?))
      && (alert.Some? ==> alert == Some(GenericAlertText))
  {
    FixedMessagesNeverNotFound();
  }

  /** The snapshot the page falls back on: looked up only when there is a city. */
  function PageSnapshot(items: map<string, StoredValue>, decodedCity: string): Option<WeatherData>
  {
    if decodedCity == "" then None else StoredSnapshot(items, decodedCity)
  }

  /** The page shows the live result if any, else the city's snapshot, else
      nothing; the offline line shows exactly when there is no live result
      and a snapshot exists for a given city. */
  lemma DetailDisplayFallback(items: map<string, StoredValue>, decodedCity: string, live: Option<WeatherData>)
    ensures live.Some? ==> Displayed(live, PageSnapshot(items, decodedCity)) == live
    ensures live.None? && decodedCity != "" ==> Displayed(live, PageSnapshot(items, decodedCity)) == StoredSnapshot(items, decodedCity)
    ensures decodedCity == "" ==> Displayed(live, PageSnapshot(items, decodedCity)) == live
    ensures OfflineNotice(live, PageSnapshot(items, decodedCity)) <==>
      live.None? && decodedCity != "" && SnapshotKey(decodedCity) in items && items[SnapshotKey(decodedCity)].SnapshotValue?
  {
  }

  /** When the displayed name is the page's city (in any spelling), a click
      flips the heart. */
  lemma ToggleFlipsWhenNamesAgree(favorites: seq<Favorite>, decodedCity: string, shown: WeatherData)
    requires decodedCity != ""
    requires SameCity(shown.name, decodedCity)
    ensures IsFavorite(decodedCity, Toggled(favorites, IsFavorite(decodedCity, favorites), shown)) == !IsFavorite(decodedCity, favorites)
  {
    if !IsFavorite(decodedCity, favorites) {
      AddedCityIsFavorite(favorites, shown.name, shown.country, decodedCity);
    }
  }

  /** When the displayed name is already a favorite but the page's city is
      not (the provider answered with another spelling), a click changes
      nothing. */
  lemma ToggleIsNoOpWhenNamesDisagree(favorites: seq<Favorite>, decodedCity: string, shown: WeatherData)
    requires !IsFavorite(decodedCity, favorites)
    requires HasCity(favorites, shown.name)
    ensures Toggled(favorites, IsFavorite(decodedCity, favorites), shown) == favorites
  {
  }
}
