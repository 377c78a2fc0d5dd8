/**
  Browser storage as the pages use it: the `favorites` and `recentSearches`
  lists, one last-known-good weather snapshot per city under
  `weather_<lowercased city>`, and the live-else-snapshot display rule with its
  offline marker, which the detail page and both weather cards share.
 */
module Storage {
  import opened Text
  import opened Domain

  const FavoritesKey := "favorites"
  const RecentSearchesKey := "recentSearches"
  const SnapshotPrefix := "weather_"

  /** The key of the snapshot for `city`: the prefix followed by the lowercased name. */
  function SnapshotKey(city: string): string
  {
    SnapshotPrefix + Lower(city)
  }

  /** Two cities share a snapshot key exactly when they are the same city. */
  lemma SnapshotKeyIdentifiesCity(a: string, b: string)
    ensures SnapshotKey(a) == SnapshotKey(b) <==> SameCity(a, b)
  {
    if SnapshotKey(a) == SnapshotKey(b) {
      assert Lower(a) == SnapshotKey(a)[|SnapshotPrefix|..];
    }
  }

  /** No snapshot key collides with the key of either list. */
  lemma SnapshotKeyIsNotAListKey(city: string)
    ensures SnapshotKey(city) != FavoritesKey
    ensures SnapshotKey(city) != RecentSearchesKey
  {
    assert SnapshotKey(city)[0] == 'w';
  }

  /** The origin's key-value store. */
  class LocalStorage {
    var items: map<string, StoredValue>

    constructor (initial: map<string, StoredValue>)
      ensures items == initial
    {
      items := initial;
    }

    /** `localStorage.setItem(key, value)`. */
    method SetItem(key: string, value: StoredValue)
      modifies this
      ensures items == old(items)[key := value]
    {
      items := items[key := value];
    }
  }

  /** The favorites list read back from storage: the stored list, or empty
      when the key is absent. */
  function LoadFavorites(items: map<string, StoredValue>): (r: seq<Favorite>)
    ensures FavoritesKey !in items ==> r == []
    ensures FavoritesKey in items && items[FavoritesKey].FavoritesValue? ==> r == items[FavoritesKey].favorites
  {
    if FavoritesKey in items && items[FavoritesKey].FavoritesValue? then items[FavoritesKey].favorites else []
  }

  /** The recent-searches list read back from storage: the stored list, or
      empty when the key is absent. */
  function LoadRecentSearches(items: map<string, StoredValue>): (r: seq<RecentSearch>)
    ensures RecentSearchesKey !in items ==> r == []
    ensures RecentSearchesKey in items && items[RecentSearchesKey].RecentValue? ==> r == items[RecentSearchesKey].searches
  {
    if RecentSearchesKey in items && items[RecentSearchesKey].RecentValue? then items[RecentSearchesKey].searches else []
  }

  /** The snapshot stored for `city`, if there is one. */
  function StoredSnapshot(items: map<string, StoredValue>, city: string): Option<WeatherData>
  {
    var key := SnapshotKey(city);
    if key in items && items[key].SnapshotValue? then Some(items[key].weather) else None
  }

  /** The store after a successful result for `city` has been persisted. */
  function WithSnapshot(items: map<string, StoredValue>, city: string, weather: WeatherData): map<string, StoredValue>
  {
    items[SnapshotKey(city) := SnapshotValue(weather)]
  }

  /** Persisting a result makes it the snapshot of every spelling of that city,
      leaves the snapshot of every other city and both lists untouched, and
      only ever adds keys. */
  lemma WithSnapshotIsolated(items: map<string, StoredValue>, city: string, weather: WeatherData, other: string)
    ensures SameCity(other, city) ==> StoredSnapshot(WithSnapshot(items, city, weather), other) == Some(weather)
    ensures !SameCity(other, city) ==> StoredSnapshot(WithSnapshot(items, city, weather), other) == StoredSnapshot(items, other)
    ensures LoadFavorites(WithSnapshot(items, city, weather)) == LoadFavorites(items)
    ensures LoadRecentSearches(WithSnapshot(items, city, weather)) == LoadRecentSearches(items)
    ensures WithSnapshot(items, city, weather).Keys == items.Keys + {SnapshotKey(city)}
  {
    SnapshotKeyIdentifiesCity(other, city);
    SnapshotKeyIsNotAListKey(city);
  }

  /** The snapshot effect of both weather cards: a live result overwrites the
      snapshot of the card's city; without one nothing is written. */
  method PersistSnapshot(store: LocalStorage, city: string, live: Option<WeatherData>)
    modifies store
    ensures live.Some? ==> store.items == WithSnapshot(old(store.items), city, live.value)
    ensures live.None? ==> store.items == old(store.items)
  {
    if live.Some? {
      store.SetItem(SnapshotKey(city), SnapshotValue(live.value));
    }
  }

  /** What a page shows: the live result if there is one, else the snapshot,
      else nothing. */
  function Displayed(live: Option<WeatherData>, snapshot: Option<WeatherData>): Option<WeatherData>
  {
    if live.Some? then live else snapshot
  }

  /** The offline marker: no live result, but a snapshot to fall back on. */
  predicate OfflineNotice(live: Option<WeatherData>, snapshot: Option<WeatherData>)
  {
    live.None? && snapshot.Some?
  }

  /** The marker shows exactly when something is displayed that did not come
      from the current fetch, and then what is displayed is the snapshot. */
  lemma OfflineIffSnapshotShown(live: Option<WeatherData>, snapshot: Option<WeatherData>)
    ensures OfflineNotice(live, snapshot) <==> Displayed(live, snapshot).Some? && live.None?
    ensures OfflineNotice(live, snapshot) ==> Displayed(live, snapshot) == snapshot
    ensures Displayed(live, snapshot).None? <==> live.None? && snapshot.None?
  {
  }

  /** A weather card (home page and favorites page) shows its live result if
      any, else the snapshot of its city, else nothing, and its offline line
      shows exactly when there is no live result but a snapshot exists. */
  lemma CardDisplayFallback(items: map<string, StoredValue>, city: string, live: Option<WeatherData>)
    ensures live.Some? ==> Displayed(live, StoredSnapshot(items, city)) == live
    ensures live.None? && SnapshotKey(city) in items && items[SnapshotKey(city)].SnapshotValue? ==>
      Displayed(live, StoredSnapshot(items, city)) == Some(items[SnapshotKey(city)].weather)
    ensures live.None? && SnapshotKey(city) !in items ==> Displayed(live, StoredSnapshot(items, city)) == None
    ensures OfflineNotice(live, StoredSnapshot(items, city)) <==>
      live.None? && SnapshotKey(city) in items && items[SnapshotKey(city)].SnapshotValue?
  {
  }

  /** A success for a city followed, on a later visit, by a failed fetch for
      any spelling of it shows the first result, marked offline. */
  lemma SnapshotServesLaterFailure(items: map<string, StoredValue>, city: string, weather: WeatherData, later: string)
    requires SameCity(later, city)
    ensures var snapshot := StoredSnapshot(WithSnapshot(items, city, weather), later);
      Displayed(None, snapshot) == Some(weather) && OfflineNotice(None, snapshot)
  {
    WithSnapshotIsolated(items, city, weather, later);
  }

  /** A city never fetched successfully (no snapshot) shows nothing and no
      offline marker when its fetch fails. */
  lemma NoSnapshotNoOfflineView(items: map<string, StoredValue>, city: string)
    requires SnapshotKey(city) !in items
    ensures Displayed(None, StoredSnapshot(items, city)) == None
    ensures !OfflineNotice(None, StoredSnapshot(items, city))
  {
  }
}
