/**
  Client code that drives the components the way the pages do and shows
  what their specifications alone let a caller conclude.
 */
module Scenarios {
  import opened Domain
  import opened Storage
  import opened FavoritesContext
  import opened WeatherPage

  /** On the detail page of a city that is not a favorite, where the shown
      name is that city, clicking the heart twice restores the favorites and
      leaves the recent-searches log as it was. */
  method FavoriteThenUnfavorite(provider: FavoritesProvider, decodedCity: string, shown: WeatherData)
    requires provider.Valid()
    requires decodedCity != "" && Text.SameCity(shown.name, decodedCity)
    requires !IsFavorite(decodedCity, provider.favorites)
    modifies provider, provider.storage
    ensures provider.Valid()
    ensures provider.favorites == old(provider.favorites)
    ensures LoadRecentSearches(provider.storage.items) == LoadRecentSearches(old(provider.storage.items))
  {
    ghost var favorites := provider.favorites;
    assert FavoritesKey != RecentSearchesKey;
    assert !HasCity(favorites, shown.name);
    ToggleFlipsWhenNamesAgree(favorites, decodedCity, shown);
    ToggleFavorite(provider, IsFavorite(decodedCity, provider.favorites), shown);
    assert provider.favorites == WithFavorite(favorites, shown.name, shown.country);
    ToggleFavorite(provider, IsFavorite(decodedCity, provider.favorites), shown);
    AddThenRemoveRestores(favorites, shown.name, shown.country, shown.name);
  }

  /** A search for a city on an empty store is logged alone; favoriting and
      then unfavoriting the shown city, when the provider gave back that
      city's name, leaves the log as it was and the favorites empty again. */
  method SearchThenFavoriteThenUnfavorite(city: string, weather: WeatherData)
    requires city != "" && Text.SameCity(weather.name, city)
  {
    var store := new LocalStorage(map[]);
    var provider := new FavoritesProvider(store);
    assert provider.favorites == [];
    PersistFetchedWeather(store, city, Some(weather));
    SnapshotKeyIsNotAListKey(city);
    var log := LoadRecentSearches(store.items);
    assert log == [RecentSearch(city)];
    FavoriteThenUnfavorite(provider, city, weather);
    assert provider.favorites == [];
    assert LoadRecentSearches(store.items) == log;
  }

  /** A success for "Paris" followed by a failed fetch on a later visit to
      "paris" shows the first result, marked offline. */
  method SnapshotAfterFailure(paris: WeatherData)
  {
    var store := new LocalStorage(map[]);
    PersistFetchedWeather(store, "Paris", Some(paris));
    assert Text.SameCity("paris", "Paris");
    DetailDisplayFallback(store.items, "paris", None);
    SnapshotServesLaterFailure(map[], "Paris", paris, "paris");
    assert StoredSnapshot(store.items, "paris") == Some(paris);
    assert Displayed(None, PageSnapshot(store.items, "paris")) == Some(paris);
    assert OfflineNotice(None, PageSnapshot(store.items, "paris"));
  }
}
