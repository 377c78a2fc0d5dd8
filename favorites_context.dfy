/**
  The favorites store shared by every page: an insertion-ordered list of
  (city, country) pairs, keyed by the city compared case-insensitively,
  loaded from the `favorites` storage key and written back to it after every
  change.
 */
module FavoritesContext {
  import opened Text
  import opened Cities
  import opened Domain
  import opened Storage

  /** The city a favorite is keyed by. */
  function FavoriteCity(favorite: Favorite): string
  {
    favorite.city
  }

  /** `favorites.some(fav => fav.city.toLowerCase() === city.toLowerCase())`. */
  function HasCity(favorites: seq<Favorite>, city: string): (r: bool)
    ensures r <==> exists i :: 0 <= i < |favorites| && SameCity(favorites[i].city, city)
  {
    AnySameCity(favorites, FavoriteCity, city)
  }

  /** No two favorites name the same city. */
  ghost predicate UniqueCities(favorites: seq<Favorite>)
  {
    DistinctCities(favorites, FavoriteCity)
  }

  /** The list after `addFavorite(city, country)`: unchanged when the city is
      already there in any spelling (its country is not updated), otherwise
      the new pair appended after every earlier entry. */
  function WithFavorite(favorites: seq<Favorite>, city: string, country: string): (r: seq<Favorite>)
    ensures (exists i :: 0 <= i < |favorites| && SameCity(favorites[i].city, city)) ==> r == favorites
    ensures (forall i :: 0 <= i < |favorites| ==> !SameCity(favorites[i].city, city)) ==>
      |r| == |favorites| + 1 && r[..|favorites|] == favorites && r[|favorites|] == Favorite(city, country)
  {
    if HasCity(favorites, city) then favorites else favorites + [Favorite(city, country)]
  }

  /** The list after `removeFavorite(city)`: the entries whose city differs
      from `city` in lowercase, in their original order. */
  function WithoutFavorite(favorites: seq<Favorite>, city: string): (r: seq<Favorite>)
    ensures |r| <= |favorites|
    ensures forall i :: 0 <= i < |r| ==> !SameCity(r[i].city, city)
    ensures forall f :: f in r <==> f in favorites && !SameCity(f.city, city)
  {
    if favorites == [] then []
    else if SameCity(favorites[0].city, city) then WithoutFavorite(favorites[1..], city)
    else [favorites[0]] + WithoutFavorite(favorites[1..], city)
  }

  /** Removal filters a concatenation piecewise, so it keeps the relative
      order of the surviving entries. */
  lemma {:induction false} WithoutFavoriteConcat(a: seq<Favorite>, b: seq<Favorite>, city: string)
    ensures WithoutFavorite(a + b, city) == WithoutFavorite(a, city) + WithoutFavorite(b, city)
  {
    if a == [] {
      assert a + b == b;
    } else {
      var ab := a + b;
      assert ab[0] == a[0] && ab[1..] == a[1..] + b;
      WithoutFavoriteConcat(a[1..], b, city);
      var restA, restB := WithoutFavorite(a[1..], city), WithoutFavorite(b, city);
      assert WithoutFavorite(ab[1..], city) == restA + restB;
      if !SameCity(a[0].city, city) {
        assert WithoutFavorite(ab, city) == [a[0]] + (restA + restB);
        assert [a[0]] + (restA + restB) == ([a[0]] + restA) + restB;
      }
    }
  }

  /** Removing a city that is not there changes nothing. */
  lemma {:induction false} WithoutAbsentFavorite(favorites: seq<Favorite>, city: string)
    requires !HasCity(favorites, city)
    ensures WithoutFavorite(favorites, city) == favorites
  {
    if favorites != [] {
      WithoutAbsentFavorite(favorites[1..], city);
    }
  }

  /** Adding the same city again, in any spelling and with any country, gives
      the list the first addition gave. */
  lemma WithFavoriteIdempotent(favorites: seq<Favorite>, city: string, country: string, again: string, country2: string)
    requires SameCity(again, city)
    ensures WithFavorite(WithFavorite(favorites, city, country), again, country2) == WithFavorite(favorites, city, country)
  {
    var once := WithFavorite(favorites, city, country);
    if !HasCity(favorites, city) {
      assert once[|favorites|].city == city;
    }
    assert HasCity(once, again);
  }

  /** After an addition the city is a favorite in every spelling. */
  lemma AddedCityIsFavorite(favorites: seq<Favorite>, city: string, country: string, query: string)
    requires SameCity(query, city)
    ensures HasCity(WithFavorite(favorites, city, country), query)
  {
    var once := WithFavorite(favorites, city, country);
    if !HasCity(favorites, city) {
      assert once[|favorites|].city == city;
    }
  }

  /** Adding keeps the cities of the list pairwise distinct. */
  lemma WithFavoriteKeepsUnique(favorites: seq<Favorite>, city: string, country: string)
    requires UniqueCities(favorites)
    ensures UniqueCities(WithFavorite(favorites, city, country))
  {
    var r := WithFavorite(favorites, city, country);
    if !HasCity(favorites, city) {
      forall i, j | 0 <= i < j < |r|
        ensures !SameCity(r[i].city, r[j].city)
      {
        if j == |favorites| {
          assert r[i] == favorites[i];
        } else {
          assert r[i] == favorites[i] && r[j] == favorites[j];
        }
      }
    }
  }

  /** The tail of a list without duplicate cities has none either. */
  lemma UniqueTail(favorites: seq<Favorite>)
    requires favorites != [] && UniqueCities(favorites)
    ensures UniqueCities(favorites[1..])
  {
    var tail := favorites[1..];
    forall i, j | 0 <= i < j < |tail|
      ensures !SameCity(FavoriteCity(tail[i]), FavoriteCity(tail[j]))
    {
      assert tail[i] == favorites[i + 1] && tail[j] == favorites[j + 1];
    }
  }

  /** A city unlike every city of a duplicate-free list can go in front of it. */
  lemma UniqueCons(head: Favorite, rest: seq<Favorite>)
    requires UniqueCities(rest)
    requires forall k :: 0 <= k < |rest| ==> !SameCity(head.city, rest[k].city)
    ensures UniqueCities([head] + rest)
  {
    var r := [head] + rest;
    forall i, j | 0 <= i < j < |r|
      ensures !SameCity(FavoriteCity(r[i]), FavoriteCity(r[j]))
    {
      assert r[j] == rest[j - 1];
      if i > 0 {
        assert r[i] == rest[i - 1];
      }
    }
  }

  /** The first favorite is unlike every favorite kept from the rest. */
  lemma HeadUnlikeFilteredTail(favorites: seq<Favorite>, city: string)
    requires favorites != [] && UniqueCities(favorites)
    ensures forall k :: 0 <= k < |WithoutFavorite(favorites[1..], city)| ==>
      !SameCity(favorites[0].city, WithoutFavorite(favorites[1..], city)[k].city)
  {
    var tail := favorites[1..];
    var rest := WithoutFavorite(tail, city);
    forall k | 0 <= k < |rest|
      ensures !SameCity(favorites[0].city, rest[k].city)
    {
      assert rest[k] in tail;
      var m :| 0 <= m < |tail| && tail[m] == rest[k];
      assert favorites[m + 1] == rest[k];
      assert !SameCity(FavoriteCity(favorites[0]), FavoriteCity(favorites[m + 1]));
    }
  }

  /** Removing keeps the cities of the list pairwise distinct. */
  lemma {:induction false} WithoutFavoriteKeepsUnique(favorites: seq<Favorite>, city: string)
    requires UniqueCities(favorites)
    ensures UniqueCities(WithoutFavorite(favorites, city))
  {
    if favorites != [] {
      UniqueTail(favorites);
      WithoutFavoriteKeepsUnique(favorites[1..], city);
      if !SameCity(favorites[0].city, city) {
        HeadUnlikeFilteredTail(favorites, city);
        UniqueCons(favorites[0], WithoutFavorite(favorites[1..], city));
      }
    }
  }

  /** Adding a city that was not a favorite and then removing it, in any
      spelling, restores the original list. */
  lemma AddThenRemoveRestores(favorites: seq<Favorite>, city: string, country: string, removed: string)
    requires !HasCity(favorites, city)
    requires SameCity(removed, city)
    ensures WithoutFavorite(WithFavorite(favorites, city, country), removed) == favorites
  {
    WithoutFavoriteConcat(favorites, [Favorite(city, country)], removed);
    assert !HasCity(favorites, removed);
    WithoutAbsentFavorite(favorites, removed);
  }

  /** The provider: the favorites state and the storage it mirrors. */
  class FavoritesProvider {
    var favorites: seq<Favorite>
    const storage: LocalStorage

    /** The persistence effect has run: storage holds the current list. */
    ghost predicate Valid()
      reads this, storage
    {
      storage.items == storage.items[FavoritesKey := FavoritesValue(favorites)]
    }

    /** Mounting: the state starts as the stored list (empty when the key is
        absent) and the effect then writes it back. */
    constructor (storage: LocalStorage)
      modifies storage
      ensures this.storage == storage
      ensures favorites == LoadFavorites(old(storage.items))
      ensures storage.items == old(storage.items)[FavoritesKey := FavoritesValue(favorites)]
      ensures Valid()
    {
      this.storage := storage;
      favorites := LoadFavorites(storage.items);
      new;
      storage.SetItem(FavoritesKey, FavoritesValue(favorites));
    }

    /** `addFavorite(city, country)` followed by the persistence effect. */
    method AddFavorite(city: string, country: string)
      requires Valid()
      modifies this, storage
      ensures favorites == WithFavorite(old(favorites), city, country)
      ensures storage.items == old(storage.items)[FavoritesKey := FavoritesValue(favorites)]
      ensures Valid()
    {
      favorites := WithFavorite(favorites, city, country);
      storage.SetItem(FavoritesKey, FavoritesValue(favorites));
    }

    /** `removeFavorite(city)` followed by the persistence effect. */
    method RemoveFavorite(city: string)
      requires Valid()
      modifies this, storage
      ensures favorites == WithoutFavorite(old(favorites), city)
      ensures storage.items == old(storage.items)[FavoritesKey := FavoritesValue(favorites)]
      ensures Valid()
    {
      favorites := WithoutFavorite(favorites, city);
      storage.SetItem(FavoritesKey, FavoritesValue(favorites));
    }
  }

  /** The favorites after a heart button is clicked while `shown` is on
      screen: the shown name is removed when the heart is filled, otherwise
      the shown name and country are added. */
  function Toggled(favorites: seq<Favorite>, isFavorite: bool, shown: WeatherData): seq<Favorite>
  {
    if isFavorite then WithoutFavorite(favorites, shown.name)
    else WithFavorite(favorites, shown.name, shown.country)
  }

  /** The click handler of the heart button on every page, acting on the provider. */
  method ToggleFavorite(provider: FavoritesProvider, isFavorite: bool, shown: WeatherData)
    requires provider.Valid()
    modifies provider, provider.storage
    ensures provider.Valid()
    ensures provider.favorites == Toggled(old(provider.favorites), isFavorite, shown)
    ensures provider.storage.items == old(provider.storage.items)[FavoritesKey := FavoritesValue(provider.favorites)]
  {
    if isFavorite {
      provider.RemoveFavorite(shown.name);
    } else {
      provider.AddFavorite(shown.name, shown.country);
    }
  }

  /** While the provider is mounted, reading the store back gives exactly the
      current list, and nothing under another key depends on it. */
  lemma PersistedListReloads(items: map<string, StoredValue>, favorites: seq<Favorite>)
    requires items == items[FavoritesKey := FavoritesValue(favorites)]
    ensures LoadFavorites(items) == favorites
  {
    assert FavoritesKey in items[FavoritesKey := FavoritesValue(favorites)];
  }

  const OutsideProviderMessage := "useFavorites must be used within FavoritesProvider"

  /** `useFavorites()`: the provider's value, or the error thrown when the
      component is rendered outside any provider. */
  function UseFavorites(context: Option<FavoritesProvider>): (r: Result<FavoritesProvider>)
    ensures r.Ok? <==> context.Some?
    ensures r.Ok? ==> r.value == context.value
    ensures r.Err? ==> r.message == OutsideProviderMessage
  {
    match context
    case Some(provider) => Ok(provider)
    case None => Err(OutsideProviderMessage)
  }
}
