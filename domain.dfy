/**
  The values the client passes around: favorites, recent-search entries,
  the provider's current-weather and forecast payloads, the typed contents of
  browser storage, routes and fetch outcomes.
 */
module Domain {

  datatype Option<T> = None | Some(value: T)

  /** A value, or the message of the error that was thrown instead. */
  datatype Result<T> = Ok(value: T) | Err(message: string)

  /** A favorited city; the city name (case-insensitive) is its key. */
  datatype Favorite = Favorite(city: string, country: string)

  /** One entry of the recent-searches log. */
  datatype RecentSearch = RecentSearch(city: string)

  /** The measured part of a current-weather response, carried but never
      interpreted (temperatures and wind are floating point in the source). */
  datatype Conditions = Conditions(
    temp: real, feelsLike: real, humidity: real, windSpeed: real,
    description: string, icon: string)

  /** A current-weather response: the provider's city name, its country code
      and the conditions. */
  datatype WeatherData = WeatherData(name: string, country: string, conditions: Conditions)

  /** One 3-hourly entry of a forecast response. */
  datatype ForecastEntry = ForecastEntry(
    dt: int, tempMin: real, tempMax: real, description: string, icon: string)

  /** What a storage key holds, with the JSON encoding abstracted away:
      the favorites list, the recent-searches list or a weather snapshot. */
  datatype StoredValue =
    | FavoritesValue(favorites: seq<Favorite>)
    | RecentValue(searches: seq<RecentSearch>)
    | SnapshotValue(weather: WeatherData)

  /** The detail route `/weather/` followed by the URI-encoded city; the
      detail page decodes it back to `city`. */
  datatype Route = WeatherRoute(city: string)

  /** The settled outcome of one network request: the response body, or the
      message of the error it was rejected with. */
  datatype FetchOutcome<T> = Fetched(data: T) | FetchFailed(message: string)

  /** One result of the geocoding lookup (only its name is used). */
  datatype GeoResult = GeoResult(name: string)
}
