/**
  The favorites page: one weather card per favorite. Unlike the other
  pages its fetchers let the transport error through unchanged, so its
  inline error can say the city was not found. The card's snapshot effect,
  display and forecast sample are `Storage.PersistSnapshot`,
  `Storage.Displayed` and `Forecast.DailyForecast`.
 */
module FavoritesPage {
  import opened Text
  import opened Domain
  import opened ErrorText
  import opened FavoritesContext

  const OtherErrorText := "Terjadi kesalahan"

  /** The heart state of a card: case-insensitive membership of its city. */
  function CardIsFavorite(favorites: seq<Favorite>, city: string): (r: bool)
    ensures r <==> exists i :: 0 <= i < |favorites| && SameCity(favorites[i].city, city)
  {
    HasCity(favorites, city)
  }

  /** Every card on this page belongs to a favorite, so its heart is filled. */
  lemma ListedCardsAreFavorites(favorites: seq<Favorite>, k: nat)
    requires k < |favorites|
    ensures CardIsFavorite(favorites, favorites[k].city)
  {
  }

  /** The card's inline error for its raw query outcome: nothing without an
      error; the not-found text exactly when the message mentions 404; the
      generic text otherwise. */
  function CardErrorText(query: FetchOutcome<WeatherData>): (r: Option<string>)
    ensures r.Some? <==> query.FetchFailed?
    ensures r == Some(NotFoundText) <==> query.FetchFailed? && MentionsNotFound(query.message)
    ensures query.FetchFailed? && !MentionsNotFound(query.message) ==> r == Some(OtherErrorText)
  {
    match query
    case Fetched(_) => None
    case FetchFailed(message) =>
      Some(if MentionsNotFound(message) then NotFoundText else OtherErrorText)
  }

  /** The error axios raises for an HTTP 404 answer reaches the card
      unchanged and is shown as "not found". */
  lemma AxiosNotFoundIsShown()
    ensures CardErrorText(FetchFailed("Request failed with status code 404")) == Some(NotFoundText)
  {
    AxiosStatusMessageMentionsNotFound();
  }
}
