/**
  The home page: a weather card per favorite and per recent search, the
  recent-searches list it loads from storage, and the card's own rules —
  the heart state, the error alert and the link to the detail page. The
  card's snapshot effect and display are `Storage.PersistSnapshot` and
  `Storage.Displayed`.
 */
module HomePage {
  import opened Text
  import opened Domain
  import opened Storage
  import opened ErrorText
  import opened FavoritesContext

  /** The heart state of a card: the `isFavorite` prop when the page passes
      one (favorite cards pass true), else case-insensitive membership of the
      card's city in the favorites. */
  function IsFav(isFavoriteProp: Option<bool>, favorites: seq<Favorite>, city: string): (r: bool)
    ensures isFavoriteProp.Some? ==> r == isFavoriteProp.value
    ensures isFavoriteProp.None? ==> (r <==> exists i :: 0 <= i < |favorites| && SameCity(favorites[i].city, city))
  {
    match isFavoriteProp
    case Some(b) => b
    case None => HasCity(favorites, city)
  }

  /** On a favorite card the heart is filled, so a click removes the shown city. */
  lemma FavoriteCardClickRemoves(favorites: seq<Favorite>, city: string, shown: WeatherData)
    ensures Toggled(favorites, IsFav(Some(true), favorites, city), shown) == WithoutFavorite(favorites, shown.name)
  {
  }

  /** The card's query: the network outcome behind the fetcher that replaces
      every error by a fixed message (the query is always enabled). */
  function CardQuery(network: FetchOutcome<WeatherData>): (r: FetchOutcome<WeatherData>)
    ensures network.Fetched? ==> r == network
    ensures r.FetchFailed? <==> network.FetchFailed?
    ensures r.FetchFailed? ==> r.message == WeatherFetchFailedMessage
  {
    Rethrowing(network, WeatherFetchFailedMessage)
  }

  /** The card's alert: none without an error; the not-found text exactly
      when the message mentions 404; the fetch-failed text otherwise. */
  function CardAlert(query: FetchOutcome<WeatherData>): (r: Option<string>)
    ensures r.Some? <==> query.FetchFailed?
    ensures r == Some(NotFoundText) <==> query.FetchFailed? && MentionsNotFound(query.message)
    ensures query.FetchFailed? && !MentionsNotFound(query.message) ==> r == Some(WeatherFetchFailedMessage)
  {
    match query
    case Fetched(_) => None
    case FetchFailed(message) =>
      Some(if MentionsNotFound(message) then NotFoundText else WeatherFetchFailedMessage)
  }

  /** Whatever the network reports, a home card never says the city was not
      found: a failure always shows the fetch-failed text. */
  lemma CardNotFoundUnreachable(network: FetchOutcome<WeatherData>)
    ensures CardAlert(CardQuery(network)) != Some(NotFoundText)
    ensures network.FetchFailed? ==> CardAlert(CardQuery(network)) == Some(WeatherFetchFailedMessage)
  {
    FixedMessagesNeverNotFound();
  }

  /** Where a card links: the detail route of the displayed weather's name
      when there is one and it is not empty, otherwise of the card's city. */
  function LinkTarget(displayed: Option<WeatherData>, city: string): (r: Route)
    ensures displayed.Some? && displayed.value.name != "" ==> r == WeatherRoute(displayed.value.name)
    ensures displayed.None? || displayed.value.name == "" ==> r == WeatherRoute(city)
    ensures r.city == "" ==> city == ""
  {
    if displayed.Some? && displayed.value.name != "" then WeatherRoute(displayed.value.name) else WeatherRoute(city)
  }

  /** A card whose city was fetched before links, even offline, to the name
      the provider gave that snapshot. */
  lemma OfflineCardLinksToSnapshotName(items: map<string, StoredValue>, city: string, weather: WeatherData)
    requires weather.name != ""
    ensures LinkTarget(Displayed(None, StoredSnapshot(WithSnapshot(items, city, weather), city)), city) == WeatherRoute(weather.name)
  {
    SnapshotServesLaterFailure(items, city, weather, city);
  }
}
