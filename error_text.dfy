/**
  How fetch failures become the error text a page shows. A page picks its
  "not found" text exactly when an error message mentions the status `404`;
  whether that can happen depends on whether its fetcher replaces the
  transport error by a fixed message or lets it through.
 */
module ErrorText {
  import opened Text
  import opened Domain

  const NotFoundText := "Kota tidak ditemukan"
  const NotFoundStatus := "404"

  /** Message thrown by the wrapping current-weather fetcher, whatever went wrong. */
  const WeatherFetchFailedMessage := "Gagal mengambil data cuaca"
  /** Message thrown by the wrapping forecast fetcher, whatever went wrong. */
  const ForecastFetchFailedMessage := "Gagal mengambil data prakiraan"
  /** Message of the query function's rejection for a missing city. */
  const CityNotProvidedMessage := "City not provided"

  /** `message.includes('404')`. */
  predicate MentionsNotFound(message: string)
  {
    Contains(message, NotFoundStatus)
  }

  /** A fetcher that catches every error and rethrows `fixed` instead. */
  function Rethrowing<T>(outcome: FetchOutcome<T>, fixed: string): (r: FetchOutcome<T>)
    ensures outcome.Fetched? ==> r == outcome
    ensures r.FetchFailed? <==> outcome.FetchFailed?
    ensures r.FetchFailed? ==> r.message == fixed
  {
    match outcome
    case Fetched(_) => outcome
    case FetchFailed(_) => FetchFailed(fixed)
  }

  /** The error of a settled query, if it failed. */
  function ErrorOf<T>(outcome: FetchOutcome<T>): Option<string>
  {
    match outcome
    case Fetched(_) => None
    case FetchFailed(message) => Some(message)
  }

  /** A message without the digit 4 never mentions 404. */
  lemma NoFourNoNotFound(message: string)
    requires '4' !in message
    ensures !MentionsNotFound(message)
  {
    NoCharNoOccurrence(message, NotFoundStatus);
  }

  /** None of the fixed messages mentions the status 404 (none contains a '4'). */
  lemma FixedMessagesNeverNotFound()
    ensures !MentionsNotFound(WeatherFetchFailedMessage)
    ensures !MentionsNotFound(ForecastFetchFailedMessage)
    ensures !MentionsNotFound(CityNotProvidedMessage)
  {
    NoFourNoNotFound(WeatherFetchFailedMessage);
    NoFourNoNotFound(ForecastFetchFailedMessage);
    NoFourNoNotFound(CityNotProvidedMessage);
  }

  /** Behind a rethrowing fetcher no error ever mentions 404, whatever the
      network reported. */
  lemma RethrownErrorsNeverNotFound<T>(outcome: FetchOutcome<T>)
    ensures var r := Rethrowing(outcome, WeatherFetchFailedMessage);
      r.FetchFailed? ==> !MentionsNotFound(r.message)
    ensures var r := Rethrowing(outcome, ForecastFetchFailedMessage);
      r.FetchFailed? ==> !MentionsNotFound(r.message)
  {
    FixedMessagesNeverNotFound();
  }

  /** The message axios rejects with on an HTTP 404 answer does mention 404. */
  lemma AxiosStatusMessageMentionsNotFound()
    ensures MentionsNotFound("Request failed with status code 404")
  {
    ContainsEmbedded("Request failed with status code ", NotFoundStatus, "");
    assert "Request failed with status code " + NotFoundStatus + "" == "Request failed with status code 404";
  }
}
