/**
  The search form: the text typed so far, the autocomplete suggestions, and
  the handlers that update them and navigate to the detail page.
 */
module SearchPage {
  import opened Text
  import opened Domain

  /** Queries shorter than this are not sent to the geocoding lookup. */
  const MinQueryLength := 3

  /** The error notification shown when the suggestion lookup fails. */
  const SuggestionErrorText := "Gagal mengambil saran kota"
  /** The warning shown when the form is submitted without a city. */
  const EmptyCityWarningText := "Masukkan nama kota terlebih dahulu"

  /** `response.data.map(item => item.name)`: the names of the lookup's
      results, in response order. */
  function SuggestionNames(results: seq<GeoResult>): (r: seq<string>)
    ensures |r| == |results|
    ensures forall i :: 0 <= i < |results| ==> r[i] == results[i].name
  {
    if results == [] then [] else [results[0].name] + SuggestionNames(results[1..])
  }

  /** What submitting the form does: show a warning, or navigate. */
  datatype SubmitOutcome = Warned(text: string) | Navigated(route: Route)

  /** The form's state. */
  class SearchForm {
    var city: string
    var suggestions: seq<string>

    /** A fresh form: nothing typed, nothing suggested. */
    constructor ()
      ensures city == "" && suggestions == []
    {
      city, suggestions := "", [];
    }

    /** `fetchSuggestions(query)`: a query shorter than three characters
        clears the suggestions and sends no request; otherwise the lookup is
        sent and its outcome decides the suggestions — the result names on
        success, none and an error notification on failure. Returns whether
        a request was sent and the notification shown, if any. */
    method FetchSuggestions(query: string, lookup: FetchOutcome<seq<GeoResult>>) returns (requested: bool, alert: Option<string>)
      modifies this
      ensures requested <==> |query| >= MinQueryLength
      ensures city == old(city)
      ensures !requested ==> suggestions == []
      ensures requested && lookup.Fetched? ==> suggestions == SuggestionNames(lookup.data)
      ensures requested && lookup.FetchFailed? ==> suggestions == []
      ensures alert.Some? <==> requested && lookup.FetchFailed?
      ensures alert.Some? ==> alert.value == SuggestionErrorText
    {
      if |query| < MinQueryLength {
        suggestions := [];
        return false, None;
      }
      requested := true;
      match lookup {
        case Fetched(results) =>
          suggestions := SuggestionNames(results);
          alert := None;
        case FetchFailed(_) =>
          suggestions := [];
          alert := Some(SuggestionErrorText);
      }
    }

    /** The input's change handler: the typed text becomes the city and is
        sent for suggestions. */
    method ChangeInput(value: string, lookup: FetchOutcome<seq<GeoResult>>) returns (requested: bool, alert: Option<string>)
      modifies this
      ensures city == value
      ensures requested <==> |value| >= MinQueryLength
      ensures !requested || lookup.FetchFailed? ==> suggestions == []
      ensures requested && lookup.Fetched? ==> suggestions == SuggestionNames(lookup.data)
      ensures alert == if requested && lookup.FetchFailed? then Some(SuggestionErrorText) else None
    {
      city := value;
      requested, alert := FetchSuggestions(value, lookup);
    }

    /** `handleSearch`: a city that is blank after trimming only raises the
        empty-city warning; any other navigates to the detail route of the trimmed city.
        The form's state is not changed. */
    method HandleSearch() returns (outcome: SubmitOutcome)
      ensures outcome.Warned? <==> IsBlank(city)
      ensures outcome.Warned? ==> outcome.text == EmptyCityWarningText
      ensures outcome.Navigated? ==> outcome.route == WeatherRoute(Trim(city)) && outcome.route.city != ""
    {
      var trimmed := Trim(city);
      if trimmed == "" {
        return Warned(EmptyCityWarningText);
      }
      return Navigated(WeatherRoute(trimmed));
    }

    /** `handleSuggestionClick(suggestion)`: the suggestion becomes the city,
        the suggestions are cleared, and the page navigates to its route. */
    method HandleSuggestionClick(suggestion: string) returns (route: Route)
      modifies this
      ensures city == suggestion && suggestions == []
      ensures route == WeatherRoute(suggestion)
    {
      city := suggestion;
      suggestions := [];
      route := WeatherRoute(suggestion);
    }
  }
}
