/**
  Lists keyed by city name: membership and distinctness up to the
  case-insensitive comparison every page uses, over any record that names a
  city.
 */
module Cities {
  import opened Text

  /** `xs.some(x => cityOf(x).toLowerCase() === city.toLowerCase())`: some
      entry names the city, in any spelling. */
  function AnySameCity<T>(xs: seq<T>, cityOf: T -> string, city: string): (r: bool)
    ensures r <==> exists i :: 0 <= i < |xs| && SameCity(cityOf(xs[i]), city)
  {
    if xs == [] then false
    else SameCity(cityOf(xs[0]), city) || AnySameCity(xs[1..], cityOf, city)
  }

  /** No two entries name the same city, in any spelling. */
  ghost predicate DistinctCities<T>(xs: seq<T>, cityOf: T -> string)
  {
    forall i, j :: 0 <= i < j < |xs| ==> !SameCity(cityOf(xs[i]), cityOf(xs[j]))
  }
}
