/**
 * `getAddressFromLocation`: a non-blank address as given; otherwise, with
 * both coordinates non-zero, the reverse geocoder's first result or, failing
 * that, the signed coordinates at four decimals; otherwise a fixed text. The
 * geocoder's answer is a parameter.
 */
module AdminActions {
  import opened Wrappers
  import opened Text
  import opened LocationUtils

  /** What the geocoding request yields: a thrown error, or a response and its `results`. */
  datatype GeocodeAnswer = NetworkError | Response(ok: bool, results: Option<seq<string>>)

  /** `response.ok && data.results && data.results.length > 0` */
  predicate HasResult(answer: GeocodeAnswer) {
    answer.Response? && answer.ok && answer.results.Some? && |answer.results.value| > 0
  }

  /**
   * `${lat.toFixed(4)}, ${lng.toFixed(4)}`: toFixed writes no comma, so the
   * text splits back at its first comma into the latitude and the longitude.
   */
  function CoordinateFallback(lat: real, lng: real): (text: string)
    ensures BeforeFirst(text, ',') == ToFixed(lat, 4)
    ensures text[|ToFixed(lat, 4)|..] == ", " + ToFixed(lng, 4)
  {
    ToFixedHasNoComma(lat, 4);
    CommaJoin(ToFixed(lat, 4), ToFixed(lng, 4));
    ToFixed(lat, 4) + ", " + ToFixed(lng, 4)
  }

  lemma CommaJoin(a: string, b: string)
    requires ',' !in a
    ensures BeforeFirst(a + ", " + b, ',') == a
    ensures (a + ", " + b)[|a|..] == ", " + b
  {
    BeforeFirstOfJoin(a, " " + b, ',');
    assert a + ", " + b == a + [','] + (" " + b);
  }

  function GetAddressFromLocation(address: Option<string>, lat: Option<real>, lng: Option<real>,
                                  geocode: GeocodeAnswer): (text: string)
    ensures HasText(address) ==> text == address.value
    ensures !HasText(address) && Truthy(lat) && Truthy(lng) ==>
      text == if HasResult(geocode) then geocode.results.value[0] else CoordinateFallback(lat.value, lng.value)
    ensures !HasText(address) && !(Truthy(lat) && Truthy(lng)) ==> text == "Location not specified"
  {
    if HasText(address) then address.value
    else if Truthy(lat) && Truthy(lng) then
      if HasResult(geocode) then geocode.results.value[0] else CoordinateFallback(lat.value, lng.value)
    else "Location not specified"
  }

  /**
   * A geocoder that throws, answers with an error status, or finds nothing
   * all lead to the same coordinate text: the error never reaches the caller.
   */
  lemma GeocoderFailuresFallBack(address: Option<string>, lat: Option<real>, lng: Option<real>, results: Option<seq<string>>)
    ensures GetAddressFromLocation(address, lat, lng, NetworkError)
         == GetAddressFromLocation(address, lat, lng, Response(false, results))
         == GetAddressFromLocation(address, lat, lng, Response(true, None))
         == GetAddressFromLocation(address, lat, lng, Response(true, Some([])))
  {
  }

  /** The geocoder's answer matters only when there is no address and both coordinates are non-zero. */
  lemma GeocoderConsultedOnlyForCoordinates(address: Option<string>, lat: Option<real>, lng: Option<real>,
                                            a: GeocodeAnswer, b: GeocodeAnswer)
    requires HasText(address) || !(Truthy(lat) && Truthy(lng))
    ensures GetAddressFromLocation(address, lat, lng, a) == GetAddressFromLocation(address, lat, lng, b)
  {
  }

  /** Unlike the display helper, the fallback keeps the sign: a western longitude starts with '-'. */
  lemma FallbackKeepsSign(lat: real, lng: real)
    requires lat > 0.0 && lng < 0.0
    ensures var text := CoordinateFallback(lat, lng);
      text[0] != '-' && text[|ToFixed(lat, 4)| + 2] == '-'
  {
    var t := CoordinateFallback(lat, lng);
    var left := ToFixed(lat, 4);
    RenderScaledChars(ScaledRound(lat, 4), 4);
    RenderScaledDenotes(ScaledRound(lat, 4), 4);
    assert left[0] in left;
    assert t[0] == left[0];
    assert t[|left| + 2] == ToFixed(lng, 4)[0];
  }

  /** A padded address is returned with its padding. */
  lemma AddressReturnedUntrimmed()
    ensures GetAddressFromLocation(Some(" 12 Main St "), None, None, NetworkError) == " 12 Main St "
  {
    assert !IsJsWhitespace(" 12 Main St "[1]);
  }
}
