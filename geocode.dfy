/** Reverse geocoding (src/WeatherMap.js:1232-1250): the place name chosen
    from a Nominatim answer. The request itself is the `GeoReply` input. */
module Geocode {
  import opened Wrappers

  datatype Address = Address(
    city: Option<string>,
    town: Option<string>,
    village: Option<string>,
    county: Option<string>)

  const NoAddress := Address(None, None, None, None)

  /** A non-success status or a thrown request is `GeoFailed`. */
  datatype GeoReply = GeoFailed | GeoBody(address: Option<Address>, display_name: Option<string>)

  /** The candidates in the order of the `??` chain, `address ?? {}` first. */
  function PlaceCandidates(g: GeoReply): (cs: seq<Option<string>>)
    requires g.GeoBody?
    ensures |cs| == 5
  {
    var a := g.address.GetOr(NoAddress);
    [a.city, a.town, a.village, a.county, g.display_name]
  }

  /** `reverseGeocode`: city, else town, else village, else county, else the
      display name, else `null`; a failed request is `null`. */
  function ReverseGeocode(g: GeoReply): (place: Option<string>)
    ensures g.GeoFailed? ==> place.None?
    ensures g.GeoBody? ==>
              (place.None? <==> forall k :: 0 <= k < 5 ==> PlaceCandidates(g)[k].None?)
    ensures g.GeoBody? && place.Some? ==>
              exists k :: 0 <= k < 5 && PlaceCandidates(g)[k] == place &&
                          forall j :: 0 <= j < k ==> PlaceCandidates(g)[j].None?
  {
    match g
    case GeoFailed => None
    case GeoBody(_, _) => FirstSome(PlaceCandidates(g))
  }

  /** The city of the address wins over every other field. */
  lemma CityWins(a: Address, display: Option<string>)
    requires a.city.Some?
    ensures ReverseGeocode(GeoBody(Some(a), display)) == a.city
  {
    var cs := PlaceCandidates(GeoBody(Some(a), display));
    assert cs[0] == a.city;
  }

  /** Without an address the display name is used. */
  lemma DisplayNameFallback(display: Option<string>)
    ensures ReverseGeocode(GeoBody(None, display)) == display
  {
    var cs := PlaceCandidates(GeoBody(None, display));
    assert cs == [None, None, None, None, display];
    assert FirstSome(cs) == FirstSome(cs[1..]) == FirstSome(cs[2..]) == FirstSome(cs[3..]) == FirstSome(cs[4..]);
  }
}
