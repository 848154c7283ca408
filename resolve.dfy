/** The resolution orchestrator `getWeatherData` (src/WeatherMap.js:1253-1422):
    the two providers tried in the preferred order, the second only when the
    first answers `null`, the city of the answer sanitised, and a record
    always returned, with `source` 'none' or 'error' as the fallbacks. */
module Resolve {
  import opened Wrappers
  import opened Text
  import opened Records
  import opened Geocode
  import opened OpenMeteo
  import opened Backend

  datatype Provider = OpenMeteoProvider | BackendProvider

  /** What the network would answer: each provider call does its own request
      and, when it needs a name, its own reverse-geocoding request. */
  datatype Network = Network(
    forecast: OmReply,
    forecastGeo: GeoReply,
    backend: BackendReply,
    backendGeo: GeoReply)

  /** `'backend-first'` puts the backend first; every other preference value
      (the default is 'open-meteo-first') puts Open-Meteo first. */
  function ProviderOrder(preference: string): (order: seq<Provider>)
    ensures |order| == 2 && order[0] != order[1]
    ensures order[0] == BackendProvider <==> preference == "backend-first"
  {
    if preference == "backend-first" then [BackendProvider, OpenMeteoProvider]
    else [OpenMeteoProvider, BackendProvider]
  }

  /** What one provider client returns. */
  function Answer(p: Provider, net: Network, known: Option<string>, lat: real, lon: real,
                  coordLabel: string): Option<WeatherRecord>
  {
    match p
    case OpenMeteoProvider => FetchOpenMeteo(net.forecast, known, net.forecastGeo, lat, lon, coordLabel)
    case BackendProvider => FetchBackend(net.backend, known, net.backendGeo, lat, lon)
  }

  /** The city of a degraded record: the sanitised known name, else the
      sanitised coordinate string. */
  function FallbackCity(known: Option<string>, coordLabel: string): string {
    Sanitize(known.GetOr(coordLabel))
  }

  /** "All providers failed": no conditions, `main = {}`, `raw = {}`. */
  function NoneRecord(known: Option<string>, coordLabel: string, lat: real, lon: real): WeatherRecord {
    WeatherRecord(FallbackCity(known, coordLabel), [], NoMeasurements, lat, lon, RawEmpty, NoneSource)
  }

  /** An unexpected exception, kept as `raw.error`. */
  function ErrorRecord(message: string, known: Option<string>, coordLabel: string, lat: real, lon: real): WeatherRecord {
    WeatherRecord(FallbackCity(known, coordLabel), [], NoMeasurements, lat, lon, RawError(message), ErrorSource)
  }

  /** `getWeatherData(lat, lon, knownCityName)`. `tried` lists the providers
      called, in order. `thrown` stands for an exception raised in the body
      outside the provider clients (which catch their own); the model raises it
      after the providers were tried. */
  method GetWeatherData(preference: string, lat: real, lon: real, known: Option<string>,
                        coordLabel: string, net: Network, thrown: Option<string>)
    returns (r: WeatherRecord, tried: seq<Provider>)
    ensures 1 <= |tried| <= 2
    ensures tried[0] == ProviderOrder(preference)[0]
    ensures |tried| == 2 <==> Answer(tried[0], net, known, lat, lon, coordLabel).None?
    ensures |tried| == 2 ==> tried[1] == ProviderOrder(preference)[1]
    ensures thrown.Some? ==> r == ErrorRecord(thrown.value, known, coordLabel, lat, lon)
    ensures thrown.None? ==>
              var last := Answer(tried[|tried| - 1], net, known, lat, lon, coordLabel);
              r == if last.Some? then last.value.(city := Sanitize(last.value.city))
                   else NoneRecord(known, coordLabel, lat, lon)
  {
    var order := ProviderOrder(preference);
    var result := Answer(order[0], net, known, lat, lon, coordLabel);
    tried := [order[0]];
    if result.None? {
      result := Answer(order[1], net, known, lat, lon, coordLabel);
      tried := tried + [order[1]];
    }
    if thrown.Some? {
      var city := SanitizeCityName(known.GetOr(coordLabel));
      return WeatherRecord(city, [], NoMeasurements, lat, lon, RawError(thrown.value), ErrorSource), tried;
    }
    if result.Some? {
      var city := SanitizeCityName(result.value.city);
      return result.value.(city := city), tried;
    }
    var city := SanitizeCityName(known.GetOr(coordLabel));
    r := WeatherRecord(city, [], NoMeasurements, lat, lon, RawEmpty, NoneSource);
  }
}
