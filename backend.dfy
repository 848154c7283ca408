/** The backend provider client `fetchBackend` (src/WeatherMap.js:1325-1376)
    once the request is replaced by its outcome: the name it needs, the
    response shapes it tries in order, the wind-field coalescing, the city
    precedence and the rejection of empty answers. */
module Backend {
  import opened Wrappers
  import opened Records
  import opened Geocode

  /** JavaScript truthiness of an optional string: present and non-empty. */
  predicate Truthy(s: Option<string>) {
    s.Some? && s.value != ""
  }

  /** The name the request is keyed by: the known name, else (when that is
      falsy) the reverse-geocoded place. */
  function TargetCity(known: Option<string>, geo: GeoReply): Option<string> {
    if Truthy(known) then known else ReverseGeocode(geo)
  }

  /** `json?.data ?? json?.result ?? json` */
  function Unwrap(env: BackendEnvelope): BackendPayload {
    FirstSome([env.data, env.result, Some(env.body)]).GetOr(env.body)
  }

  function LocationName(d: BackendPayload): Option<string> {
    if d.location.Some? then d.location.value.name else None
  }

  /** `d?.city ?? d?.name ?? d?.location?.name ?? 'Unknown'` */
  function CityChain(d: BackendPayload): string {
    FirstSome([d.city, d.name, LocationName(d)]).GetOr("Unknown")
  }

  function WindSpeedOf(w: Option<Wind>): Option<Value> {
    if w.Some? then w.value.speed else None
  }

  function WindDegOf(w: Option<Wind>): Option<Value> {
    if w.Some? then w.value.deg else None
  }

  /** The wind-speed fields, in the order they are tried. */
  function WindSpeedCandidates(d: BackendPayload, c: BackendCurrent): seq<Option<Value>> {
    [c.wind_kph, WindSpeedOf(c.wind), WindSpeedOf(d.wind), d.wind_speed, c.windspeed]
  }

  /** The wind-direction fields, in the order they are tried. */
  function WindDirCandidates(d: BackendPayload, c: BackendCurrent): seq<Option<Value>> {
    [c.wind_degree, c.wind_deg, c.wind_dir, c.winddir, WindDegOf(d.wind), d.winddirection]
  }

  /** `current.condition.text ?? current.weather_descriptions[0]` */
  function CurrentDescription(c: BackendCurrent): Option<string> {
    var text := if c.condition.Some? then c.condition.value.text else None;
    var first := if c.weather_descriptions.Some? && |c.weather_descriptions.value| > 0
                 then Some(c.weather_descriptions.value[0]) else None;
    FirstSome([text, first])
  }

  /** What the client reads out of `d` before the known-name override. */
  datatype Extracted = Extracted(city: string, weatherArray: seq<Condition>, main: Measurements)

  /** The two shape families. With a `current` block the conditions, wind and
      temperature are rebuilt from it; `[{ description }].filter(Boolean)`
      keeps its one element even when the description is undefined, because
      the element is an object. Without it `weather`/`weatherArray` and
      `main` are taken as they are, and the city is `d.city` unless that is
      falsy or the word "current", then `d.name`. */
  function Extract(d: BackendPayload): Extracted {
    var city := CityChain(d);
    match d.current
    case Some(c) =>
      Extracted(
        if city == "Unknown" then LocationName(d).GetOr("Unknown") else city,
        [Condition(CurrentDescription(c))],
        Measurements(FirstSome([c.temp_c, c.temp]), c.humidity,
                     FirstSome(WindSpeedCandidates(d, c)), FirstSome(WindDirCandidates(d, c)), None))
    case None =>
      Extracted(
        if Truthy(d.city) && d.city.value != "current" then d.city.value
        else if Truthy(d.name) then d.name.value
        else city,
        FirstSome([d.weather, d.weatherArray]).GetOr([]),
        d.main.GetOr(NoMeasurements))
  }

  /** `!main.temp && main.temp !== 0`: missing, or a falsy string. */
  predicate TempMissing(t: Option<Value>) {
    t.None? || t == Some(Text(""))
  }

  /** The record built from a parsed answer, or `None` when it carries neither
      a temperature nor a condition. */
  function NormalizeBackend(d: BackendPayload, known: Option<string>, lat: real, lon: real): Option<WeatherRecord> {
    var e := Extract(d);
    if TempMissing(e.main.temp) && |e.weatherArray| == 0 then None
    else Some(WeatherRecord(if Truthy(known) then known.value else e.city,
                            e.weatherArray, e.main, lat, lon, RawBackend(d), BackendSource))
  }

  /** `fetchBackend()`: skipped (`null`) without a usable name; `null` on a
      failed request; otherwise the normalised answer. */
  function FetchBackend(reply: BackendReply, known: Option<string>, geo: GeoReply,
                        lat: real, lon: real): Option<WeatherRecord>
  {
    if !Truthy(TargetCity(known, geo)) then None
    else
      match reply
      case BackendFailed => None
      case BackendBody(env) => NormalizeBackend(Unwrap(env), known, lat, lon)
  }

  // --- What the client promises -----------------------------------------------

  /** Without a known name and without a geocoded place the backend is not
      asked at all; a known name makes the geocoder irrelevant. */
  lemma BackendNeedsAName(reply: BackendReply, known: Option<string>, geo: GeoReply, geo2: GeoReply,
                          lat: real, lon: real)
    ensures !Truthy(known) && !Truthy(ReverseGeocode(geo)) ==> FetchBackend(reply, known, geo, lat, lon).None?
    ensures Truthy(known) ==> FetchBackend(reply, known, geo, lat, lon) == FetchBackend(reply, known, geo2, lat, lon)
  {
  }

  /** A known name always overrides the city the answer carries. */
  lemma KnownNameWins(d: BackendPayload, known: Option<string>, lat: real, lon: real)
    requires Truthy(known) && NormalizeBackend(d, known, lat, lon).Some?
    ensures NormalizeBackend(d, known, lat, lon).value.city == known.value
  {
  }

  /** An answer is rejected exactly when the temperature is missing (0 counts
      as present) and there is no condition; an accepted one keeps the
      extracted fields and the payload. */
  lemma BackendRejectsEmpty(d: BackendPayload, known: Option<string>, lat: real, lon: real)
    ensures NormalizeBackend(d, known, lat, lon).None? <==>
              TempMissing(Extract(d).main.temp) && Extract(d).weatherArray == []
    ensures Extract(d).main.temp == Some(Num(0.0)) ==> NormalizeBackend(d, known, lat, lon).Some?
    ensures NormalizeBackend(d, known, lat, lon).Some? ==>
              var r := NormalizeBackend(d, known, lat, lon).value;
              r.weatherArray == Extract(d).weatherArray && r.main == Extract(d).main &&
              r.raw == RawBackend(d) && r.source == BackendSource
  {
  }

  /** With a `current` block the answer is never rejected, whatever it holds:
      the single condition survives `filter(Boolean)`. */
  lemma CurrentShapeNeverRejected(d: BackendPayload, known: Option<string>, lat: real, lon: real)
    requires d.current.Some?
    ensures NormalizeBackend(d, known, lat, lon).Some?
    ensures |NormalizeBackend(d, known, lat, lon).value.weatherArray| == 1
  {
  }

  /** `data` wins over `result`, which wins over the body itself. */
  lemma UnwrapPrecedence(env: BackendEnvelope)
    ensures env.data.Some? ==> Unwrap(env) == env.data.value
    ensures env.data.None? && env.result.Some? ==> Unwrap(env) == env.result.value
    ensures env.data.None? && env.result.None? ==> Unwrap(env) == env.body
  {
    var cs := [env.data, env.result, Some(env.body)];
    if env.data.None? {
      assert cs[1..] == [env.result, Some(env.body)];
      assert FirstSome(cs) == FirstSome(cs[1..]);
      if env.result.None? {
        assert FirstSome(cs[1..]) == FirstSome(cs[1..][1..]);
      }
    }
  }

  /** The wind fields of a `current`-shaped answer are the first present field
      of each chain, and missing only when every field is. */
  lemma WindCoalescing(d: BackendPayload)
    requires d.current.Some?
    ensures var c := d.current.value;
            var ws := WindSpeedCandidates(d, c);
            var m := Extract(d).main;
            && (m.windSpeed.None? <==> forall k :: 0 <= k < |ws| ==> ws[k].None?)
            && (m.windSpeed.Some? ==> exists k :: 0 <= k < |ws| && ws[k] == m.windSpeed &&
                                                  forall j :: 0 <= j < k ==> ws[j].None?)
            && (c.wind_kph.Some? ==> m.windSpeed == c.wind_kph)
    ensures var c := d.current.value;
            var wd := WindDirCandidates(d, c);
            var m := Extract(d).main;
            && (m.windDirection.None? <==> forall k :: 0 <= k < |wd| ==> wd[k].None?)
            && (m.windDirection.Some? ==> exists k :: 0 <= k < |wd| && wd[k] == m.windDirection &&
                                                      forall j :: 0 <= j < k ==> wd[j].None?)
            && (c.wind_degree.Some? ==> m.windDirection == c.wind_degree)
  {
  }

  /** City precedence of the shape without a `current` block. */
  lemma PlainShapeCity(d: BackendPayload)
    requires d.current.None?
    ensures Truthy(d.city) && d.city.value != "current" ==> Extract(d).city == d.city.value
    ensures !(Truthy(d.city) && d.city.value != "current") && Truthy(d.name) ==> Extract(d).city == d.name.value
    ensures d.city.None? && d.name.None? ==> Extract(d).city == LocationName(d).GetOr("Unknown")
  {
    var cs := [d.city, d.name, LocationName(d)];
    if d.city.None? && d.name.None? {
      assert FirstSome(cs) == FirstSome(cs[1..]) == FirstSome(cs[1..][1..]);
      assert cs[1..][1..] == [LocationName(d)];
    }
  }
}
