/** The Open-Meteo provider client `fetchOpenMeteo` (src/WeatherMap.js:1256-1319)
    once the request is replaced by its outcome: choosing the hourly sample
    that matches the current-conditions time, preferring the hourly weather
    code, and describing the code through the fixed table
    (src/WeatherMap.js:200-229). */
module OpenMeteo {
  import opened Wrappers
  import opened Text
  import opened Records
  import opened Geocode

  /** `OM_WEATHER_CODE_DESCRIPTION` */
  const CodeDescriptions: map<int, string> := map[
    0 := "晴れ", 1 := "主に晴れ", 2 := "一部曇り", 3 := "曇り",
    45 := "霧", 48 := "霧氷",
    51 := "小雨", 53 := "中雨", 55 := "大雨", 56 := "みぞれ", 57 := "凍雨",
    61 := "小雨", 63 := "中雨", 65 := "大雨", 66 := "凍雨", 67 := "凍雨（強）",
    71 := "小雪", 73 := "中雪", 75 := "大雪", 77 := "霰",
    80 := "にわか雨", 81 := "にわか雨（強）", 82 := "にわか雨（非常に強）",
    85 := "にわか雪", 86 := "にわか雪（強）",
    95 := "雷雨", 96 := "雷雨（雹を伴う）", 99 := "雷雨（大雹を伴う）"
  ]

  /** `OM_WEATHER_CODE_DESCRIPTION[code] ?? `code:${code}``; a missing code
      prints as `null`. */
  function Describe(code: Option<int>): string {
    match code
    case None => "code:null"
    case Some(c) => if c in CodeDescriptions then CodeDescriptions[c] else "code:" + IntToString(c)
  }

  /** No table entry looks like the fallback text. */
  lemma TableEntriesAreNotFallbacks()
    ensures forall c :: c in CodeDescriptions ==> !StartsWith(CodeDescriptions[c], "code:")
  {
    forall c | c in CodeDescriptions
      ensures !StartsWith(CodeDescriptions[c], "code:")
    {
      var d := CodeDescriptions[c];
      assert d != "" && d[0] != 'c';
    }
  }

  /** A description has the fallback form exactly when the code is missing or
      not in the table, and then it names the code. */
  lemma DescribeFallbackIff(code: Option<int>)
    ensures StartsWith(Describe(code), "code:") <==> code.None? || code.value !in CodeDescriptions
    ensures code.Some? && code.value !in CodeDescriptions ==>
              Describe(code) == "code:" + IntToString(code.value)
    ensures code.Some? && code.value in CodeDescriptions ==>
              Describe(code) == CodeDescriptions[code.value]
  {
    TableEntriesAreNotFallbacks();
    match code
    case None =>
      assert "code:null"[..5] == "code:";
    case Some(c) =>
      if c !in CodeDescriptions {
        assert ("code:" + IntToString(c))[..5] == "code:";
      }
  }

  /** Code 0 is clear sky. */
  lemma DescribeClearSky()
    ensures Describe(Some(0)) == "晴れ"
  {
  }

  /** 999 is not in the table and is printed after the fallback prefix. */
  lemma DescribeUnknown()
    ensures Describe(Some(999)) == "code:999"
  {
    assert 999 !in CodeDescriptions;
    assert IntToString(999) == "999" by {
      assert NatToString(9) == "9";
      assert NatToString(99) == NatToString(9) + "9";
      assert NatToString(999) == NatToString(99) + "9";
    }
  }

  // --- Choosing the hourly sample ---------------------------------------------

  /** `xs.indexOf(x)` */
  function IndexOf(xs: seq<string>, x: string): (r: int)
    ensures -1 <= r < |xs|
    ensures r >= 0 ==> xs[r] == x && forall j :: 0 <= j < r ==> xs[j] != x
    ensures r == -1 <==> forall j :: 0 <= j < |xs| ==> xs[j] != x
  {
    if xs == [] then -1
    else if xs[0] == x then 0
    else
      var r := IndexOf(xs[1..], x);
      assert forall j :: 1 <= j < |xs| ==> xs[j] == xs[1..][j - 1];
      if r == -1 then -1 else r + 1
  }

  /** `xs.findIndex(t => t.startsWith(prefix))` */
  function FindPrefix(xs: seq<string>, prefix: string): (r: int)
    ensures -1 <= r < |xs|
    ensures r >= 0 ==> StartsWith(xs[r], prefix) && forall j :: 0 <= j < r ==> !StartsWith(xs[j], prefix)
    ensures r == -1 <==> forall j :: 0 <= j < |xs| ==> !StartsWith(xs[j], prefix)
  {
    if xs == [] then -1
    else if StartsWith(xs[0], prefix) then 0
    else
      var r := FindPrefix(xs[1..], prefix);
      assert forall j :: 1 <= j < |xs| ==> xs[j] == xs[1..][j - 1];
      if r == -1 then -1 else r + 1
  }

  /** The date-and-hour prefix `time.slice(0, 13)` ("2024-01-02T09"). */
  function HourPrefix(time: string): string {
    Slice(time, 0, 13)
  }

  /** The index of the hourly sample that goes with `current.time`: the exact
      match, else the first time in the same hour, else 0. Without a current
      time, `indexOf(undefined)` finds nothing and `findIndex` calls
      `current.time.slice` on the first hourly time, which throws; the
      client's `catch` turns that into a failed provider (`None`). With no
      hourly times at all the callback is never called and the index is 0. */
  function SampleIndex(times: seq<string>, time: Option<string>): (idx: Option<nat>)
    ensures idx.None? <==> time.None? && times != []
    ensures time.None? && times == [] ==> idx == Some(0)
    ensures idx.Some? ==> idx.value < |times| || (times == [] && idx.value == 0)
    ensures idx.Some? && time.Some? && (exists j :: 0 <= j < |times| && times[j] == time.value) ==>
              times[idx.value] == time.value &&
              forall j :: 0 <= j < idx.value ==> times[j] != time.value
    ensures idx.Some? && time.Some? && (forall j :: 0 <= j < |times| ==> times[j] != time.value) &&
            (exists j :: 0 <= j < |times| && StartsWith(times[j], HourPrefix(time.value))) ==>
              StartsWith(times[idx.value], HourPrefix(time.value)) &&
              forall j :: 0 <= j < idx.value ==> !StartsWith(times[j], HourPrefix(time.value))
    ensures idx.Some? && time.Some? && (forall j :: 0 <= j < |times| ==> !StartsWith(times[j], HourPrefix(time.value))) ==>
              idx.value == 0
  {
    match time
    case None => if times == [] then Some(0) else None
    case Some(t) =>
      var exact := IndexOf(times, t);
      if exact != -1 then Some(exact)
      else
        var sameHour := FindPrefix(times, HourPrefix(t));
        if sameHour != -1 then Some(sameHour) else Some(0)
  }

  /** The three samples read at the chosen index. */
  datatype HourlySample = HourlySample(humidity: Option<real>, rainProb: Option<real>, code: Option<int>)

  /** Humidity is read as it is, the rain probability with `|| 0`, and each only
      when its array exists. */
  function SampleAt(h: Hourly, idx: nat): HourlySample {
    HourlySample(
      if h.relativehumidity_2m.Some? then At(h.relativehumidity_2m.value, idx) else None,
      if h.precipitation_probability.Some? then Some(At(h.precipitation_probability.value, idx).GetOr(0.0)) else None,
      if h.weathercode.Some? then At(h.weathercode.value, idx) else None)
  }

  const NoSample := HourlySample(None, None, None)

  function AsValue(x: Option<real>): Option<Value> {
    match x
    case None => None
    case Some(n) => Some(Num(n))
  }

  /** The hourly code wins over `current_weather.weathercode`. */
  function ChosenCode(sample: HourlySample, current: CurrentWeather): Option<int> {
    FirstSome([sample.code, current.weathercode])
  }

  function BuildRecord(om: OmResponse, current: CurrentWeather, sample: HourlySample,
                       city: string, lat: real, lon: real): WeatherRecord
  {
    var main := Measurements(AsValue(current.temperature), AsValue(sample.humidity),
                             AsValue(current.windspeed), AsValue(current.winddirection),
                             AsValue(sample.rainProb));
    WeatherRecord(city, [Condition(Some(Describe(ChosenCode(sample, current))))], main,
                  lat, lon, RawOpenMeteo(om), OpenMeteoSource)
  }

  /** The sample the client reads: none without `hourly.time`, `None` when the
      index lookup throws. */
  function SampleOf(om: OmResponse): Option<HourlySample> {
    var current := om.current_weather.GetOr(NoCurrentWeather);
    if om.hourly.Some? && om.hourly.value.time.Some? then
      match SampleIndex(om.hourly.value.time.value, current.time)
      case None => None
      case Some(idx) => Some(SampleAt(om.hourly.value, idx))
    else Some(NoSample)
  }

  /** The city: the known name, else the reverse-geocoded place, else the
      coordinate string (`??`: an empty known name is kept). */
  function OpenMeteoCity(known: Option<string>, geo: GeoReply, coordLabel: string): string {
    FirstSome([known, ReverseGeocode(geo), Some(coordLabel)]).GetOr(coordLabel)
  }

  /** `fetchOpenMeteo()`: the canonical record, or `None` (the client's `null`). */
  function FetchOpenMeteo(reply: OmReply, known: Option<string>, geo: GeoReply,
                          lat: real, lon: real, coordLabel: string): Option<WeatherRecord>
  {
    match reply
    case OmFailed => None
    case OmBody(om) =>
      match SampleOf(om)
      case None => None
      case Some(sample) =>
        Some(BuildRecord(om, om.current_weather.GetOr(NoCurrentWeather), sample,
                         OpenMeteoCity(known, geo, coordLabel), lat, lon))
  }

  // --- What the client promises -----------------------------------------------

  /** The client answers `null` only for a failed request, or when the answer
      has a non-empty list of hourly times but the current block has no time. */
  lemma OpenMeteoFailsOnlyWhen(reply: OmReply, known: Option<string>, geo: GeoReply,
                               lat: real, lon: real, coordLabel: string)
    ensures FetchOpenMeteo(reply, known, geo, lat, lon, coordLabel).None? <==>
              reply.OmFailed? ||
              (reply.body.hourly.Some? && reply.body.hourly.value.time.Some? &&
               reply.body.hourly.value.time.value != [] &&
               reply.body.current_weather.GetOr(NoCurrentWeather).time.None?)
  {
  }

  /** A successful answer: one condition, the provider tag, the payload kept
      under `openMeteo`, and the current temperature and wind. */
  lemma OpenMeteoRecordShape(om: OmResponse, known: Option<string>, geo: GeoReply,
                             lat: real, lon: real, coordLabel: string)
    requires FetchOpenMeteo(OmBody(om), known, geo, lat, lon, coordLabel).Some?
    ensures var r := FetchOpenMeteo(OmBody(om), known, geo, lat, lon, coordLabel).value;
            var current := om.current_weather.GetOr(NoCurrentWeather);
            && |r.weatherArray| == 1
            && r.weatherArray[0].description.Some?
            && r.source == OpenMeteoSource
            && r.raw == RawOpenMeteo(om)
            && r.lat == lat && r.lon == lon
            && r.main.temp == AsValue(current.temperature)
            && r.main.windSpeed == AsValue(current.windspeed)
            && r.main.windDirection == AsValue(current.winddirection)
  {
  }

  /** A known name is used as it is, else the geocoded place, else the
      coordinate string. */
  lemma OpenMeteoCityPrecedence(known: Option<string>, geo: GeoReply, coordLabel: string)
    ensures known.Some? ==> OpenMeteoCity(known, geo, coordLabel) == known.value
    ensures known.None? && ReverseGeocode(geo).Some? ==>
              OpenMeteoCity(known, geo, coordLabel) == ReverseGeocode(geo).value
    ensures known.None? && ReverseGeocode(geo).None? ==>
              OpenMeteoCity(known, geo, coordLabel) == coordLabel
  {
    var cs := [known, ReverseGeocode(geo), Some(coordLabel)];
    if known.None? {
      assert cs[1..] == [ReverseGeocode(geo), Some(coordLabel)];
      assert FirstSome(cs) == FirstSome(cs[1..]);
      if ReverseGeocode(geo).None? {
        assert cs[1..][1..] == [Some(coordLabel)];
        assert FirstSome(cs[1..]) == FirstSome(cs[1..][1..]);
      }
    }
  }

  /** The hourly code at the chosen sample is preferred over the current
      block's code; without one the current code is used. */
  lemma HourlyCodePreferred(sample: HourlySample, current: CurrentWeather)
    ensures sample.code.Some? ==> ChosenCode(sample, current) == sample.code
    ensures sample.code.None? ==> ChosenCode(sample, current) == current.weathercode
  {
    var cs := [sample.code, current.weathercode];
    if sample.code.None? {
      assert cs[1..] == [current.weathercode];
      assert FirstSome(cs) == FirstSome(cs[1..]);
      if current.weathercode.None? {
        assert cs[1..][1..] == [];
      }
    }
  }

  /** The humidity and rain probability are those at `SampleIndex`, the rain
      probability defaulting to 0 when that entry is missing. */
  lemma SampleReadsChosenIndex(om: OmResponse, i: nat)
    requires om.hourly.Some? && om.hourly.value.time.Some?
    requires SampleIndex(om.hourly.value.time.value, om.current_weather.GetOr(NoCurrentWeather).time) == Some(i)
    ensures var h := om.hourly.value;
            var s := SampleOf(om).value;
            && (h.relativehumidity_2m.Some? && i < |h.relativehumidity_2m.value| ==>
                  s.humidity == h.relativehumidity_2m.value[i])
            && (h.precipitation_probability.Some? && i < |h.precipitation_probability.value| ==>
                  s.rainProb == Some(h.precipitation_probability.value[i].GetOr(0.0)))
            && (h.precipitation_probability.Some? ==> s.rainProb.Some?)
            && (h.weathercode.Some? && i < |h.weathercode.value| ==> s.code == h.weathercode.value[i])
  {
  }
}
