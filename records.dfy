/** The data the weather engine passes around: the JSON shapes the two
    providers answer with (as records of optional fields: a missing key and a
    JSON `null` are both `None`), and the canonical weather record every
    provider is normalised into (src/WeatherMap.js:1312-1313, 1370, 1415-1420). */
module Records {
  import opened Wrappers

  /** A measurement as a provider sends it: normally a number, but some
      backend shapes send strings (WeatherAPI's `wind_dir` is "NNE"). */
  datatype Value = Num(n: real) | Text(s: string)

  /** One entry of `weatherArray`: `{ description }`, where the backend may
      leave the description undefined. */
  datatype Condition = Condition(description: Option<string>)

  /** The `main` object: `{}` is every field `None`. */
  datatype Measurements = Measurements(
    temp: Option<Value>,
    humidity: Option<Value>,
    windSpeed: Option<Value>,
    windDirection: Option<Value>,
    rainProb: Option<Value>)

  const NoMeasurements := Measurements(None, None, None, None, None)

  // --- Open-Meteo forecast response -------------------------------------------

  datatype CurrentWeather = CurrentWeather(
    temperature: Option<real>,
    windspeed: Option<real>,
    winddirection: Option<real>,
    weathercode: Option<int>,
    time: Option<string>)

  const NoCurrentWeather := CurrentWeather(None, None, None, None, None)

  datatype Hourly = Hourly(
    time: Option<seq<string>>,
    relativehumidity_2m: Option<seq<Option<real>>>,
    temperature_2m: Option<seq<Option<real>>>,
    precipitation_probability: Option<seq<Option<real>>>,
    weathercode: Option<seq<Option<int>>>)

  datatype Daily = Daily(
    time: Option<seq<string>>,
    temperature_2m_max: Option<seq<Option<real>>>,
    temperature_2m_min: Option<seq<Option<real>>>,
    weathercode: Option<seq<Option<int>>>)

  datatype OmResponse = OmResponse(
    current_weather: Option<CurrentWeather>,
    hourly: Option<Hourly>,
    daily: Option<Daily>)

  /** The outcome of the forecast request: a non-success status, a network
      error and an unparseable body all end in `OmFailed`. */
  datatype OmReply = OmFailed | OmBody(body: OmResponse)

  // --- Backend aggregator response (several shapes) ---------------------------

  datatype Location = Location(name: Option<string>)
  datatype Wind = Wind(speed: Option<Value>, deg: Option<Value>)
  datatype ConditionText = ConditionText(text: Option<string>)

  /** The `current` block of WeatherAPI/weatherstack-style answers. */
  datatype BackendCurrent = BackendCurrent(
    condition: Option<ConditionText>,
    weather_descriptions: Option<seq<string>>,
    wind_kph: Option<Value>,
    wind: Option<Wind>,
    windspeed: Option<Value>,
    wind_degree: Option<Value>,
    wind_deg: Option<Value>,
    wind_dir: Option<Value>,
    winddir: Option<Value>,
    temp_c: Option<Value>,
    temp: Option<Value>,
    humidity: Option<Value>)

  /** WeatherAPI's `forecast.forecastday[k].hour[]`. */
  datatype HourEntry = HourEntry(time: string, temp_c: Option<real>, chance_of_rain: Option<real>)
  datatype ForecastDay = ForecastDay(hour: Option<seq<HourEntry>>)
  datatype Forecast = Forecast(forecastday: Option<seq<ForecastDay>>)

  /** The object `d` the backend client reads its fields from. */
  datatype BackendPayload = BackendPayload(
    city: Option<string>,
    name: Option<string>,
    location: Option<Location>,
    weather: Option<seq<Condition>>,
    weatherArray: Option<seq<Condition>>,
    main: Option<Measurements>,
    current: Option<BackendCurrent>,
    wind: Option<Wind>,
    wind_speed: Option<Value>,
    winddirection: Option<Value>,
    hourly: Option<Hourly>,
    daily: Option<Daily>,
    forecast: Option<Forecast>)

  /** The parsed body: its own fields, possibly wrapped in `data` or `result`. */
  datatype BackendEnvelope = BackendEnvelope(
    data: Option<BackendPayload>,
    result: Option<BackendPayload>,
    body: BackendPayload)

  datatype BackendReply = BackendFailed | BackendBody(json: BackendEnvelope)

  // --- The canonical record ---------------------------------------------------

  /** `source`: 'open-meteo', 'backend', 'none' or 'error'. */
  datatype Source = OpenMeteoSource | BackendSource | NoneSource | ErrorSource

  /** `raw`: `{ openMeteo: omData }`, the backend's `d`, `{}` or `{ error }`. */
  datatype Raw = RawOpenMeteo(openMeteo: OmResponse) | RawBackend(payload: BackendPayload)
               | RawEmpty | RawError(error: string)

  datatype WeatherRecord = WeatherRecord(
    city: string,
    weatherArray: seq<Condition>,
    main: Measurements,
    lat: real,
    lon: real,
    raw: Raw,
    source: Source)
}
