/** The pure helpers the page renders with (src/WeatherMap.js:366-479,
    513-590): message lookup with English fallback and `{name}` filling,
    the greeting by hour, the temperature colour bands, the hourly and daily
    chart rows taken from a record's `raw`, and the fly-to plan chosen from
    the distance to the target. */
module Display {
  import opened Wrappers
  import opened Text
  import opened Records
  import opened OpenMeteo

  // ---------------------------------------------------------------------------
  // Messages
  // ---------------------------------------------------------------------------

  /** One language's messages, key to text. */
  type Table = map<string, string>

  /** `localStorage.getItem('locale') || 'ja'`: a missing or empty stored
      locale gives Japanese. */
  function InitialLocale(stored: Option<string>): (lang: string)
    ensures lang != ""
    ensures stored.Some? && stored.value != "" ==> lang == stored.value
    ensures stored.None? || stored.value == "" ==> lang == "ja"
  {
    if stored.Some? && stored.value != "" then stored.value else "ja"
  }

  /** The text before filling: the key in the chosen language, else in
      English, else the key itself. A text that is present but empty is kept,
      since only a missing entry falls through. */
  function Lookup(tables: map<string, Table>, lang: string, key: string): (raw: string)
    ensures raw == key ||
            (lang in tables && key in tables[lang] && raw == tables[lang][key]) ||
            ("en" in tables && key in tables["en"] && raw == tables["en"][key])
  {
    if lang in tables && key in tables[lang] then tables[lang][key]
    else if "en" in tables && key in tables["en"] then tables["en"][key]
    else key
  }

  /** The chosen language wins when it has the key; a language without it
      reads exactly what English reads; a key known nowhere reads as itself. */
  lemma LookupFallbackOrder(tables: map<string, Table>, lang: string, key: string)
    ensures lang in tables && key in tables[lang] ==> Lookup(tables, lang, key) == tables[lang][key]
    ensures !(lang in tables && key in tables[lang]) ==>
              Lookup(tables, lang, key) == Lookup(tables, "en", key)
    ensures (forall l :: l in tables ==> key !in tables[l]) ==> Lookup(tables, lang, key) == key
  {
  }

  /** `\w` of a regular expression without the `u` flag. */
  predicate IsWordChar(c: char) {
    ('a' <= c <= 'z') || ('A' <= c <= 'Z') || ('0' <= c <= '9') || c == '_'
  }

  predicate IsWord(s: string) {
    |s| > 0 && forall k :: 0 <= k < |s| ==> IsWordChar(s[k])
  }

  /** Length of the leading run of word characters. */
  function WordRun(s: string): (n: nat)
    ensures n <= |s|
  {
    if s != [] && IsWordChar(s[0]) then 1 + WordRun(s[1..]) else 0
  }

  lemma {:induction false} WordRunSpec(s: string)
    ensures forall k :: 0 <= k < WordRun(s) ==> IsWordChar(s[k])
    ensures WordRun(s) < |s| ==> !IsWordChar(s[WordRun(s)])
  {
    if s != [] && IsWordChar(s[0]) {
      WordRunSpec(s[1..]);
      assert forall k :: 1 <= k < WordRun(s) ==> s[k] == s[1..][k - 1];
    }
  }

  /** `String(raw).replace(/\{(\w+)\}/g, ...)`: every `{name}` read left to
      right becomes the value of `name`, or nothing when `name` has no
      value; replaced text is not scanned again. */
  function Fill(s: string, vars: map<string, string>): string
    decreases |s|
  {
    if s == [] then []
    else
      var n := WordRun(s[1..]);
      if s[0] == '{' && n > 0 && n + 1 < |s| && s[n + 1] == '}' then
        var name := s[1..n + 1];
        (if name in vars then vars[name] else "") + Fill(s[n + 2..], vars)
      else
        [s[0]] + Fill(s[1..], vars)
  }

  /** Text without an opening brace is copied through unchanged. */
  lemma {:induction false} FillConcatPlain(a: string, b: string, vars: map<string, string>)
    requires '{' !in a
    ensures Fill(a + b, vars) == a + Fill(b, vars)
  {
    if a != [] {
      assert a[0] in a;
      assert (a + b)[0] == a[0];
      assert (a + b)[1..] == a[1..] + b;
      assert Fill(a + b, vars) == [a[0]] + Fill(a[1..] + b, vars);
      FillConcatPlain(a[1..], b, vars);
      assert a == [a[0]] + a[1..];
      assert a + Fill(b, vars) == [a[0]] + (a[1..] + Fill(b, vars));
    } else {
      assert a + b == b;
    }
  }

  lemma FillPlain(s: string, vars: map<string, string>)
    requires '{' !in s
    ensures Fill(s, vars) == s
  {
    FillConcatPlain(s, [], vars);
    assert s + [] == s;
  }

  /** A placeholder is replaced by its value, or removed when it has none. */
  lemma FillPlaceholder(name: string, rest: string, vars: map<string, string>)
    requires IsWord(name)
    ensures Fill("{" + name + "}" + rest, vars) ==
            (if name in vars then vars[name] else "") + Fill(rest, vars)
  {
    var s := "{" + name + "}" + rest;
    var tail := s[1..];
    assert tail == name + ("}" + rest);
    WordRunOfWord(name, "}" + rest);
    assert s[1..|name| + 1] == name;
    assert s[|name| + 1] == '}';
    assert s[|name| + 2..] == rest;
  }

  lemma {:induction false} WordRunOfWord(w: string, rest: string)
    requires forall k :: 0 <= k < |w| ==> IsWordChar(w[k])
    requires rest == [] || !IsWordChar(rest[0])
    ensures WordRun(w + rest) == |w|
  {
    if w != [] {
      assert (w + rest)[1..] == w[1..] + rest;
      WordRunOfWord(w[1..], rest);
    }
  }

  /** `t(key, vars)` */
  function Translate(tables: map<string, Table>, lang: string, key: string, vars: map<string, string>): string {
    Fill(Lookup(tables, lang, key), vars)
  }

  /** A message without placeholders is shown as looked up. */
  lemma TranslatePlainMessage(tables: map<string, Table>, lang: string, key: string, vars: map<string, string>)
    requires '{' !in Lookup(tables, lang, key)
    ensures Translate(tables, lang, key, vars) == Lookup(tables, lang, key)
  {
    FillPlain(Lookup(tables, lang, key), vars);
  }

  // ---------------------------------------------------------------------------
  // Greeting
  // ---------------------------------------------------------------------------

  datatype Greeting = Greeting(morning: string, afternoon: string, evening: string)

  /** English has no greeting table and uses these words. */
  const DefaultGreeting := Greeting("Hello", "Good afternoon", "Good evening")

  /** `TRANSLATIONS[lang]?.greeting`: only Japanese and Chinese have one. */
  function LocaleGreeting(lang: string): Option<Greeting> {
    if lang == "ja" then Some(Greeting("おはようございます", "こんにちは", "こんばんは"))
    else if lang == "zh" then Some(Greeting("早上好", "下午好", "晚上好"))
    else None
  }

  datatype DayPart = Morning | Afternoon | Evening

  /** Before 11 is morning, before 18 afternoon, the rest evening. */
  function PartOfDay(hour: int): (p: DayPart)
    ensures p == Morning <==> hour < 11
    ensures p == Evening <==> 18 <= hour
  {
    if hour < 11 then Morning else if hour < 18 then Afternoon else Evening
  }

  function Rank(p: DayPart): nat {
    match p
    case Morning => 0
    case Afternoon => 1
    case Evening => 2
  }

  /** Later hours never give an earlier part of the day. */
  lemma PartOfDayMonotone(h1: int, h2: int)
    requires h1 <= h2
    ensures Rank(PartOfDay(h1)) <= Rank(PartOfDay(h2))
  {
  }

  /** `getGreeting(hour)` */
  function GetGreeting(lang: string, hour: int): (s: string) {
    var g := LocaleGreeting(lang).GetOr(DefaultGreeting);
    match PartOfDay(hour)
    case Morning => g.morning
    case Afternoon => g.afternoon
    case Evening => g.evening
  }

  /** The greeting depends on the hour only through its band, and a
      language without a greeting table gets the English words. */
  lemma GreetingByBand(lang: string, h1: int, h2: int)
    ensures PartOfDay(h1) == PartOfDay(h2) ==> GetGreeting(lang, h1) == GetGreeting(lang, h2)
    ensures lang != "ja" && lang != "zh" ==>
              GetGreeting(lang, h1) in {"Hello", "Good afternoon", "Good evening"}
    ensures GetGreeting("ja", h1) == "おはようございます" <==> h1 < 11
  {
  }

  // ---------------------------------------------------------------------------
  // Temperature colour
  // ---------------------------------------------------------------------------

  /** The colour of a missing or non-numeric temperature. */
  const NoDataColor := "#1976d2"

  /** Blue to red, from the coldest band to the hottest. */
  const Palette: seq<string> := ["#2196f3", "#4fc3f7", "#ffeb3b", "#ff9800", "#f44336"]

  /** The inclusive upper bounds of the first four bands. */
  const Bounds: seq<real> := [0.0, 10.0, 20.0, 30.0]

  function TempBand(t: real): (b: nat)
    ensures b < |Palette|
    ensures b < |Bounds| ==> t <= Bounds[b]
    ensures b > 0 ==> Bounds[b - 1] < t
  {
    if t <= 0.0 then 0
    else if t <= 10.0 then 1
    else if t <= 20.0 then 2
    else if t <= 30.0 then 3
    else 4
  }

  /** The band is the only one whose interval holds the temperature, and it
      never falls as the temperature rises. */
  lemma TempBandUnique(t: real, b: nat)
    requires b < |Palette|
    requires b < |Bounds| ==> t <= Bounds[b]
    requires b > 0 ==> Bounds[b - 1] < t
    ensures TempBand(t) == b
  {
  }

  lemma TempBandMonotone(s: real, t: real)
    requires s <= t
    ensures TempBand(s) <= TempBand(t)
  {
  }

  /** `tempToColor(temp)`, with `None` standing for `null`, `undefined` and a
      value `Number` cannot read. */
  function TempToColor(temp: Option<real>): (c: string)
    ensures temp.None? ==> c == NoDataColor
    ensures temp.Some? ==> c == Palette[TempBand(temp.value)]
  {
    match temp
    case None => NoDataColor
    case Some(t) =>
      if t <= 0.0 then "#2196f3"
      else if t <= 10.0 then "#4fc3f7"
      else if t <= 20.0 then "#ffeb3b"
      else if t <= 30.0 then "#ff9800"
      else "#f44336"
  }

  /** Two temperatures share a colour exactly when they share a band, and
      no temperature gets the no-data colour. */
  lemma ColourIdentifiesBand(s: real, t: real)
    ensures TempToColor(Some(s)) == TempToColor(Some(t)) <==> TempBand(s) == TempBand(t)
    ensures TempToColor(Some(s)) != NoDataColor
  {
  }

  // ---------------------------------------------------------------------------
  // Chart rows
  // ---------------------------------------------------------------------------

  /** The charts show at most this many hours. */
  const ChartHours: nat := 24

  /** `xs.slice(0, n)` */
  function Take<T>(xs: seq<T>, n: nat): (r: seq<T>)
    ensures |r| == if |xs| <= n then |xs| else n
    ensures forall k :: 0 <= k < |r| ==> r[k] == xs[k]
  {
    if |xs| <= n then xs else xs[..n]
  }

  /** `x || 0` on a number. */
  function OrZero(x: Option<real>): real {
    x.GetOr(0.0)
  }

  /** `time` is `Some` for Open-Meteo rows; for WeatherAPI rows it is the
      second space-separated field, missing when there is none; `humidity`
      is only set for Open-Meteo rows. */
  datatype HourRow = HourRow(time: Option<string>, temp: real, rain: real, humidity: Option<real>)

  /** `raw?.openMeteo ?? raw` followed by `.hourly`. */
  function RawHourly(raw: Raw): Option<Hourly> {
    match raw
    case RawOpenMeteo(om) => om.hourly
    case RawBackend(p) => p.hourly
    case _ => None
  }

  /** `raw?.forecast?.forecastday`; only a backend payload has one. */
  function RawForecastDays(raw: Raw): Option<seq<ForecastDay>> {
    match raw
    case RawBackend(p) => if p.forecast.Some? then p.forecast.value.forecastday else None
    case _ => None
  }

  /** Index of the first space, or the length when there is none. */
  function SpaceIndex(s: string): (i: nat)
    ensures i <= |s|
    ensures forall k :: 0 <= k < i ==> s[k] != ' '
    ensures i < |s| ==> s[i] == ' '
  {
    if s == [] || s[0] == ' ' then 0
    else
      var i := SpaceIndex(s[1..]);
      assert forall k :: 1 <= k < i + 1 ==> s[k] == s[1..][k - 1];
      1 + i
  }

  /** `time.split(' ')[1]` */
  function SecondField(time: string): Option<string> {
    var i := SpaceIndex(time);
    if i == |time| then None
    else
      var rest := time[i + 1..];
      Some(rest[..SpaceIndex(rest)])
  }

  /** WeatherAPI's "YYYY-MM-DD HH:mm" gives back its clock part. */
  lemma SecondFieldOfStamp(date: string, clock: string)
    requires ' ' !in date && ' ' !in clock
    ensures SecondField(date + " " + clock) == Some(clock)
  {
    var s := date + " " + clock;
    assert s == date + (" " + clock);
    SpaceIndexOfPlain(date, " " + clock);
    assert s[|date| + 1..] == clock;
    assert clock + [] == clock;
    SpaceIndexOfPlain(clock, []);
    assert SpaceIndex(clock) == |clock|;
    assert clock[..|clock|] == clock;
  }

  lemma {:induction false} SpaceIndexOfPlain(a: string, b: string)
    requires ' ' !in a
    requires b == [] || b[0] == ' '
    ensures SpaceIndex(a + b) == |a|
  {
    if a != [] {
      assert a[0] in a;
      assert (a + b)[1..] == a[1..] + b;
      SpaceIndexOfPlain(a[1..], b);
    }
  }

  function OmHourRows(h: Hourly): (rows: seq<HourRow>)
    requires h.time.Some?
    ensures |rows| <= ChartHours
  {
    var times := Take(h.time.value, ChartHours);
    var temps := Take(h.temperature_2m.GetOr([]), ChartHours);
    var rains := Take(h.precipitation_probability.GetOr([]), ChartHours);
    var humidity := Take(h.relativehumidity_2m.GetOr([]), ChartHours);
    seq(|times|, i requires 0 <= i < |times| =>
      HourRow(Some(Slice(times[i], 11, 16)), OrZero(At(temps, i)), OrZero(At(rains, i)), Some(OrZero(At(humidity, i)))))
  }

  /** The first day's hours, then the second day's when it has any. */
  function ForecastHours(days: seq<ForecastDay>): seq<HourEntry>
    requires |days| > 0
  {
    days[0].hour.GetOr([]) + (if |days| > 1 && days[1].hour.Some? then days[1].hour.value else [])
  }

  function ForecastRow(e: HourEntry): HourRow {
    HourRow(SecondField(e.time), e.temp_c.GetOr(0.0), e.chance_of_rain.GetOr(0.0), None)
  }

  /** `getHourlyData(raw)` */
  function GetHourlyData(raw: Raw): (rows: seq<HourRow>)
    ensures |rows| <= ChartHours
  {
    var h := RawHourly(raw);
    if h.Some? && h.value.time.Some? then OmHourRows(h.value)
    else
      var days := RawForecastDays(raw);
      if days.Some? && |days.value| > 0 then
        var hours := Take(ForecastHours(days.value), ChartHours);
        seq(|hours|, i requires 0 <= i < |hours| => ForecastRow(hours[i]))
      else []
  }

  /** With an Open-Meteo hourly block, row `i` is hour `i` of the full
      arrays, its clock read from characters 11 to 16 of the time stamp and a
      missing value shown as 0. */
  lemma HourlyFromOpenMeteo(raw: Raw, i: nat)
    requires RawHourly(raw).Some? && RawHourly(raw).value.time.Some?
    ensures var h := RawHourly(raw).value;
            var times := h.time.value;
            var rows := GetHourlyData(raw);
            |rows| == (if |times| <= ChartHours then |times| else ChartHours) &&
            (i < |rows| ==> rows[i] == HourRow(
              Some(Slice(times[i], 11, 16)),
              OrZero(At(h.temperature_2m.GetOr([]), i)),
              OrZero(At(h.precipitation_probability.GetOr([]), i)),
              Some(OrZero(At(h.relativehumidity_2m.GetOr([]), i)))))
  {
    var h := RawHourly(raw).value;
    if i < ChartHours {
      TakeAt(h.temperature_2m.GetOr([]), ChartHours, i);
      TakeAt(h.precipitation_probability.GetOr([]), ChartHours, i);
      TakeAt(h.relativehumidity_2m.GetOr([]), ChartHours, i);
    }
  }

  /** Truncating an array does not change what an earlier index reads. */
  lemma TakeAt(xs: seq<Option<real>>, n: nat, i: nat)
    requires i < n
    ensures At(Take(xs, n), i) == At(xs, i)
  {
  }

  /** Without an Open-Meteo time axis, a non-empty WeatherAPI forecast gives
      one row per hour of its first two days, at most 24, in order; anything
      else gives no rows. */
  lemma HourlyFromForecast(raw: Raw)
    requires !(RawHourly(raw).Some? && RawHourly(raw).value.time.Some?)
    ensures var days := RawForecastDays(raw);
            var rows := GetHourlyData(raw);
            if days.Some? && |days.value| > 0 then
              var hours := ForecastHours(days.value);
              |rows| == (if |hours| <= ChartHours then |hours| else ChartHours) &&
              forall k :: 0 <= k < |rows| ==> rows[k] == ForecastRow(hours[k])
            else rows == []
  {
  }

  /** One day of the week view. `max`, `min` and `code` are missing when the
      array is missing or short; `desc` is empty for an unknown code. */
  datatype DayRow = DayRow(date: string, max: Option<real>, min: Option<real>, code: Option<int>, desc: string)

  /** `OM_WEATHER_CODE_DESCRIPTION[code] || ''` */
  function DayDescription(code: Option<int>): string {
    if code.Some? && code.value in CodeDescriptions then CodeDescriptions[code.value] else ""
  }

  lemma TableEntriesNonEmpty()
    ensures forall c :: c in CodeDescriptions ==> CodeDescriptions[c] != ""
  {
    forall c | c in CodeDescriptions
      ensures CodeDescriptions[c] != ""
    {
      assert |CodeDescriptions[c]| > 0;
    }
  }

  /** The week view names a code exactly as the current conditions do,
      except that an unknown or missing code reads as empty instead of
      `code:…`. */
  lemma DayDescriptionAgreesWithDescribe(code: Option<int>)
    ensures DayDescription(code) == "" <==> StartsWith(Describe(code), "code:")
    ensures DayDescription(code) != "" ==> DayDescription(code) == Describe(code)
  {
    TableEntriesNonEmpty();
    DescribeFallbackIff(code);
  }

  /** `raw?.openMeteo ?? raw` followed by `.daily`. */
  function RawDaily(raw: Raw): Option<Daily> {
    match raw
    case RawOpenMeteo(om) => om.daily
    case RawBackend(p) => p.daily
    case _ => None
  }

  /** `getDailyData(raw)` */
  function GetDailyData(raw: Raw): (rows: seq<DayRow>) {
    var d := RawDaily(raw);
    if d.Some? && d.value.time.Some? then
      var times := d.value.time.value;
      var maxs := d.value.temperature_2m_max.GetOr([]);
      var mins := d.value.temperature_2m_min.GetOr([]);
      var codes := d.value.weathercode.GetOr([]);
      seq(|times|, i requires 0 <= i < |times| =>
        DayRow(times[i], At(maxs, i), At(mins, i), At(codes, i), DayDescription(At(codes, i))))
    else []
  }

  /** One row per day of the Open-Meteo daily block, uncapped, each reading
      the same index of every array; nothing without a daily time axis. */
  lemma DailyRows(raw: Raw)
    ensures var d := RawDaily(raw);
            var rows := GetDailyData(raw);
            if d.Some? && d.value.time.Some? then
              var times := d.value.time.value;
              |rows| == |times| &&
              forall i :: 0 <= i < |rows| ==>
                rows[i].date == times[i] &&
                rows[i].max == At(d.value.temperature_2m_max.GetOr([]), i) &&
                rows[i].min == At(d.value.temperature_2m_min.GetOr([]), i) &&
                rows[i].code == At(d.value.weathercode.GetOr([]), i) &&
                (rows[i].desc == "" <==> StartsWith(Describe(rows[i].code), "code:"))
            else rows == []
  {
    var d := RawDaily(raw);
    if d.Some? && d.value.time.Some? {
      var rows := GetDailyData(raw);
      forall i | 0 <= i < |rows|
        ensures rows[i].desc == "" <==> StartsWith(Describe(rows[i].code), "code:")
      {
        DayDescriptionAgreesWithDescribe(rows[i].code);
      }
    }
  }

  // ---------------------------------------------------------------------------
  // Fly-to plan
  // ---------------------------------------------------------------------------

  /** What `flyToLocation` asks the map to do. Durations are in seconds. */
  datatype FlyPlan =
    | StayPut
    | ZoomOutThenFly(zoomOut: real, finalZoom: real)
    | FlyDirect(finalZoom: real, duration: real)

  /** The distance assumed when measuring it fails. */
  const FailedDistance: real := 100000.0

  /** The zoom-out level by distance band, for a distance over 30 km. */
  function BaseZoomOut(dist: real): (z: real)
    ensures 4.0 <= z <= 7.0
  {
    if dist < 100000.0 then 7.0
    else if dist < 300000.0 then 6.0
    else if dist < 600000.0 then 5.0
    else 4.0
  }

  /** The band level, kept at least two levels below the current zoom, and
      never below 3. */
  function ZoomOutLevel(dist: real, currentZoom: real): (z: real)
    ensures 3.0 <= z <= BaseZoomOut(dist)
    ensures z <= currentZoom - 2.0 || z == 3.0
    ensures z == 3.0 || z == BaseZoomOut(dist) || z == currentZoom - 2.0
  {
    var band := BaseZoomOut(dist);
    var capped := if band <= currentZoom - 2.0 then band else currentZoom - 2.0;
    if capped < 3.0 then 3.0 else capped
  }

  /** The farther the target, the farther out the first step goes. */
  lemma ZoomOutLevelAntitone(d1: real, d2: real, currentZoom: real)
    requires d1 <= d2
    ensures ZoomOutLevel(d2, currentZoom) <= ZoomOutLevel(d1, currentZoom)
  {
  }

  /** `flyToLocation(targetCenter, targetZoom)` once the map is available and
      the target is numeric. `dist` is `None` when measuring threw;
      `targetZoom` 0 counts as absent. */
  function PlanFlight(dist: Option<real>, currentZoom: real, targetZoom: Option<real>): (plan: FlyPlan) {
    var d := dist.GetOr(FailedDistance);
    var finalZoom := if targetZoom.Some? && targetZoom.value != 0.0 then targetZoom.value else currentZoom;
    if d < 100.0 then StayPut
    else if d > 30000.0 then ZoomOutThenFly(ZoomOutLevel(d, currentZoom), finalZoom)
    else
      var duration := if d < 5000.0 then 0.5 else if d < 15000.0 then 0.6 else 0.8;
      FlyDirect(finalZoom, duration)
  }

  /** Under 100 m nothing moves, over 30 km the map zooms out first, in
      between it flies straight there; a flight ends at the requested zoom,
      or at the current one. */
  lemma PlanFlightBands(d: real, currentZoom: real, targetZoom: Option<real>)
    ensures PlanFlight(Some(d), currentZoom, targetZoom).StayPut? <==> d < 100.0
    ensures PlanFlight(Some(d), currentZoom, targetZoom).ZoomOutThenFly? <==> d > 30000.0
    ensures var plan := PlanFlight(Some(d), currentZoom, targetZoom);
            !plan.StayPut? ==>
              plan.finalZoom == (if targetZoom.Some? && targetZoom.value != 0.0 then targetZoom.value else currentZoom)
    ensures var plan := PlanFlight(Some(d), currentZoom, targetZoom);
            plan.FlyDirect? ==> 0.5 <= plan.duration <= 0.8
  {
  }

  /** A failed measurement is treated as 100 km away, which falls in the
      second band: the map zooms out to level 6 at most. */
  lemma FailedDistanceZoomsOut(currentZoom: real, targetZoom: Option<real>)
    ensures var plan := PlanFlight(None, currentZoom, targetZoom);
            plan.ZoomOutThenFly? &&
            plan.zoomOut == (if currentZoom - 2.0 >= 6.0 then 6.0
                             else if currentZoom - 2.0 >= 3.0 then currentZoom - 2.0 else 3.0)
  {
  }
}
