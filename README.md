# Weather map: a Dafny model of its data logic

The model covers the `WeatherMap` component of a Tokyo weather map (`src/WeatherMap.js`). Its network requests, local storage, clock and timers are replaced by inputs. The rules that remain are modelled and proved about:

- **Place-name sanitiser.** `sanitizeCityName` splits a name on commas, full-width commas and white space. It drops empty and repeated tokens, keeping the first occurrence of each, and rejoins the survivors. A name from which nothing was dropped comes back unchanged.
- **Open-Meteo client.** It chooses the hourly sample that goes with the current time: the exact match, else the same hour, else index 0. It prefers the hourly weather code to the current one and describes the code through a fixed table, falling back to `code:<n>`.
- **Reverse geocoder.** It takes the first of city, town, village, county and display name.
- **Backend client.** It needs a place name to query. It unwraps the answer (`data`, else `result`, else the body) and reads the two response shapes. It coalesces the wind fields, lets a known name override the city, and rejects an answer with neither a temperature nor a condition.
- **Resolver `getWeatherData`.** It tries the preferred provider, and the other only when the first answers nothing. It always returns a record, marked `none` or `error` when no provider answered.
- **Ward refresh `fetchAllWards`.** Every one of the 23 wards is served from a ten-minute cache or fetched and written through to the cache. The updates are merged by id into the ward list in batches of at least five, then the remainder.
- **Radar playback.** The frames come from the radar listing. The frame index is stepped by the animation interval with wrap-around, and the tile URL is built from the current frame.
- **Smaller helpers.** The air-quality augmentation; message lookup with English fallback and `{name}` filling; the greeting by hour; the temperature colour bands; the hourly and daily chart rows; and the fly-to plan chosen from the distance.

Modules, one per file:

| module | file |
|---|---|
| `Wrappers` | `wrappers.dfy` |
| `Text` | `text.dfy` |
| `Records` | `records.dfy` |
| `Geocode` | `geocode.dfy` |
| `OpenMeteo` | `openmeteo.dfy` |
| `Backend` | `backend.dfy` |
| `Resolve` | `resolve.dfy` |
| `AirQuality` | `airquality.dfy` |
| `Wards` | `wards.dfy` |
| `Radar` | `radar.dfy` |
| `Display` | `display.dfy` |

How the model is built:

- **JSON.** Values are records of optional fields; a missing key and `null` are both `None`.
- **`a ?? b ?? c`** is `FirstSome([a, b, c])`.
- **Requests.** Every request is an input that holds its outcome: `OmReply`, `BackendReply`, `GeoReply`, `AqiReply`, the radar `Listing` and the per-ward `FetchOutcome`.
- **Clock.** Each reading of `Date.now()` in the ward loop is an element of `nows`.
- **Coordinate label.** The `lat.toFixed(2), lon.toFixed(2)` string is an input, `coordLabel`.

The ward loop, the sanitiser loop, the resolver and the radar state are imperative:

- **`Wards.WardBoard`** is a class. Its fields are the ward list and the local-storage item.
- **`Radar.RadarAnimator`** is a class. Its fields are the radar state variables.
- **The loops and the resolver** are methods, each proved against a function that specifies it.

## Model

| member | source | states |
|---|---|---|
| Wrappers.FirstSome | src/WeatherMap.js:1245 | a `??` chain is missing exactly when every link is, and otherwise equals the first present link |
| Wrappers.At | src/WeatherMap.js:1284 | indexing an array reads the element, or `undefined` past the end |
| Text.Split | src/WeatherMap.js:1382 | `split(/[,，\s]+/)` always yields at least one piece |
| Text.FirstSepSpec | src/WeatherMap.js:1382 | the first piece ends at the first separator and holds none |
| Text.SepRunSpec | src/WeatherMap.js:1382 | a separator run is all separators and stops before a non-separator |
| Text.SplitPartsSepFree | src/WeatherMap.js:1382-1386 | no piece holds a separator, so `trim()` leaves every piece unchanged |
| Text.SplitJoin | src/WeatherMap.js:1382-1396 | splitting a join of clean tokens on a separator run gives the tokens back |
| Text.Slice | src/WeatherMap.js:1280 | `slice` clamps both bounds and agrees with the sub-sequence inside the string |
| Text.NatToString | src/WeatherMap.js:1308 | a template literal prints a number as a non-empty run of decimal digits |
| Text.SanitizeCityName | src/WeatherMap.js:1379-1397 | the loop with its `seen` set and `unique` list returns what the specification `Sanitize` gives |
| Text.DedupMembers | src/WeatherMap.js:1385-1391 | the kept tokens are non-empty and pairwise distinct, and are exactly the non-empty input tokens |
| Text.DedupKeepsOrder | src/WeatherMap.js:1385-1391 | the kept tokens appear in the order of their first occurrences |
| Text.DedupKeepsFirstOccurrences | src/WeatherMap.js:1385-1391 | the three facts above, and at most as many tokens kept as split |
| Text.DedupKeepsAllIff | src/WeatherMap.js:1385-1394 | every token is kept exactly when none is empty and none repeats, and then the kept list is the split list |
| Text.RejoinerIsSeparatorRun | src/WeatherMap.js:1396 | both joiners, `', '` and `' '`, are non-empty separator runs |
| Text.SanitizeDropsRepeat | src/WeatherMap.js:1378-1397 | "Tokyo, Tokyo" becomes "Tokyo" for any clean token |
| Text.SanitizeKeepsDistinct | src/WeatherMap.js:1378-1397 | "Shibuya, Tokyo" comes back unchanged for any two different clean tokens |
| Text.SanitizeUnchangedIff | src/WeatherMap.js:1394 | a non-empty name comes back unchanged if and only if splitting it yields no empty and no repeated token |
| Text.SanitizeTokens | src/WeatherMap.js:1379-1397 | the tokens of the result are the first occurrences of the input's non-empty tokens |
| Text.SanitizeIdempotent | src/WeatherMap.js:1379-1397 | sanitising twice is sanitising once (falsy input included) |
| Geocode.PlaceCandidates | src/WeatherMap.js:1244-1245 | the five candidates of the chain, in order, with a missing address read as `{}` |
| Geocode.ReverseGeocode | src/WeatherMap.js:1232-1250 | a failed request gives `null`; otherwise the first present candidate, `null` exactly when all are missing |
| Geocode.CityWins | src/WeatherMap.js:1245 | the address's city wins over every other field |
| Geocode.DisplayNameFallback | src/WeatherMap.js:1244-1245 | without an address the display name is used |
| OpenMeteo.TableEntriesAreNotFallbacks | src/WeatherMap.js:200-229 | no table entry looks like a `code:` fallback |
| OpenMeteo.DescribeFallbackIff | src/WeatherMap.js:1308 | the description has the fallback form if and only if the code is missing or not in the table, and then it names the code |
| OpenMeteo.DescribeClearSky | src/WeatherMap.js:201 | code 0 reads 晴れ |
| OpenMeteo.DescribeUnknown | src/WeatherMap.js:1308 | code 999 reads `code:999` |
| OpenMeteo.IndexOf | src/WeatherMap.js:1277 | `indexOf` gives the first match, or -1 exactly when there is none |
| OpenMeteo.FindPrefix | src/WeatherMap.js:1280 | `findIndex(startsWith)` gives the first time with the prefix, or -1 exactly when there is none |
| OpenMeteo.SampleIndex | src/WeatherMap.js:1275-1282 | the exact time match, else the first entry of the same hour, else 0; a missing current time throws when there are hourly times (the same-hour search calls `current.time.slice`) and gives 0 when there are none |
| OpenMeteo.SampleReadsChosenIndex | src/WeatherMap.js:1283-1292 | humidity, rain probability (defaulting to 0) and hourly code are read at the chosen index |
| OpenMeteo.HourlyCodePreferred | src/WeatherMap.js:1297 | the hourly code wins over `current_weather.weathercode` |
| OpenMeteo.OpenMeteoFailsOnlyWhen | src/WeatherMap.js:1256-1322 | the client gives `null` if and only if the request failed or the current block has no time while the hourly time list is present and non-empty |
| OpenMeteo.OpenMeteoRecordShape | src/WeatherMap.js:1312-1316 | a record has one described condition, the current temperature and wind, the payload under `openMeteo` and source `open-meteo` |
| OpenMeteo.OpenMeteoCityPrecedence | src/WeatherMap.js:1311 | the known name, else the geocoded place, else the coordinate string |
| Backend.BackendNeedsAName | src/WeatherMap.js:1327-1336 | without a known or geocoded name the backend gives `null`; with a known name the geocoder does not matter |
| Backend.UnwrapPrecedence | src/WeatherMap.js:1343 | `data` wins over `result`, which wins over the body |
| Backend.PlainShapeCity | src/WeatherMap.js:1345-1360 | without `current`: the city is `d.city` unless falsy or "current", then `d.name`, then the chain |
| Backend.WindCoalescing | src/WeatherMap.js:1351-1352 | each wind field is the first present one of its chain, missing only when all are |
| Backend.CurrentShapeNeverRejected | src/WeatherMap.js:1349-1368 | with `current` the answer always has one condition and is never rejected |
| Backend.KnownNameWins | src/WeatherMap.js:1362 | a known name overrides the city of the answer |
| Backend.BackendRejectsEmpty | src/WeatherMap.js:1365-1370 | an answer is rejected if and only if the temperature is missing (0 counts as present) and there is no condition; an accepted one keeps fields, payload and source |
| Resolve.ProviderOrder | src/WeatherMap.js:1400-1409 | the two providers each come once; the backend comes first if and only if the preference is `backend-first` |
| Resolve.GetWeatherData | src/WeatherMap.js:1399-1421 | the first provider is tried; the second is tried if and only if the first answered `null`; the result is the answer with a sanitised city, or the `none` record (no conditions, `main` and `raw` empty), or the `error` record |
| AirQuality.AqiRequest | src/WeatherMap.js:62-65 | a request is made if and only if a record is shown with non-zero coordinates and no AQI, and it asks about that record's coordinates |
| AirQuality.MergeAqi | src/WeatherMap.js:69-77 | the updater keeps the record it is given and sets its AQI from an answer with a `current` block; any other answer changes nothing |
| AirQuality.Deliver | src/WeatherMap.js:62-79 | the request is decided from the record that asked, and the answer is merged into the record shown when it arrives |
| AirQuality.Augment | src/WeatherMap.js:62-81 | when no other record is shown before the answer arrives: the record is never changed; the AQI is merged only for a record with non-zero coordinates and no AQI, and only from an answer with a `current` block |
| AirQuality.StaleAnswerLandsOnShown | src/WeatherMap.js:62-79 | an answer that arrives after another place was chosen sets that place's AQI, replacing one it had and even when its coordinates would never have asked |
| AirQuality.AugmentIdempotent | src/WeatherMap.js:63 | after a merged answer no further request is made, and running the effect again changes nothing |
| Wards.InitialList | src/WeatherMap.js:1428-1438 | one idle row per ward, in order |
| Wards.Merge | src/WeatherMap.js:1483 | `{ ...row, ...data }` keeps the id unless the patch sets it, and takes the patch's status when it has one |
| Wards.DonePatchOverwrites | src/WeatherMap.js:1459-1483 | a done update leaves the same row whatever the row was |
| Wards.FindIndex | src/WeatherMap.js:1481 | `findIndex` stays in `[-1, length)` |
| Wards.FindIndexFindsFirst | src/WeatherMap.js:1481-1482 | -1 exactly when no row has the id, otherwise the first row that has it |
| Wards.ApplyAll | src/WeatherMap.js:1478-1487 | applying updates keeps the list length |
| Wards.ApplyAllConcat | src/WeatherMap.js:1476-1504 | applying two runs of updates in turn is applying their concatenation, so flushing in batches ends where one flush would |
| Wards.ApplyAllAt | src/WeatherMap.js:1480-1484 | with distinct ids, updates for one row's id change that row only |
| Wards.LoadCache | src/WeatherMap.js:1441-1447 | a saved cache is loaded as it is; a missing or unparseable item loads as `{}` |
| Wards.FreshBoundary | src/WeatherMap.js:1458 | an entry is used if and only if `now - ts < CACHE_TTL` (600000 ms); at exactly ten minutes it is stale |
| Wards.WardStep | src/WeatherMap.js:1456-1474 | a hit gives one done update and no write; a miss gives `loading` then exactly one done or error update; the cache is written, at this ward's id only, if and only if the resolver returned a record. `getWeatherData` turns every provider failure into a record, so a ward whose providers all failed also ends done and is cached with the `none` record |
| Wards.Run | src/WeatherMap.js:1456-1490 | a cache that keeps each ward under its own id stays that way; a run that saved nothing leaves the cache as loaded |
| Wards.RunCacheAt | src/WeatherMap.js:1456-1472 | with distinct ids, each visited ward's id ends holding its fresh entry, else its fetched record stamped with the fetch time, else (the resolver threw) what it held before; later wards never overwrite it |
| Wards.RunCachesEveryServedWard | src/WeatherMap.js:1456-1472 | with distinct ids, every ward that hit the cache or was fetched has an entry after the run |
| Wards.RunKeepsOtherIds | src/WeatherMap.js:1470 | the loop writes the cache only at the ids of the wards it fetched |
| Wards.SettledIsFinal | src/WeatherMap.js:1459-1473 | every ward ends done (cache hit or fetched) or error (fetch threw), never idle or loading |
| Wards.StepSettles | src/WeatherMap.js:1457-1474 | one iteration settles its ward's row and leaves the other rows alone |
| Wards.RunSettles | src/WeatherMap.js:1456-1505 | after the first `k` wards, their rows are settled and the rest are still idle |
| Wards.Wards23Distinct | src/WeatherMap.js:86-110 | the 23 ward ids are distinct |
| Wards.WardBoard.Flush | src/WeatherMap.js:1478-1488 | one `setWardWeatherList` applies the batch to the list and leaves storage alone |
| Wards.WardBoard.FlushPending | src/WeatherMap.js:1477-1489 | a flush moves the pending updates into a new batch, and the list holds every flushed update |
| Wards.WardBoard.VisitWard | src/WeatherMap.js:1457-1474 | one pass pushes the updates and writes and saves the cache as `WardStep` says |
| Wards.WardBoard.Iterate | src/WeatherMap.js:1456-1490 | one iteration keeps the loop invariant: cache, storage, flushed and pending updates are those of the run so far |
| Wards.WardBoard.VisitAll | src/WeatherMap.js:1456-1490 | the loop ends in the state of the run over all wards |
| Wards.WardBoard.FlushRemainder | src/WeatherMap.js:1493-1504 | the remainder becomes the last batch; the list holds every update; every batch but the last holds at least five |
| Wards.WardBoard.RefreshWards | src/WeatherMap.js:1425-1505 | the list is the initial list with all the run's updates applied; the batches are the updates in order; storage is saved iff some ward missed the cache and its resolver returned a record; with distinct ids and a well-formed cache every row is settled; with distinct ids the saved cache holds at each ward's id the entry `CachedAfter` names |
| Wards.WardBoard.FetchAllWards | src/WeatherMap.js:1425-1505 | the same over `WARDS_23`, whose ids are distinct; when every ward hit the cache or was fetched, the stored cache has an entry for each of the 23 wards |
| Radar.ListingHost | src/WeatherMap.js:1641 | a missing or empty `host` falls back to the default host |
| Radar.TileUrlShape | src/WeatherMap.js:1672 | the tile URL is the host, then the path, then `/256/{z}/{x}/{y}/2/1_1.png` |
| Radar.TileUrlInjective | src/WeatherMap.js:1672 | different frame paths give different tile URLs |
| Radar.Advance | src/WeatherMap.js:1652-1655 | from -1 or a valid frame the next index is a valid frame, namely `(i + 1) mod length` |
| Radar.TicksAreModular | src/WeatherMap.js:1651-1656 | `m` ticks from a valid frame move `m` frames forward modulo the frame count |
| Radar.FullRoundReturns | src/WeatherMap.js:1651-1656 | a full round of ticks returns to the starting frame |
| Radar.RadarAnimator.constructor | src/WeatherMap.js:127-133 | no frames, index -1, paused, no tile, nominal speed 1000 |
| Radar.RadarAnimator.Hide | src/WeatherMap.js:1625-1629 | hiding drops the tile and stops playback; the frames and the index stay |
| Radar.RadarAnimator.Load | src/WeatherMap.js:1632-1645 | a non-empty listing replaces the frames, starts the index at the latest frame and builds the tile from the listing's host; anything else changes nothing |
| Radar.RadarAnimator.SyncTile | src/WeatherMap.js:1664-1674 | with a frame selected the tile is rebuilt, always under the hard-coded host |
| Radar.RadarAnimator.Show | src/WeatherMap.js:1624-1674 | after loading, the tile ends on the latest frame under the hard-coded host whatever host the listing named; a failed or empty listing leaves frames, index and tile as they were |
| Radar.RadarAnimator.Tick | src/WeatherMap.js:1649-1674 | while playing with frames, the index advances with wrap-around; the tile is rebuilt when the index moved and kept when it did not (a single frame), since the index effect then does not run |
| Radar.RadarAnimator.TogglePlay | src/WeatherMap.js:1951 | the play state flips and nothing else changes |
| Radar.RadarAnimator.Reset | src/WeatherMap.js:1954-1960 | playback pauses at frame 0; the tile shows that frame when the index moved, and is kept when the index was already 0 |
| Radar.ReshownWithoutListingKeepsNoTile | src/WeatherMap.js:1624-1674 | hiding the layer, showing it again with a failed listing and pressing reset at frame 0 leaves no tile |
| Radar.RadarAnimator.SetPlaySpeed | src/WeatherMap.js:1967 | the speed is stored and nothing that playback reads changes |
| Display.InitialLocale | src/WeatherMap.js:366 | a missing or empty stored locale gives `ja`, any other is kept |
| Display.Lookup | src/WeatherMap.js:368 | the text is the key itself or its entry in the chosen language or in English |
| Display.LookupFallbackOrder | src/WeatherMap.js:368 | the chosen language wins when it has the key, a language without it reads what English reads, and an unknown key reads as itself |
| Display.FillConcatPlain | src/WeatherMap.js:369 | text without an opening brace passes through filling unchanged |
| Display.FillPlain | src/WeatherMap.js:369 | a message without an opening brace is not changed by filling |
| Display.FillPlaceholder | src/WeatherMap.js:369 | `{name}` becomes its value, or nothing when it has none |
| Display.TranslatePlainMessage | src/WeatherMap.js:367-370 | `t` of a message without placeholders is the looked-up text |
| Display.PartOfDay | src/WeatherMap.js:373-383 | morning if and only if the hour is before 11, evening if and only if it is 18 or later |
| Display.PartOfDayMonotone | src/WeatherMap.js:373-383 | a later hour never gives an earlier part of the day |
| Display.GreetingByBand | src/WeatherMap.js:373-383 | the greeting depends on the hour only through its band; English gets the default words; Japanese says おはようございます exactly before 11 |
| Display.TempBand | src/WeatherMap.js:389-393 | the band's interval `(bound[b-1], bound[b]]` holds the temperature |
| Display.TempBandUnique | src/WeatherMap.js:389-393 | no other band's interval holds it |
| Display.TempBandMonotone | src/WeatherMap.js:389-393 | a warmer temperature never gets a colder band |
| Display.TempToColor | src/WeatherMap.js:385-394 | a missing temperature gets the no-data colour, any other the colour of its band |
| Display.ColourIdentifiesBand | src/WeatherMap.js:385-394 | two temperatures share a colour if and only if they share a band; no temperature gets the no-data colour |
| Display.Take | src/WeatherMap.js:415-418 | `slice(0, n)` keeps the first `min(n, length)` elements |
| Display.SpaceIndex | src/WeatherMap.js:448 | the first space, or the length |
| Display.SecondFieldOfStamp | src/WeatherMap.js:448 | `split(' ')[1]` of "YYYY-MM-DD HH:mm" is the clock part |
| Display.GetHourlyData | src/WeatherMap.js:409-455 | never more than 24 rows |
| Display.HourlyFromOpenMeteo | src/WeatherMap.js:413-425 | with an Open-Meteo time axis: `min(24, length)` rows; row `i` reads hour `i` of the full arrays, characters 11-16 of its time, missing values as 0 |
| Display.HourlyFromForecast | src/WeatherMap.js:430-454 | otherwise the first two forecast days' hours, at most 24, in order; else no rows |
| Display.DayDescriptionAgreesWithDescribe | src/WeatherMap.js:474 | the week view's description is empty exactly where the current description falls back to `code:…`, and otherwise equal to it |
| Display.DailyRows | src/WeatherMap.js:458-479 | one row per day of the daily axis, uncapped, each reading the same index of every array; no rows without a daily axis |
| Display.BaseZoomOut | src/WeatherMap.js:545-549 | the band level is between 4 and 7 |
| Display.ZoomOutLevel | src/WeatherMap.js:543-552 | the level is at least 3 and at most the band level, at least two below the current zoom unless clamped to 3, and one of 3, the band level or the current zoom minus 2 |
| Display.ZoomOutLevelAntitone | src/WeatherMap.js:543-552 | a farther target never gives a higher zoom-out level |
| Display.PlanFlightBands | src/WeatherMap.js:526-590 | no move under 100 m; zoom out first if and only if over 30 km; a flight ends at the requested zoom or the current one; the direct flight lasts 0.5 to 0.8 s |
| Display.FailedDistanceZoomsOut | src/WeatherMap.js:531-552 | a failed distance measurement is treated as 100 km, so the map zooms out to level 6 at most |

## Left out

- **Network I/O.** Requests to Open-Meteo, the backend, Nominatim, RainViewer and the air-quality API are inputs holding their outcome, with no order or timing between them.
- **Pacing and playback timers.** The 200 ms pause before each ward fetch is a no-op step. The 500 ms `setInterval` is one `Tick` per firing.
- **Local storage.** It is a field holding a missing item, an unparseable item or a saved cache (in `Wards.WardBoard`), or an input (`Display.InitialLocale`). A failing `setItem` is not modelled.
- **Stored non-object cache.** A stored cache that parses to something other than an object (say `null`) is not modelled. It would make `cache[w.id] = …` throw after the done update was pushed. `getWeatherData` itself never throws, so the `Threw` outcome of `Wards.FetchOutcome` (an error update instead of a done one) is not reachable from the code as written; it is kept so that the loop's error branch is modelled.
- **Coordinate label.** The `toFixed(2)` string is an input and is not derived from the coordinates.
- **Exception position.** `Resolve.GetWeatherData` raises an exception of the resolver's own body once the providers in `tried` have been called, not at an arbitrary statement.
- **Number coercion.**
  - `Number(temp)` of a string and `NaN` are not modelled. `Display.TempToColor` takes a number or nothing.
  - `|| 0` on `NaN` is not modelled.
- **Timestamp arithmetic and entry shape.** `Date.now() - cached.ts` with a missing `ts` is not modelled: cache entries always hold a time. Entries also always hold a shaped record: a stored entry with a time but no `data` would spread `undefined` into a `done` row without weather fields (src/WeatherMap.js:1458-1462), and that case is not modelled.
- **React state.**
  - Updater functions are applied in the order they were queued.
  - `setWardWeatherList(prev => …)` runs against the list left by the previous flush.
  - After the radar listing callback, the index effect runs before any other update.
  - The record shown when an air-quality answer arrives is an input of `AirQuality.Deliver`; the selections that led to it are not modelled.
- Wards.WardBoard.Flush, Wards.WardBoard.FlushPending: a flush applies the batch as it stood when it was queued. In the source the updater reads the shared `updates` array, which is emptied right after `setWardWeatherList` returns (src/WeatherMap.js:1478-1488). When React defers the updater to render time (other state updates are pending), it sees an emptied batch or later updates instead. That loss of updates is not modelled.
- Wards.WardBoard.FetchAllWards: runs do not overlap. The data-source buttons call `fetchAllWards` again while a run may still be going (src/WeatherMap.js:1864, 1870), and both runs then share the ward list and the stored cache. That interleaving is not modelled.
- **Flight animation.** What `flyToLocation` does on the map once it has a plan is Leaflet animation and is left out. So are the early returns when the map is missing or the target is not numeric.
- **Presentation and browser APIs.** Rendering, charts, the heat map, icons and themes, geolocation and IP lookup, speech output, `debounce` and `src/index.js` are left out.
- **Translation tables.**
  - The message tables are an input of `Display.Lookup`. Only the greeting words are written out.
  - `t` on a key whose entry is not a string (the `greeting` object) is not modelled.
- **Radar speed.** `radarPlaySpeed` is stored but never read, since the interval is fixed at 500 ms. `Radar.RadarAnimator.SetPlaySpeed` models exactly that.
- **Radar host.** Both tile builders are modelled as written: the index effect always rebuilds the URL with the hard-coded `https://tilecache.rainviewer.com`, so the listing's `host` survives only until that effect runs.
- **Reset with no frames.** `Radar.RadarAnimator.Reset` requires frames to be loaded, because its button is only shown then (src/WeatherMap.js:1931).
- **`tempToColor` callers.** `tempToColor` is not called anywhere in the component. It is modelled for its own contract only.
