# Puget Sound ferry and maritime weather cores

A Dafny model of the two pure pieces of the PNW maritime chatbot's serverless API.

**Next-departure projector.** This is `generateRealisticFerryData` in `api/ferries.js`.
- It is given the Seattle to Bainbridge timetable and the Pacific wall-clock reading.
- It scans today's slots and keeps the first four that lie strictly after the reading.
- If fewer than four remain, it tops up from the head of tomorrow's timetable and tags those entries as tomorrow's.
- Vessels are named round-robin by output position.

**Maritime weather classifiers** in `api/weather.js`:
- the `|| 'N/A'` missing-value extraction;
- `convertWindDirection`, `estimateSeaState` and `categorizeConditions`;
- the `smallCraftAdvisory` flag of `formatMaritimeWeather`.

The project has four modules:
- `Wrappers` holds `Option`.
- `Timetable` holds the slot and clock types, the timetable constant and the future-slot comparison.
- `Departures` holds the projector. It has two forms:
  - `Projection`, a functional reference definition over minute of day;
  - `NextDepartures`, a loop method that follows the source's two loops. It is proved equal to `Projection`.
- `Weather` holds the classifiers and the maritime block.

Departures are structured values (slot, tomorrow tag, vessel), not display strings.

The projector takes the timetable and the vessel list as parameters. The source's constants are `Timetable.SeattleToBainbridge` and `Departures.Vessels`, and the scenario lemmas use them.

The clock is the reading's hour, minute, second and millisecond. Each slot instant is built with seconds and milliseconds zeroed. The model compares the two in milliseconds of the day, as the source does, and proves that this is the same as comparing minutes.

Weather readings are `Option` values.
- Wind is in whole knots and visibility in tenths of a nautical mile; both are already rounded.
- Wind direction is in whole degrees.
- The conversions from metres per second and from metres are parameters.

## Model

| member | source | states |
|---|---|---|
| Timetable.SeattleToBainbridge | api/ferries.js:36-42 | The timetable has 15 slots. Every hour is in 0..23 and every minute in 0..59. The slots are strictly ascending in time of day, and so in (hour, minute) order as written. |
| Timetable.WrittenOrder | api/ferries.js:36-42 | For a timetable whose slots all have in-range fields, being strictly ascending in time of day is equivalent to being strictly ascending in (hour, minute) order, in both directions. |
| Timetable.IsFutureSlot | api/ferries.js:55-60 | The source compares the slot instant (seconds and milliseconds zeroed) with the reading in milliseconds. This holds exactly when the slot's minute of day is strictly after the reading's, so a slot in the current minute is excluded. |
| Departures.TodayDepartures | api/ferries.js:53-76 | The today scan, with its break at four, returns the earliest min(4, #future) future slots. They are untagged and numbered from vessel position 0. |
| Departures.NextDepartures | api/ferries.js:34-98 | The scan followed by the tomorrow top-up equals the reference projection at the reading's minute of day. Seconds and milliseconds never change the result. |
| Departures.FutureAmongExactly | api/ferries.js:53-60 | A slot among the first i rows is kept by the scan if and only if it is strictly after the current minute. |
| Departures.FutureAmongIsSuffix | api/ferries.js:53-60 | On an ascending timetable the kept slots are one contiguous run of rows ending at row i. Every row before the run is at or before the current minute. |
| Departures.TodayIsEarliestFuture | api/ferries.js:53-76 | The today part is the run of min(4, #future) rows starting at the first future row. Every earlier row is at or before now, and every row from there on is after now. |
| Departures.ProjectionLength | api/ferries.js:74-84 | The result has min(4, #future + #rows) entries, which is exactly 4 whenever the timetable has at least four slots. |
| Departures.RoundRobinVessels | api/ferries.js:45-95 | The vessel at output position i is vessels[i mod #vessels], whatever the slot or day. |
| Departures.TodayThenTomorrow | api/ferries.js:53-97 | An entry is tagged tomorrow if and only if it comes after the today part. Today entries are strictly after now. Tomorrow entries are the timetable's rows from the first one, in order. |
| Departures.Chronological | api/ferries.js:53-97 | On a well-formed timetable every departure is strictly after now, and the departures are strictly increasing in time across the day boundary. |
| Departures.Rollover | api/ferries.js:79-97 | Once the last slot of the day has passed, the result is the timetable's first min(4, #rows) slots, all tagged tomorrow. The first of them is on the first vessel. |
| Departures.AfternoonScenario | api/ferries.js:36-76 | At 14:00 the result is 14:10 WENATCHEE, 15:25 SPOKANE, 16:40 WALLA WALLA and 17:55 PUYALLUP, none of them tomorrow. |
| Departures.LateNightScenario | api/ferries.js:41-97 | At 23:30 the result is tomorrow's 5:20, 6:25, 7:55 and 9:10, on the four vessels in order. |
| Weather.OrMissing | api/weather.js:68-73 | A reading is missing exactly when it is absent or equal to zero; otherwise it passes through unchanged. |
| Weather.EstimateSeaState | api/weather.js:115-123 | Missing wind gives Unknown. Otherwise each band holds exactly on its interval: <4, 4..6, 7..10, 11..16, 17..21 and >=22 knots. |
| Weather.SeaStateMonotone | api/weather.js:117-122 | More wind never gives a calmer sea state. |
| Weather.CategorizeConditions | api/weather.js:125-131 | Either value missing gives Unknown. Otherwise Poor holds exactly when wind > 25 or visibility < 2 NM. Fair holds exactly when it is not Poor and wind > 15 or visibility < 5 NM. Good holds in every other case. |
| Weather.ConditionsMonotone | api/weather.js:128-130 | More wind and less visibility never move the category towards Good. |
| Weather.SmallCraftAdvisory | api/weather.js:97 | The advisory is raised exactly when wind is present and above 25 knots. A missing value never raises it. |
| Weather.AdvisoryMeansPoor | api/weather.js:96-98 | Under an advisory with visibility present, the conditions are Poor and the sea state is Very Rough. |
| Weather.RoundedSectorIsMathRound | api/weather.js:111 | The integer sector formula is within one half of degrees / 22.5, so it is the nearest integer. Ties cannot occur at whole degrees. |
| Weather.SectorIsNearest | api/weather.js:111 | The sector taken mod 16 is a compass point whose bearing is within 11.25 degrees of the reading, on the circle. |
| Weather.NearestPointUnique | api/weather.js:106-112 | At most one of the 16 points is nearest to a bearing, so the point is determined by the bearing. |
| Weather.ConvertWindDirection | api/weather.js:103-113 | A missing direction gives Variable. A bearing of 0 or more gives one of the 16 points, the nearest one. Whenever any point is given, including for a negative bearing whose rounded sector is a multiple of 16 (the -0 index), it is the nearest one. A negative bearing whose rounded sector is not a multiple of 16 indexes past the list and gives no point. |
| Weather.NorthWrap | api/weather.js:106-112 | Bearings from 349 to 360 degrees give N. |
| Weather.FormatMaritime | api/weather.js:63-99 | Knots or visibility are missing exactly when the raw value is absent or zero; otherwise each is the converted raw value. The direction is the compass conversion of the reading with 0 counted as missing, so an absent or 0-degree direction gives Variable. Sea state, advisory and conditions are the classifiers applied to the converted knots and visibility, so missing wind gives Unknown and no advisory, missing visibility gives conditions Unknown, and an advisory implies Very Rough, and Poor when visibility is present. |
| Weather.RenderMaritime | api/weather.js:95-99 | The maritime object carries the advisory flag unchanged. Each sea state and each conditions category is shown as exactly its own source string, from "Calm (0-1 ft)" to "Very Rough (8+ ft)" and from "Poor - Small craft advisory" to "Good - Favorable conditions", with "Unknown" exactly for the unknown cases. |
| Weather.RenderingIsFaithful | api/weather.js:115-131 | The source's display strings for the seven sea states and the four categories are pairwise distinct, so the rendered object determines the classification. |

## Left out

- The HTTP handlers, CORS headers, OPTIONS handling and error responses (api/ferries.js:2-32, api/weather.js:4-61): request plumbing with no logic to state.
- The calls to api.weather.gov and the navigation of its JSON: network I/O. The model starts from the extracted readings.
- The Pacific-time derivation through `toLocaleString` re-parsing, and daylight-saving effects of `setHours` and `setDate`: time-zone library behaviour. The model takes the wall-clock fields as input and treats tomorrow's slots as a plain 24 hours later.
- `toLocaleTimeString` display strings and the " (tomorrow)" suffix text: the output format depends on the locale library. A departure carries its slot and a tomorrow flag instead.
- The floating-point unit conversions (m/s to knots, metres to nautical miles, temperature, pressure): floating-point arithmetic. Wind and visibility conversions are function parameters of `Weather.FormatMaritime`; temperature, humidity and pressure are not modelled.
- Constant response fields, and fields that only echo the clock, the feed or the departure count: route, service, active vessels, terminals, alerts, the debug block (api/ferries.js:134-138), `currentPacificTime` (api/ferries.js:105), `timestamp`, the forecast text (api/weather.js:93), and the `conditions` display text built from wind, temperature, visibility, humidity and pressure (api/weather.js:87-94); also the `console.log` calls. They hold no logic beyond what the model states.
- Weather.ConvertWindDirection: takes whole degrees. A fractional bearing from the feed is not modelled, because the rounding of non-integer reals by `Math.round` needs floating-point semantics.
- Route or direction selection, live-feed merging and alert rules: api/ferries.js has none. It hardcodes one route and returns constant service, vessel, terminal and alert blocks (api/ferries.js:102-133).
