# ha-adaptive-lighting in Dafny

A Dafny model of the logic of ha-adaptive-lighting, a Home Assistant
adaptive-lighting service with a companion command-line tool. It covers:

- **The adaptive-lighting service.** Lights follow the sun's elevation.
  - The colour temperature and brightness curves are piecewise-linear functions of the elevation.
  - A control loop decides which lights are adaptive. It sends each eligible light one
    `light.turn_on` per cycle: gated by the master switch, the light's power state and
    manual overrides, with a sleep-mode cap on the Kelvin and the Kelvin converted to mireds.
  - A user's manual change pauses a light for 30 minutes. When that timer fires, the light
    is updated again.
- **The libraries of the command-line tool:**
  - the argument validators and the `r,g,b` parser;
  - the TTL cache of fetched states;
  - the API-call recorder;
  - the Datadog log shipper, which buffers entries and ships them in batches of ten;
  - the text formatters.
- **The data logic of the commands:**
  - `query find`, `query count` and `query stats`;
  - `info domains`;
  - `adaptive status`, `enable`, `disable` and `simulate`;
  - `lights list` and `lights batch`;
  - the poll-to-poll change detectors of `watch entity` and `watch lights`.

**How the model is built**
- There is one module per source file. A few modules hold what several sources share:
  - `JsBuiltins`: the ECMAScript string and number built-ins the code relies on, including
    `parseInt` as section 19.2.5 of ECMA-262 defines it, and `Math.round` as ⌊x + ½⌋;
  - `Seqs`: `filter` and `find` with their order facts;
  - `Entities`: entity snapshots and attribute values;
  - `Grouping`: the `Map`-counting loop and the stable descending sort that `query count`
    and `info domains` share.
- Objects whose fields the source updates become classes. Their methods state their new
  state through a pure step function, and the lemmas are about those functions. The classes
  are the cache, the two loggers, the service's switch-and-override state and the two watchers.
- Loops in the source are `while` loops proved against the function they compute:
  - the service's update of every light;
  - the counting passes;
  - the `batch` calls;
  - the `watch lights` pass;
  - the summary lines of the API recorder.
- Inputs from the outside world are parameters:
  - the clock and the sun's elevation;
  - fetched states and poll results;
  - which service calls fail;
  - whether the `--filter` text is JSON.
- Errors that the source throws are values of a result type.

## Model

| member | source | states |
|---|---|---|
| Solar.ColorTempAsRamps | src/utils/solar.ts:54-82 | the colour temperature is `night` plus a clamped ramp to `sunrise` over [-12°, 0°] plus a clamped ramp to `midday` over [0°, 30°] |
| Solar.ColorTempBreakpoints | src/utils/solar.ts:59-81 | the curve is `night` at -12°, `sunrise` at 0° and `midday` at 30° and at 60° |
| Solar.ColorTempPlateaus | src/utils/solar.ts:59-81 | below -12° the curve is `night`; from 30° on it is constant and equal to `midday` (the `< 60` branch and the last branch agree) |
| Solar.ColorTempLipschitz | src/utils/solar.ts:54-82 | for any configuration the curve changes by at most a fixed number of Kelvin per degree between any two elevations |
| Solar.ColorTempContinuous | src/utils/solar.ts:63-81 | for every elevation and every ε > 0 there is a δ > 0 within which the curve stays within ε; in particular the two ramps meet the plateaus at -12°, 0° and 30° |
| Solar.ColorTempMonotone | src/utils/solar.ts:54-82 | with night ≤ sunrise ≤ midday the colour temperature never falls as the sun rises |
| Solar.ColorTempRange | src/utils/solar.ts:54-82 | with night ≤ sunrise ≤ midday the colour temperature lies in [night, midday] |
| Solar.DefaultColorTempRange | src/utils/solar.ts:18-23 | with the default configuration (2700/5500/2700/2200) the curve lies in [2200, 5500] K |
| Solar.ColorTempIgnoresSunset | src/utils/solar.ts:14 | changing the `sunset` field never changes the curve |
| Solar.BrightnessAsRamps | src/utils/solar.ts:101-120 | brightness is 30 plus a clamped ramp of 40 over [-6°, 0°] plus a clamped ramp of 30 over [0°, 30°] |
| Solar.BrightnessPlateaus | src/utils/solar.ts:101-120 | 30 % below -6°, 100 % from 30° on, and 30, 70 and 100 at -6°, 0° and 30° |
| Solar.BrightnessLipschitz | src/utils/solar.ts:101-120 | brightness changes by at most a fixed number of percentage points per degree |
| Solar.BrightnessContinuous | src/utils/solar.ts:107-117 | brightness is continuous at every elevation, so at -6°, 0° and 30° |
| Solar.BrightnessMonotone | src/utils/solar.ts:101-120 | brightness never falls as the sun rises |
| Solar.BrightnessRange | src/utils/solar.ts:97-120 | brightness lies in [30, 100], inside the promised 0–100 % |
| AdaptiveLighting.GetAdaptiveLights | src/services/adaptive-lighting.ts:62-67 | exactly the domain's lights whose `supported_color_modes` includes `color_temp`, in their order; a missing list counts as empty |
| AdaptiveLighting.TargetKelvin | src/services/adaptive-lighting.ts:83-88 | without sleep mode the Kelvin is the default curve's; with it the Kelvin is the smaller of the curve and 2200 |
| AdaptiveLighting.SleepKelvinIsConstant | src/services/adaptive-lighting.ts:86-88 | in sleep mode exactly 2200 K is sent at every elevation |
| AdaptiveLighting.TargetKelvinRange | src/services/adaptive-lighting.ts:83-88 | the Kelvin sent lies in [2200, 5500] |
| AdaptiveLighting.MiredRange | src/services/adaptive-lighting.ts:97 | `round(1000000 / kelvin)` lies in [182, 455] for kelvin in [2200, 5500] |
| AdaptiveLighting.SleepMired | src/services/adaptive-lighting.ts:86-97 | in sleep mode the payload carries 455 mireds |
| AdaptiveLighting.AdaptiveSettings | src/services/adaptive-lighting.ts:83-98 | the payload's `color_temp` lies in [182, 455] (455 in sleep mode), and `brightness_pct` is the brightness curve's value, in [30, 100] |
| AdaptiveLighting.LightCommand | src/services/adaptive-lighting.ts:72-100 | `updateLight` sends nothing exactly when the master switch is off, the light is not `on` or the light is under override; otherwise it sends the light's id, the settings and a 30 s transition |
| AdaptiveLighting.CycleIsEligibleLights | src/services/adaptive-lighting.ts:114-120 | a cycle sends one command to each eligible light and to no other, in the lights' order |
| AdaptiveLighting.MasterOffSendsNothing | src/services/adaptive-lighting.ts:74 | with the master switch off a cycle sends no command |
| AdaptiveLighting.OverriddenLightUntouched | src/services/adaptive-lighting.ts:80 | no command of a cycle goes to a light under manual override |
| AdaptiveLighting.Attempts | src/services/adaptive-lighting.ts:94-108 | one attempt per command, in order, failing exactly for the lights whose call throws |
| AdaptiveLighting.ArmOverride | src/services/adaptive-lighting.ts:145-163 | a change attributed to a user sets that light's deadline to now + 30 min; any other change leaves the override map as it is |
| AdaptiveLighting.ArmedOverrideFacts | src/services/adaptive-lighting.ts:150-163 | an armed override replaces any earlier deadline of that light (one pending timer per light), leaves the other lights' deadlines alone, and stops the light's updates |
| AdaptiveLighting.ExpireOverride | src/services/adaptive-lighting.ts:157-158 | expiry removes that light's entry and keeps every other entry unchanged |
| AdaptiveLighting.ExpiryResumes | src/services/adaptive-lighting.ts:157-161 | after expiry the light is updated again exactly when the master switch is on and the light is on |
| AdaptiveLighting.AdaptiveLightingService.constructor | src/services/adaptive-lighting.ts:23-40 | the master switch starts on, sleep mode off, no overrides, nothing sent |
| AdaptiveLighting.AdaptiveLightingService.SetMaster | src/services/adaptive-lighting.ts:26-32 | the master switch takes the given position |
| AdaptiveLighting.AdaptiveLightingService.SetSleepMode | src/services/adaptive-lighting.ts:34-40 | the sleep switch takes the given position |
| AdaptiveLighting.AdaptiveLightingService.UpdateLight | src/services/adaptive-lighting.ts:72-109 | the call log grows by the one attempt `LightCommand` asks for, or by nothing |
| AdaptiveLighting.AdaptiveLightingService.UpdateAllLights | src/services/adaptive-lighting.ts:114-120 | the call log grows by one attempt per eligible adaptive light, in order; a failing call does not stop the others |
| AdaptiveLighting.AdaptiveLightingService.UpdateEach | src/services/adaptive-lighting.ts:119 | the loop over the lights appends exactly the cycle's attempts |
| AdaptiveLighting.AdaptiveLightingService.SetupOverrideDetection | src/services/adaptive-lighting.ts:141-145 | the watched lights are exactly the adaptive lights |
| AdaptiveLighting.AdaptiveLightingService.OnStateChange | src/services/adaptive-lighting.ts:145-163 | the override map becomes `ArmOverride` of the old map |
| AdaptiveLighting.AdaptiveLightingService.OnOverrideExpired | src/services/adaptive-lighting.ts:157-161 | the entry is removed and that light alone is updated once |
| Validators.ValidateEntityId | src/lib/validators.ts:1-14 | an empty id is "required"; every other rejection is a format error |
| Validators.ValidateEntityIdIsWellFormed | src/lib/validators.ts:1-14 | an id is accepted exactly when it is non-empty, contains a `.`, and the texts before the first and between the first and second `.` are non-empty |
| Validators.TrailingSegmentsUnchecked | src/lib/validators.ts:10-13 | appending further `.`-segments to an accepted id keeps it accepted |
| Validators.ValidateBrightness | src/lib/validators.ts:16-20 | accepts exactly the values in [0, 255] |
| Validators.ValidateKelvin | src/lib/validators.ts:22-26 | accepts exactly the values in [1000, 10000] |
| Validators.ValidateTransition | src/lib/validators.ts:40-44 | accepts exactly the values in [0, 3600] |
| Validators.FirstOutOfRange | src/lib/validators.ts:33-37 | finds the first component outside [0, 255], or none when all are inside |
| Validators.ValidateRGB | src/lib/validators.ts:28-38 | length error exactly when there are not 3 values; otherwise accepted exactly when all lie in [0, 255], the error naming the lowest bad index |
| Validators.ParsedParts | src/lib/validators.ts:47 | one `parseInt` of the trimmed piece per comma-separated piece |
| Validators.ParseRGB | src/lib/validators.ts:46-60 | format error exactly when there are not 3 pieces; "not numbers" exactly when some piece is NaN; success exactly when the three pieces parse into [0, 255], giving those values; any other failure names the lowest out-of-range index, with every earlier piece in range; no other error is possible |
| Validators.ParseRGBRoundTrip | src/lib/validators.ts:46-60 | `parseRGB("r,g,b")` gives back (r, g, b) for every r, g, b in 0..255 |
| Validators.ParseRGBTwoParts | src/lib/validators.ts:49-51 | two comma-separated numbers are a format error |
| Cache.InitialTtl | src/lib/cache.ts:5-9 | a truthy TTL argument is used; an absent or zero one leaves the 5000 ms default |
| Cache.GetOnlyEvicts | src/lib/cache.ts:18-29 | `get` never adds entries and removes at most the looked-up key, and only when it misses |
| Cache.ExpiryBoundary | src/lib/cache.ts:22-26 | an entry exactly `ttl` old is served; one a millisecond older is a miss and is deleted |
| Cache.GetAfterSet | src/lib/cache.ts:11-29 | `get` at the time of `set` returns the stored data (for a non-negative TTL) |
| Cache.OtherKeysUnaffected | src/lib/cache.ts:11-24 | `set` of one key and an expiring `get` of it leave every other key's lookups unchanged |
| Cache.SetRefreshes | src/lib/cache.ts:11-15 | a second `set` replaces data and timestamp, so the new data is served for a full TTL |
| Cache.TtlAppliesAtLookup | src/lib/cache.ts:22-23 | whether an entry is served depends on the TTL at lookup time, so `setTTL` re-judges existing entries |
| Cache.ClearedMisses | src/lib/cache.ts:31-33 | after `clear` every lookup misses |
| Cache.EntityCache.constructor | src/lib/cache.ts:3-9 | the cache starts empty with `InitialTtl` of the argument |
| Cache.EntityCache.Set | src/lib/cache.ts:11-16 | the entries become `Store` of the old entries |
| Cache.EntityCache.GetData | src/lib/cache.ts:18-29 | the result and the new entries are `Get` of the old entries |
| Cache.EntityCache.Clear | src/lib/cache.ts:31-33 | the entries become empty |
| Cache.EntityCache.SetTtl | src/lib/cache.ts:35-37 | the TTL takes the given value |
| ApiLogger.SummaryOfNothing | src/lib/api-logger.ts:36-41 | no calls give an empty summary |
| ApiLogger.SummaryHasOneLinePerCall | src/lib/api-logger.ts:36-41 | splitting a non-empty summary at line breaks gives back exactly one line per call, in order, when no recorded text has a line break |
| ApiLogger.SummaryLineShape | src/lib/api-logger.ts:38-39 | line i starts with `i+1. [` and ends in ERROR exactly for a call with a non-empty error, SUCCESS otherwise |
| ApiLogger.APILogger.constructor | src/lib/api-logger.ts:10-12 | recording starts disabled with no calls |
| ApiLogger.APILogger.Enable | src/lib/api-logger.ts:14-16 | sets the flag and touches nothing else |
| ApiLogger.APILogger.Disable | src/lib/api-logger.ts:18-20 | clears the flag and touches nothing else |
| ApiLogger.APILogger.Log | src/lib/api-logger.ts:22-26 | while enabled appends exactly the call at the end; while disabled changes nothing |
| ApiLogger.APILogger.GetCalls | src/lib/api-logger.ts:28-30 | returns the recorded calls |
| ApiLogger.APILogger.Clear | src/lib/api-logger.ts:32-34 | empties the calls and leaves the flag |
| ApiLogger.APILogger.GetSummary | src/lib/api-logger.ts:36-41 | the loop builds exactly `Summary` of the calls |
| DatadogLogger.EntryFields | src/lib/datadog-logger.ts:35-43 | every metadata key carries its metadata value; the fixed fields the metadata does not name keep `ha-cli`, the level and the tags |
| DatadogLogger.DdTagsEndWithLevel | src/lib/datadog-logger.ts:41 | the tags end with `level:` and the level's name |
| DatadogLogger.DisabledChangesNothing | src/lib/datadog-logger.ts:33-77 | while disabled, `log` and `flush` change neither the buffer nor the posts |
| DatadogLogger.FlushEmptyPostsNothing | src/lib/datadog-logger.ts:77 | flushing an empty buffer posts nothing |
| DatadogLogger.FlushShipsBuffer | src/lib/datadog-logger.ts:76-97 | a flush posts the whole buffer as one batch, in order, and empties the buffer whether or not the post goes through |
| DatadogLogger.FlushKeepsLogged | src/lib/datadog-logger.ts:79-80 | posted-then-buffered entries are the same before and after a flush: nothing is lost or reordered in the hand-over |
| DatadogLogger.LogAppends | src/lib/datadog-logger.ts:32-51 | an enabled `log` adds exactly its entry after everything logged so far |
| DatadogLogger.LogKeepsBufferShort | src/lib/datadog-logger.ts:45-50 | the buffer stays below 10 entries; the tenth entry ships the buffer with it |
| DatadogLogger.ApiCallRequestFields | src/lib/datadog-logger.ts:53-74 | level `error` exactly for a non-empty error; `request_data`, `response_status` and `error` present exactly when their inputs are |
| DatadogLogger.DatadogLogger.constructor | src/lib/datadog-logger.ts:21-30 | enabled exactly when an API key is set and logging is not switched off; empty buffer |
| DatadogLogger.DatadogLogger.Log | src/lib/datadog-logger.ts:32-51 | the new buffer and posts are `LogStep` of the old ones, and the buffer stays short |
| DatadogLogger.DatadogLogger.LogApiCall | src/lib/datadog-logger.ts:53-74 | logs the entry `ApiCallRequest` describes |
| DatadogLogger.DatadogLogger.Flush | src/lib/datadog-logger.ts:76-98 | the new buffer and posts are `FlushStep` of the old ones |
| DatadogLogger.DatadogLogger.Shutdown | src/lib/datadog-logger.ts:100-105 | flushes what is left |
| Output.FormatState | src/cli/utils/output.ts:45-56 | `on`, `off` and `unavailable` in any case get their lower-case label in green, grey and red; any other state is returned unchanged |
| Output.FormatStateIgnoresCase | src/cli/utils/output.ts:46 | states that differ only in letter case get the same label |
| Output.FormatStateIdempotent | src/cli/utils/output.ts:45-56 | formatting the label again gives the same label |
| Output.FormatKelvin | src/cli/utils/output.ts:67-75 | N/A exactly when `undefined`; a number prints as `<k>K`, yellow exactly below 3000 K, blue exactly above 5000 K, white otherwise; `null` prints as a yellow `nullK` |
| Output.BrightnessPercentRange | src/cli/utils/output.ts:80 | `round(b / 255 * 100)` is monotone, lies in [0, 100], and maps 0 to 0 and 255 to 100 |
| Output.FormatBrightness | src/cli/utils/output.ts:77-86 | N/A exactly when `undefined`; a number prints as its rounded percentage and `%`, grey exactly below 30 %, yellow exactly above 70 %, white otherwise; `null` prints as a grey `0%` |
| Output.BrightnessBuckets | src/cli/utils/output.ts:80-83 | on the 0–255 scale grey is exactly 0–75 and yellow exactly 180–255 |
| Output.FormattedNumbersReadBack | src/cli/utils/output.ts:62-86 | the numbers `formatNumber`, `formatKelvin` and `formatBrightness` print read back with `parseInt` |
| Output.TruncateShape | src/cli/utils/output.ts:88-91 | short strings are unchanged; a longer one becomes its first m−3 characters and `...`, exactly m long when m ≥ 3 |
| Output.TruncateIdempotent | src/cli/utils/output.ts:88-91 | truncating twice is truncating once, for every width |
| Output.TruncateFits | src/cli/utils/output.ts:88-91 | with a width of at least 3 the result never exceeds the width |
| Entities.DomainOf | src/cli/commands/info.ts:98 | the domain contains no `.`, is a prefix of the id, and is followed by a `.` when shorter than the id |
| Entities.DomainKeys | src/cli/commands/info.ts:97-99 | the domain of each entity, in order |
| Entities.FriendlyName | src/cli/commands/query.ts:42 | present exactly when `friendly_name` is a string attribute, and then that string |
| Entities.DisplayName | src/cli/commands/query.ts:69 | `friendly_name` or else `entity_id`: the friendly name when it is a non-empty string, the id otherwise |
| Entities.NumAttr | src/cli/commands/lights.ts:53-54 | the attribute's number exactly when it is a number, `null` exactly when it is JSON `null`, `undefined` otherwise |
| Grouping.TallyFacts | src/cli/commands/query.ts:98-118 | counting gives distinct keys, each counted as often as it occurs, all counts positive, one entry per distinct key, counts summing to the number of keys |
| Grouping.CountKeys | src/cli/commands/query.ts:100-118 | the counting loop computes `Tally` of the keys |
| Grouping.SortFacts | src/cli/commands/query.ts:120-122 | the sort by `b.count - a.count` gives a permutation in non-increasing count order |
| Grouping.SortStable | src/cli/commands/query.ts:120-122 | entries with equal counts keep their map order (the sort is stable) |
| Grouping.SortDistinct | src/cli/commands/query.ts:120-122 | sorting keeps the keys distinct |
| Grouping.CountByKeyFacts | src/cli/commands/query.ts:98-122 | one row per distinct key with its number of occurrences, rows in non-increasing count, counts summing to the number of keys |
| Query.ApplyAttr | src/cli/commands/query.ts:49-56 | `key=value` keeps exactly the entities having the key whose `String` value equals the value ignoring case; a bare `key` fails exactly when some entity has the key, else keeps nothing |
| Query.AttrsAreConjunction | src/cli/commands/query.ts:47-57 | repeated `--attr` filters with values are one filter by their conjunction |
| Query.PrefilterFacts | src/cli/commands/query.ts:27-45 | the domain, state, unavailable and name filters keep exactly the entities passing every given one, in order |
| Query.FindKeepsOrderAndFilters | src/cli/commands/query.ts:27-57 | `find` keeps an order-preserving selection whose entities pass every given filter, and with valued `--attr`s exactly those passing all of them |
| Query.DomainFilterIsDomainKey | src/cli/commands/query.ts:28 | for a domain without a dot, `startsWith(domain + ".")` holds exactly when the id's domain key is that domain and the id goes on after it |
| Query.Rows | src/cli/commands/query.ts:66-73 | min(50, n) rows, row i shows entity i |
| Query.OverflowNote | src/cli/commands/query.ts:76-79 | the "Showing first 50" note is printed exactly when more than 50 entities were found |
| Query.NoteIffRowsCut | src/cli/commands/query.ts:66-79 | the note appears exactly when fewer rows are shown than were found |
| Query.CountCommand | src/cli/commands/query.ts:98-137 | the rows are the counted and sorted keys, and the total is the number of entities |
| Query.CountRowsFacts | src/cli/commands/query.ts:98-137 | each key once, counts the number of entities under it, non-increasing, summing to the printed total; with `--by domain` no key contains a `.` |
| Query.UnknownGrouping | src/cli/commands/query.ts:113-114 | an unrecognised `--by` puts every entity in a single `unknown` row |
| Query.StatsBounds | src/cli/commands/query.ts:156-167 | `lights_on ≤ lights` and `automations_enabled ≤ automations`, and no count exceeds the total |
| Query.StatsDomains | src/cli/commands/query.ts:158 | the number of domains equals the number of rows of `count --by domain`, is at most the total and is positive when there is any entity |
| Info.DomainsCommand | src/cli/commands/info.ts:96-119 | the counting loop over the entities and the sort give `CountByKey` of their domains; the header counts the rows and the total line counts the entities |
| Info.DomainsFacts | src/cli/commands/info.ts:96-119 | each domain once, counted as the number of its entities, non-increasing, one row per distinct domain, counts summing to the total |
| Info.DomainMultiplicity | src/cli/commands/info.ts:97-100 | the count of a domain is the number of entities in it |
| Info.SameKeysAsQuery | src/cli/commands/info.ts:98 | `info domains` lists exactly what `query count --by domain` lists |
| AdaptiveCommand.Simulate | src/cli/commands/adaptive.ts:208-252 | a readable date gives its hour's row; an unreadable date (NaN hour) takes the last row, and fails with the `toISOString` error exactly when JSON output is asked for |
| AdaptiveCommand.SimulateFollowsTable | src/cli/commands/adaptive.ts:215-243 | every hour 0–23 lies in exactly one row of the hour table, and `simulate` gives that row's Kelvin and brightness |
| AdaptiveCommand.SimulateRange | src/cli/commands/adaptive.ts:215-243 | Kelvin in [2000, 6000] and brightness in [10, 255] at every hour |
| AdaptiveCommand.SimulateRisesThenFalls | src/cli/commands/adaptive.ts:215-243 | both values rise up to hour 12 and fall from hour 12 on, and are 6000 K and 255 for hours 12–16 |
| AdaptiveCommand.SimulatedPercent | src/cli/commands/adaptive.ts:251 | `brightness_percent` lies in [0, 100] |
| AdaptiveCommand.SimulateColours | src/cli/commands/adaptive.ts:259-260 | Kelvin is yellow exactly before 8 and from 22, blue exactly for 12–16; brightness grey exactly before 8 and from 22, yellow exactly for 8–16 |
| AdaptiveCommand.StatusFacts | src/cli/commands/adaptive.ts:21-46 | the warning appears exactly when no id starts with `switch.` and contains `adaptive_lighting`; otherwise one row per such switch, in order, counted in the header |
| AdaptiveCommand.ToggleFacts | src/cli/commands/adaptive.ts:60-135 | without `--global` and `--light` nothing is called; a call is made exactly when `--global` finds a switch, to the first id containing `global` and `adaptive_lighting` and starting with `switch.`, `turn_on` for enable and `turn_off` for disable |
| LightsCommand.ListLightsFacts | src/cli/commands/lights.ts:25-43 | `list` keeps exactly the `light.` entities passing every given area, state and colour-temperature filter, in order |
| LightsCommand.SupportsCtModes | src/cli/commands/lights.ts:38-43 | a mode list must include `color_temp` or `color_temp_kelvin`; a missing list excludes the light |
| LightsCommand.ListRowOf | src/cli/commands/lights.ts:52-62 | brightness and colour-temperature columns are N/A unless the light is `on`, and otherwise the formatters applied to the attributes as given, `null` included |
| LightsCommand.ColumnsOnlyWhenOn | src/cli/commands/lights.ts:53-60 | an off light shows N/A; an on light with a brightness shows its percentage; an on light reporting `null` shows a grey `0%` and a yellow `nullK` |
| LightsCommand.CallFor | src/cli/commands/lights.ts:276-285 | one call to the light's id: `turn_on` with the parsed options for `on`, `turn_off` with the transition for `off` |
| LightsCommand.ExecuteBatch | src/cli/commands/lights.ts:275-286 | one call per selected light, in order; the first throwing call ends the batch, and it completes exactly when no call throws |
| LightsCommand.Batch | src/cli/commands/lights.ts:229-286 | any command but `on` or `off` is refused before anything else; a non-JSON filter fails; then exactly an empty selection gives the no-match warning and exactly a non-empty dry run lists the selection, neither making a call; otherwise the lights are called in order, stopping right after the first failing one, and the batch completes exactly when none fails |
| LightsCommand.BatchSelectsLikeList | src/cli/commands/lights.ts:239-250 | the batch selection is the area's lights, as `list` shows them; `--filter` plays no part |
| Watch.EntityPollFacts | src/cli/commands/watch.ts:24-66 | the first successful poll shows the initial state; a later one reports exactly when the state or attributes differ; every successful poll replaces the snapshot, a failed one keeps it |
| Watch.EntityPollsKeepLastSuccess | src/cli/commands/watch.ts:63-66 | after any run of polls the snapshot is the last successful poll's |
| Watch.ChangedAttrLines | src/cli/commands/watch.ts:48-58 | a change report has a brightness or Kelvin line exactly when that attribute differs, showing both values formatted; a value that became `null` shows as a grey `0%` or a yellow `nullK`, a missing one as N/A |
| Watch.EntityWatcher.Poll | src/cli/commands/watch.ts:24-67 | the report and the new snapshot are `EntityPoll` of the old snapshot |
| Watch.ObserveFacts | src/cli/commands/watch.ts:115-127 | a new light is stored without a line; a known one gets a line and a new snapshot exactly when its state differs; a same-state poll with other attributes changes nothing |
| Watch.ObserveAllKeys | src/cli/commands/watch.ts:101-128 | the stored ids only grow, by the ids of the polled lights |
| Watch.ObserveAllKeepsOthers | src/cli/commands/watch.ts:115-127 | a stored light missing from the poll keeps its snapshot |
| Watch.ObserveAllLatest | src/cli/commands/watch.ts:115-127 | each polled light (its last occurrence) ends up stored with its polled state |
| Watch.ObserveAllChanges | src/cli/commands/watch.ts:115-127 | lines are only appended, at most one per polled light |
| Watch.LightsWatcher.Poll | src/cli/commands/watch.ts:103-131 | a failed poll changes nothing; otherwise the loop over the area's lights leaves exactly `ObserveAll` of the old snapshots and lines |

## Left out

- The sun's elevation is an input. The trigonometry and the calendar behind it are not modelled (`getSolarElevation`, `getCurrentColorTemp`).
- `updateLight` reads the clock twice, once for the Kelvin and once for the brightness. The model uses one elevation for both.
- Timers and concurrency are modelled only through their effects:
  - the periodic update cycle is one call of `UpdateAllLights`, and `Promise.all` is sequential here;
  - an override timer is the deadline stored in the override map, and its firing is `OnOverrideExpired` at or after that deadline;
  - the Datadog logger's periodic 5 s flush and its exit handlers are calls of `Flush`/`Shutdown`;
  - the polling intervals and the SIGINT handlers of `watch` are not modelled.
- Remote calls are not modelled; their outcomes are inputs:
  - Home Assistant requests, the axios POST to Datadog, and service calls;
  - which calls fail is given as a set of light ids;
  - a failed fetch is a `None` poll result.
- Rendering is not modelled: spinners, tables, console output and chalk escape codes. A coloured text is kept as a text and a colour tag.
- Timestamps in log entries, recorded calls and `watch` reports are not modelled.
- JSON is not modelled:
  - `JSON.stringify` of request bodies and `JSON.parse` of `--filter`; whether the filter parses is an input;
  - the attribute comparison of `watch entity`, where `JSON.stringify` equality is map equality (key order is not modelled);
  - `APILogger.detailed` and the request and response bodies of recorded calls.
- Numbers are modelled as follows:
  - The curves and validators work over `real`; there is no double rounding and no NaN, except `parseInt`'s NaN, which is `None`.
  - Attribute numbers are integers. `null` in their place is modelled.
  - `parseFloat` of `--transition` is left out; the text is passed on.
- Strings are modelled as follows:
  - `toLowerCase` folds ASCII letters only.
  - `trim` removes ASCII white space and the common Unicode spaces listed in `JsBuiltins.IsWhiteSpace`.
- Entities.FriendlyName: a `friendly_name` that is not a string is treated as absent. In the source, calling `toLowerCase` on it would throw.
- Query.CountKey: an `area_id` that is not a string is counted under its `String` text. The source's `Map` would keep it as a separate key of another type.
- Query.ApplyAttr: attribute names such as `constructor`, inherited from the JavaScript object prototype, are not modelled as present.
- Query.AttrsAreConjunction: states the loop over the `--attr` values (src/cli/commands/query.ts:47-57). The option is declared with an empty-list default but no collector (src/cli/commands/query.ts:15), so the command line most likely passes only the last `--attr`, which line 48 wraps into a one-element list. The option parser is not modelled.
- AdaptiveCommand.Simulate: a missing `--date` reads the clock, which is an input here (the hour). The printed text for an unreadable date (`Hour` shown as `NaN`, and the `toLocaleString` text) is not modelled.
- Entities.NumAttr: a `brightness` or `color_temp_kelvin` of another JSON type (string, boolean, list or object) is read as missing and shown as N/A. The source's formatters would print its text; Home Assistant sends a number or `null` there.
- Output.Truncate: lengths and cut points are counted in characters (code points). JavaScript's `length` and `substring` count UTF-16 code units, so the source cuts a name containing characters outside the Basic Multilingual Plane, such as emoji, earlier than the model and can split a surrogate pair.
- ApiLogger.APILogger.GetCalls: returns the calls as a value. The source returns its internal array by reference; no caller modifies it.
- Validators.ValidateEntityId: the `typeof` check is not modelled; the argument is always a string here.
- Watch.AttrTransition: attribute values are compared by value. The source compares arrays and objects by reference.
- The other commands are not part of this model: `entities`, `switches`, `services`, `scenes`, `climate`, `scripts`, `automation` and `config`. They are service pass-throughs or repeat the filters of `lights` and `query`.
- Not part of this model, because they hold no logic of their own:
  - the entry points (`src/index.ts`, `src/cli/index.ts`);
  - the HTTP client (`src/lib/ha-api.ts`);
  - configuration loading (`src/cli/utils/config.ts`);
  - the `info` subcommands other than `domains`;
  - `adaptive config` and the `lights` subcommands other than `list` and `batch`.
- Cache.GetAfterSet: stated for a non-negative TTL. A negative TTL set by `setTTL` makes even a fresh entry expire.
