# Pollen tracker: history manager, geocoding names and cards in Dafny

This project models the deterministic core of a browser pollen tracker. The
tracker asks the Google Pollen API for a forecast. It shows one card per
significant pollen, keeps a per-location history of processed days, and draws
a small bar chart of that history. It also names the user's location through
reverse geocoding.

The modelled parts:

- **`DetailedPollenHistoryManager`** exists in two variants.
  - **Storage-backed** (`vercel/script.js`, module `ForecastHistory`): one
    JSON document in `localStorage` under `detailed-pollen-history`, wrapped
    as `{version, timestamp, data}`. It falls back to an in-memory map when
    storage is unusable. Each fetch files every forecast day under its own
    date.
  - **In-memory** (`detailed_history_script.js`, module `MemoryHistory`): a
    `Map` from location key to a `Map` from date to record.

  Both share these modules:
  - `DayProcessor`: `processDetailedPollenData`, which folds `plantInfo` and
    then `pollenTypeInfo` into a `types` table with a running maximum. The
    two variants differ only in which entries they admit.
  - `PollenTypes`: `getPollenTypeConfig`, including the alias table of the
    storage-backed variant, and `getTypeShortName`.
  - `Retention`: `cleanOldData`, which keeps the 30 latest dates.
  - `Location`: `getLocationKey`.
  - `History`: the stored record, `{timestamp, rawData, processed}`.
  - `Chart`: the selection behind `generateDetailedHistoryChart`. It filters,
    sorts by value, keeps the top six, clamps each bar height, and shows a
    no-data placeholder for missing days.
- **Reverse geocoding** (`script.js` and its copy in
  `Docs/google_geocoding_function.js`, module `Geocoding`):
  - address-component extraction;
  - the name priority chains of `loadLocationNameGoogle` and
    `loadLocationNameGoogleDetailed`;
  - best-result scoring;
  - `loadLocationNameFree`, which is identical in `vercel/script.js`;
  - the API-key gate of `loadLocationNameHybrid`.
- **`displayPollenData`** (module `Cards`): the significant-pollen merge. It
  appears in `pollen_tracker_js.js`, `script.js` and `vercel/script.js`; the
  copies differ only in the picture given to appended cards.
- **Lookup tables with defaults** (module `Labels`): `getLevelClass`, both
  `translateLevel` functions, `translate`, and the weather-icon map.

Imperative source code is modelled as imperative Dafny:

- The history managers are classes whose methods update `historyData`,
  `localStorage` and `memoryStorage`.
- `cleanOldData`, the per-day filing loop, `processDetailedPollenData`,
  `getDateRange`, the extraction and scoring loops, and the card merge are
  methods with loops.
- Each such method is proved equal to a specification function. The lemmas
  state the properties of that function.

The environment is passed in as parameters:

- `localStorage`, as a map from key to slot;
- whether storage exists, and whether its probe works;
- whether a write throws;
- `Date.now()`;
- the calendar, as `calendar(i)` = the ISO date `i` days from today;
- the geocoding replies.

## Model

| member | source | states |
|---|---|---|
| Location.LocationKeyRoundTrip | vercel/script.js:135-137 | the key `lat,lon` with four decimals parses back to exactly the coordinates it was built from |
| Location.LocationKeyInjective | detailed_history_script.js:94-96 | two coordinate pairs share a location key only when they are equal |
| Location.Fixed4RoundTrip | vercel/script.js:136 | `toFixed(4)` text of a coordinate (a scaled integer, sign included) parses back to that coordinate |
| Location.Fixed4HasNoComma | vercel/script.js:136 | a formatted coordinate never contains the comma that separates the two halves of the key |
| PollenTypes.UnknownExactlyWhenUnresolved | vercel/script.js:321-355 | the descriptor has category `unknown` exactly when neither the table nor (storage-backed only) the alias table resolves the code; the fallback colour is `defaultColors[charCodeSum(code) % 5]`; a resolved code yields a table entry |
| PollenTypes.ShortNameEmptyOnlyForEmptyName | vercel/script.js:348-353 | a synthesised short name is the first three characters of the display name, in both languages, so it is empty exactly for an unresolved code with an empty display name |
| PollenTypes.VariantsDifferOnlyOnAliases | detailed_history_script.js:172-187 | the in-memory variant has no alias step: the two variants give different descriptors exactly for alias codes that are not table codes |
| PollenTypes.ChartLabelMatchesStoredShortName | vercel/script.js:468-473 | outside the alias codes of the storage-backed variant, the chart label is the stored descriptor's short name in the requested language, or its English one when that is empty |
| PollenTypes.TableEntriesAreKnown | vercel/script.js:15-76 | every reference-table entry has a known category and a non-empty English short name |
| DayProcessor.ProcessDetailedPollenData | vercel/script.js:244-318 | the two `forEach` loops compute `ProcessDay`: the plant pass, then the pollen-type pass, then `totalTypes` and `summary`; with `Variant` InMemory it is the loop of detailed_history_script.js:99-169, which admits only values above 0 |
| DayProcessor.PlantInfoTakesPrecedence | vercel/script.js:286-311 | a code carried by an admitted plant holds the last such plant's reading, whatever `pollenTypeInfo` says; any other code holds the first admitted pollen-type reading for it |
| DayProcessor.StoredReadingsAreAdmitted | vercel/script.js:260-311 | every stored reading was written for an entry that passes the admission test (storage-backed: `indexInfo` present and value missing or `>= 0`; in-memory, detailed_history_script.js:117 and 141: value present and `> 0`), with that entry's code, name, value (a missing one as 0), category (`|| 'Very Low'` when storage-backed) and descriptor; conversely every entry that passes the test has its code in `types` |
| DayProcessor.TypesEmptyIffNothingAdmissible | detailed_history_script.js:100-166 | `types` is empty exactly when there is no first day or none of its entries passes the admission test, and then `maxLevel` is 0, `maxCategory` 'Very Low' and `totalTypes` 0 |
| DayProcessor.MaxLevelIsFirstMaximum | vercel/script.js:245-308 | `maxLevel` bounds every reading the loops look at; an all-zero day keeps 'Very Low'; otherwise the category is that of the first reading reaching the maximum (strict `>`) |
| DayProcessor.ProcessDayShape | detailed_history_script.js:114-163 | `types` is the plant table followed by the pollen types whose codes it lacks; the maximum is the running peak over the plants, then those pollen types |
| DayProcessor.TotalTypesCountsKeys | vercel/script.js:314-315 | codes in `types` are unique, `totalTypes` is their number, the keys are the admitted codes of both lists, and the summary is "1 type" / "N types", or empty when there is no first day |
| DayProcessor.TypesAreContributionsForDistinctPlants | vercel/script.js:260-283 | when the admitted plants have distinct codes, `types` is exactly the readings the maximum saw, so `maxLevel` is the largest stored value, with its category |
| DayProcessor.RepeatedPlantCodeKeepsOverwrittenMaximum | vercel/script.js:267-280 | with two GRASS plants of values 4 then 1, the table holds 1 but `maxLevel` stays 4 ('High') |
| Retention.CleanOldData | vercel/script.js:364-372 | sorting the keys and deleting the oldest yields `Prune(h)` |
| Retention.DeleteOldest | detailed_history_script.js:317-323 | the deletion loop removes exactly the first `n - 30` sorted dates |
| Retention.PruneIsPruning | vercel/script.js:364-372 | the result keeps `min(n, 30)` dates with unchanged records, and every deleted date sorts before every kept one |
| Retention.PrunedUnique | detailed_history_script.js:317-323 | those three conditions determine the pruned history completely |
| Retention.PruneKeepsSmall | vercel/script.js:366 | a history of at most 30 dates is left unchanged |
| Retention.PruneIdempotent | vercel/script.js:364-372 | pruning an already pruned history changes nothing |
| Retention.PruneBound | detailed_history_script.js:317-323 | the result has at most 30 dates, no more than the input, and only input records |
| Retention.LatestDateKept | detailed_history_script.js:317-323 | a date that no other date sorts after is never deleted |
| Strings.SortedDates | vercel/script.js:365 | `Object.keys(..).sort()`: the same dates, strictly ascending in code-unit order |
| History.AddAndPrune | detailed_history_script.js:84-91 | adding a consistent record to a consistent history and pruning keeps it consistent, within 30 dates, and invents no date |
| History.AddedRecordKept | detailed_history_script.js:84-91 | the record just set survives pruning when its date was present, the history had fewer than 30 dates, or no stored date is later |
| MemoryHistory.DetailedPollenHistoryManager.constructor | detailed_history_script.js:3-6 | starts with an empty history, which is well formed |
| MemoryHistory.DetailedPollenHistoryManager.StoreDetailedPollenData | detailed_history_script.js:74-92 | the location map is created if missing; the date (default today) gets `{now, pollenData, processed}`; the map is pruned; every location stays within 30 dates and consistent |
| MemoryHistory.DetailedPollenHistoryManager.GetLocationHistory | detailed_history_script.js:343-346 | the location's map, or an empty one for an unknown location; within 30 dates and consistent |
| MemoryHistory.DetailedPollenHistoryManager.GetDateRange | detailed_history_script.js:325-341 | `days` dates ending today, oldest first; only the last is today and all earlier ones are past |
| MemoryHistory.StoredWellFormed | detailed_history_script.js:74-92 | storing preserves the invariant: every location keeps at most 30 dates and every `processed` matches its `rawData` |
| MemoryHistory.StoreIsLocal | detailed_history_script.js:78-91 | storing leaves the location within 30 dates and every other location unchanged |
| MemoryHistory.StoreThenGet | detailed_history_script.js:84-91 | the record just stored is read back under its date, unless pruning evicts it as the oldest |
| MemoryHistory.StoredDayIsCharted | detailed_history_script.js:190-263 | after a response is stored under a date and not evicted, the chart of that location shows the date as no data exactly when the response has no first day or no entry with a value above 0, and otherwise shows that response's `maxLevel` and `totalTypes` |
| ForecastHistory.DetailedPollenHistoryManager.constructor | vercel/script.js:79-101 | storage is used iff it exists and the probe works; a placeholder text under the history key is then removed |
| ForecastHistory.DetailedPollenHistoryManager.GetHistory | vercel/script.js:140-190 | storage-backed: the history is `Load` of the stored slot, and storage is repaired (cleared or re-saved) as `Load` says; memory fallback: the memory map, nothing changed |
| ForecastHistory.DetailedPollenHistoryManager.SaveHistory | vercel/script.js:193-241 | writes the `{version:'1.0', timestamp, data}` envelope through the temporary key, or removes both keys when a write throws; without storage merges into the memory map |
| ForecastHistory.DetailedPollenHistoryManager.CopyIntoMemory | vercel/script.js:236-239 | the memory map becomes the old one overridden by every location of the saved history |
| ForecastHistory.DetailedPollenHistoryManager.StoreDetailedPollenData | vercel/script.js:104-133 | load (with repair), file every day under its date, prune the location, save: the new storage (or memory map) is `StoreForecast` of what was loaded |
| ForecastHistory.DetailedPollenHistoryManager.GetLocationHistory | vercel/script.js:358-362 | the loaded history's map for the location, or an empty one; storage repaired as by `getHistory` |
| ForecastHistory.DetailedPollenHistoryManager.GetDateRange | vercel/script.js:374-390 | `days` dates from today forward; only the first is today, all later ones are future |
| ForecastHistory.FileForecastDays | vercel/script.js:113-127 | the `forEach` files day `i`, processed on its own, under `calendar(i)`, in order |
| ForecastHistory.AddForecastDaysFiled | vercel/script.js:113-127 | with distinct dates, every forecast day is found under its date with the record of that day alone |
| ForecastHistory.ForecastStoreBound | vercel/script.js:104-133 | after storing, the location has at most 30 dates, all with the filed records, and every other location is unchanged |
| ForecastHistory.ForecastDayIsCharted | vercel/script.js:113-127 | when every forecast day is read back, the chart shows day `i` as no data exactly when none of its entries has `indexInfo` with a value that is missing or `>= 0`, and otherwise shows the `maxLevel` and `totalTypes` of that day processed alone |
| ForecastHistory.ForecastDaysReadBack | vercel/script.js:113-131 | when the filled location has at most 30 dates, every forecast day can be read back under its date |
| ForecastHistory.StoreForecastConsistent | vercel/script.js:119-125 | storing keeps every record's `processed` equal to the processing of its `rawData` |
| ForecastHistory.SaveThenLoad | vercel/script.js:166-169 | a successful save followed by a load returns the saved history with no repair and leaves no temporary key |
| ForecastHistory.FailedSaveForgetsHistory | vercel/script.js:223-233 | a save that throws removes the stored history, so the next load is empty, and touches no other key |
| ForecastHistory.LoadOutcomes | vercel/script.js:146-180 | raw text (a placeholder word or text `JSON.parse` rejects) loads as an empty history; a load that clears leaves no history behind; a legacy document is re-saved so that the next load finds it unchanged with nothing to repair; a wrapped document just written is kept as it is |
| ForecastHistory.MergeAbsorbs | vercel/script.js:236-239 | merging the stored result into the memory map yields the stored result |
| Chart.DisplayedIsTopSix | vercel/script.js:430-433 | the displayed readings are `min(6, shown)` of the filtered ones, ordered highest first, and no omitted reading has a higher value than a displayed one; the in-memory chart (detailed_history_script.js:227-230) is the same with the filter `value > 0` |
| Chart.SortByValueFacts | vercel/script.js:432 | the sort is descending by value, a permutation, and stable (equal values keep their order) |
| Chart.FilterFacts | detailed_history_script.js:228 | exactly the readings passing the variant's filter remain, each at most as often as before |
| Chart.TopOfDescending | vercel/script.js:433 | the first six of a descending list are its six highest |
| Chart.BarHeightBounds | vercel/script.js:436 | the height lies in [10, 80], equals 16·value between 1 and 5, and grows with the value |
| Chart.DayBars | detailed_history_script.js:227-233 | a day shows at most six bars, each with height in [10, 80] for a reading that passes the filter, highest first |
| Chart.RecordIsCharted | vercel/script.js:393-466 | a date holding the record of a response shows the no-data view exactly when that response's first day has no admitted entry; otherwise it shows the processed day's `maxLevel` and `totalTypes`, and every bar carries the code and value (a missing one as 0) of an admitted entry of that day |
| Chart.ChartCoversRange | detailed_history_script.js:191 | the chart has one view per date of the range, in order |
| Chart.CountWordExamples | vercel/script.js:458-460 | Russian uses тип for 1, типа below 5, and типов otherwise (21 and 22 included); English uses type / types |
| Cards.DisplayPollenData | pollen_tracker_js.js:209-251 | the filter and the `forEach` merge compute `Display`: the error without `plantInfo` or without any card, the merged cards otherwise |
| Cards.DisplayShape | script.js:450-492 | the error "No pollen data" happens exactly when there is no first day, its `plantInfo` is missing, or no plant and no pollen type is above 1; a success starts with the significant plants, in their order |
| Cards.SignificantPlantsFacts | pollen_tracker_js.js:222-224 | the kept plants are exactly the plants whose index is above 1, with no picture |
| Cards.SignificantPlantsEmpty | pollen_tracker_js.js:222-224 | no plant is kept exactly when none is above 1 |
| Cards.AddTypesEmpty | pollen_tracker_js.js:242-245 | the merged list is empty exactly when no plant was kept and no pollen type is above 1 |
| Cards.AddTypesPrefix | pollen_tracker_js.js:227-240 | the pollen-type pass keeps the kept plants as a prefix |
| Cards.AddTypesAppends | pollen_tracker_js.js:227-240 | every appended card is a pollen type above 1 with the variant's picture |
| Cards.AddTypesNewCodes | pollen_tracker_js.js:230-236 | an appended card's code is on no earlier card |
| Cards.AddTypesComplete | pollen_tracker_js.js:227-240 | every pollen type above 1 has its code on some card afterwards |
| Cards.AddTypesKeepsCodesUnique | pollen_tracker_js.js:230-236 | a list with distinct codes keeps distinct codes |
| Cards.DroppedPlantCodeReappears | vercel/script.js:916-931 | a GRASS plant at 1 and a GRASS pollen type at 3 give exactly one card: the pollen type, with the stock picture |
| Labels.LevelClassOfLabels | pollen_tracker_js.js:286-300 | both spellings of each of the five levels get that level's class; any other text gets `level-moderate`; the same code appears at script.js:527-541, vercel/script.js:980-994 |
| Labels.TranslateLevelLabels | detailed_history_script.js:272-287 | a level label in either language comes out in the requested language; other categories and other languages are returned unchanged |
| Labels.TranslateLevelIdempotent | vercel/script.js:475-490 | translating an already translated level again changes nothing |
| Labels.TranslateFallsBackToKey | pollen_tracker_js.js:90-92 | `translate` returns the current table's entry for the key or the key itself; the key when the table lacks it; never an empty text for a non-empty key |
| Labels.TrackerTranslateLevelAgrees | pollen_tracker_js.js:302-311 | when the language table holds the five level names in the current language, the tracker's `translateLevel` (Russian label to English key, then `translate`) gives the manager's `translateLevel` on every Russian label; any other category comes back unchanged; the same code appears at script.js:543-552 |
| Labels.WeatherIconDefault | pollen_tracker_js.js:193-201 | the default glyph is returned exactly for codes outside the eighteen mapped ones |
| Geocoding.ExtractComponents | script.js:235-248 | the extraction loop computes `Extracted`, the left-to-right overwrite of city, state or country chosen by the component's first matching type; the same code appears at Docs/google_geocoding_function.js:23-36 |
| Geocoding.LastMatchWins | script.js:235-248 | a slot holds the value of the last component of its kind (locality, then first-level area, then country) |
| Geocoding.UnmatchedSlotEmpty | script.js:231-233 | a slot no component matches stays empty |
| Geocoding.LocalityShadowsOtherTypes | script.js:238-247 | a component typed locality sets only the city, whatever other types it has |
| Geocoding.GoogleNameCountry | script.js:251-261 | with a country the name is the country or ends in ", country", starting with the city when there is one; without a country it is the trimmed head of the address; the same code appears at Docs/google_geocoding_function.js:39-49 |
| Geocoding.AddressHeadCommas | script.js:260 | the address fallback keeps at most the first two comma pieces (one comma) and is the trimmed address when it had at most one comma |
| Geocoding.DetailedExtendsGoogle | script.js:347-358 | with city, state and country the detailed name is "city, state, country"; otherwise, when there is a country, it agrees with the basic chain; the same code appears at Docs/google_geocoding_function.js:135-146 |
| Geocoding.DetailedFallback | script.js:357 | without a country the detailed name is the first comma piece of the address: a comma-free prefix ending at a comma or at the end |
| Geocoding.SelectBestResult | script.js:306-327 | the scoring loop returns `Best(results).index` |
| Geocoding.BestIsFirstHighest | Docs/google_geocoding_function.js:94-115 | no result is chosen exactly when all score 0; otherwise the chosen one scores above 0, at least as high as every result, and strictly higher than every earlier one |
| Geocoding.LoadLocationNameGoogle | script.js:214-286 | with an "OK" reply that has results, the name from the first result; otherwise the free provider's name |
| Geocoding.LoadLocationNameGoogleDetailed | script.js:289-372 | with an "OK" reply that has results, the detailed name of the best result, or no change when none scores; otherwise the free provider's name |
| Geocoding.DetailedKeepsCardOnlyWithoutScore | script.js:329-361 | the detailed function leaves the card unchanged exactly when the reply is usable and every result scores 0 |
| Geocoding.HybridName | script.js:375-388 | with an empty or placeholder key, or no usable Google reply, the name is the free provider's, and with such a key the Google reply makes no difference; with a usable key and reply the name is, or ends in ", " followed by, the long name of the first result's last country component, and without a country component it is the head of the formatted address; the same gate appears at Docs/google_geocoding_function.js:163-175 |
| Geocoding.FreeNameCases | script.js:426-441 | no reply or no address shows the coordinates; a city gives "city, country" (with "undefined" for a missing country); else a truthy country alone; else a comma-free first piece of `display_name`; the same code appears at vercel/script.js:811-845 |
| Geocoding.NominatimCityOrder | script.js:427-431 | a truthy `city` is taken first, then a truthy `town`; no city results when all five of city, town, village, county and state are falsy |
| Geocoding.FirstTruthyIsFirst | script.js:427-431 | `a || b || ...` picks the earliest truthy value, and nothing only when all are falsy |

## Left out

- The DOM and HTML templates, including `createPollenCard`, the legend, loading and error display, and day names (Today, Tomorrow, Yesterday). The chart is modelled as a list of bar records, and a card as its entry plus a picture.
- The "Tomorrow"/"Yesterday" labels compare only the day of the month with today's ± 1, which is wrong across month boundaries (vercel/script.js:400, detailed_history_script.js:197). This is not modelled because day names are presentation.
- `fetch`, geolocation, `async` ordering and the race between overlapping refreshes. Replies are parameters.
- The Vercel proxies `vercel/api/pollen.js` and `vercel/api/weather.js`. They are thin wrappers around `fetch`; vercel/api is not part of this model.
- `Date`, `toISOString` and time zones. "Today plus `i` days" is the `calendar` parameter, and `Date.now()` is the `now` parameter.
- Location.LocationKey: coordinates are integers scaled by 10^4, so the rounding of `Number.prototype.toFixed` on binary floating point is not modelled, nor is the "-0.0000" text of tiny negative values.
- Chart.BarHeight: `(value / 5) * 80` is floating point in the source; the model computes `16 * value` on integers, which agrees for integer index values.
- JSON parsing and serialisation are abstracted. A stored slot is either raw text or an encoded document. Raw text is a placeholder word ("", "undefined", "null", "[object Object]") or text that `JSON.parse` rejects; the text "null" is always raw. An encoded document is wrapped, a bare object, or `NotAnObject`, which stands for a number, string, boolean or array. The `serialized === '[object Object]'` guard of `saveHistory` cannot fire and is left out.
- ForecastHistory.Load: an envelope whose `version` is empty is treated as a legacy history with no locations. The source would take the envelope object itself as the history.
- ForecastHistory.DetailedPollenHistoryManager.SaveHistory: the guard that skips non-object input is unreachable, because the history is typed as a map.
- `localStorage` exceptions are the `writeFails` parameter, which makes every write of one call fail or succeed together. The `initializeStorage` probe is reduced to the `probeWorks` flag of the constructor.
- The i18n tables are left out; only their lookup-with-default behaviour is modelled (`Translate` takes the current language's table as a parameter). The "No pollen data" error is its untranslated key.
- Strings are sequences of Unicode scalar values, while JavaScript strings are UTF-16 code units. They agree inside the Basic Multilingual Plane, which covers ISO dates and the pollen codes. There is no Unicode normalisation.
- Strings.Prefix: for a display name outside the Basic Multilingual Plane, `substring(0, 3)` counts code units and can split a surrogate pair; the model takes three characters.
- Strings.CharCodeSum: `charCodeAt` adds both surrogate halves of a character outside the Basic Multilingual Plane; the model adds its scalar value, so the fallback colour can differ for such codes.
- Strings.LexLess: `sort()` compares code units, which orders characters outside the Basic Multilingual Plane before U+E000-U+FFFF; the model compares scalar values. ISO dates are ASCII, so `cleanOldData` is unaffected.
- JavaScript object keys that look like integers enumerate first, so `Object.keys` order differs from insertion order for such codes. The `types` table is modelled in insertion order.
- Prototype keys such as `constructor` or `__proto__` are not modelled as pollen codes.
- The in-memory manager's `getLocationHistory` returns the live inner `Map`, so a caller could mutate the stored history through it. The model returns a value.
- An absent string is modelled as `""` where the source compares it for truthiness. Nominatim fields that can be printed as `undefined` are kept as `Option` (`TemplateText`).
- DayProcessor: a `plantInfo` code that repeats overwrites the earlier reading in `types`, but `maxLevel` keeps the earlier, overwritten value (see `RepeatedPlantCodeKeepsOverwrittenMaximum`). The model keeps this behaviour as written.
- Chart.CountWord: the Russian word depends only on `n == 1` and `n < 5`, so 0 gives "типа" and 21 gives "типов". It is modelled as written.
- PollenTypes: a synthesised short name is empty when the display name is empty. It is modelled as written (`ShortNameEmptyOnlyForEmptyName`).
- Docs/google_geocoding_function.js is a copy of the three geocoding functions of script.js. Both are modelled by the same members.
- Geocoding.LoadLocationNameGoogle: the inner coordinates fallback in its `catch` block is unreachable, because the free provider catches its own errors. Malformed Google results (missing `address_components` or `formatted_address`) are assumed not to occur.
