# PrijsWijs price pipeline, modelled in Dafny

PrijsWijs is an Android app that shows a notification every hour with today's Dutch energy
prices. It fetches the EnergyZero price feed, downsamples the 48-hour series to at most ten
points, and grades each price against the day's peak and trough with a suffix mark. It
writes one line per point, with a separator at each change of day, caches the series and
plans the next notification around the user's bedtime. The app went through three
revisions of this path:

- the current one, under `prijswijs/EnergyPriceDataSource`, `prijswijs/Notifications`,
  `prijswijs/Persistence`, `prijswijs/Model` and `prijswijs/Alarms`;
- an older one, `prijswijs/EnergyPriceAPI.kt` and `prijswijs/EnergyNotificationService.kt`;
- the first one, `enerfy/EnergyPriceAPI.kt` and `enerfy/EnergyNotificationService.kt`.

All three revisions are modelled side by side, because they really do behave differently.

| file | module | models |
|---|---|---|
| `series.dfy` | `Series` | the Kotlin `LinkedHashMap<Date, Double>` as a sequence of entries with unique timestamps (`Put`, `PutAll`, `Lookup`), `filter`, `take`, `sortedBy { it.key }`, extremes, `toInt()` |
| `price_data.dfy` | `PriceModel` | `PriceData`, `filterMapTimes`, the companion's `lastPrice` and `didPriceChange` |
| `persistence.dfy` | `PersistenceModel` | SharedPreferences as maps from keys to typed values; the settings and the indexed price cache, with their round trips |
| `energy_price_api.dfy` | `EnergyPriceApi` | the current `processPrices`, `getPeaksAndTroughs`, and the retry and fallback loop of `getTodaysEnergyPrices` |
| `energy_price_api_test.dfy` | `EnergyPriceApiTest` | the twelve-point feed of `EnergyPriceAPITest.kt`, followed through the current `processPrices` and `getTodaysEnergyPrices` |
| `legacy_api.dfy` | `LegacyApi` | the older `processPrices`, with its fallback peak and trough choice and its trim loop, and its four-call retry loop with `lastPrices` |
| `earliest_api.dfy` | `EarliestApi` | the first revision's "first four plus six squared-fraction draws" |
| `messages.dfy` | `Messages` | the line layout shared by the notification services, `isNewDay` and `trimEnd` |
| `notifications.dfy` | `Notifications` | the current `generateSuffix`, `PriceRange`, the emoji table, the vibration decision as written and as intended, and the message in both forms |
| `older_notifications.dfy` | `OlderNotifications` | the older suffix ladder, the wrap-forward emoji walk and separators limited to the first ten points |
| `earliest_notifications.dfy` | `EarliestNotifications` | the first suffix list and the trend icons |
| `alarms.dfy` | `Alarms` | `isPastBedtime` and the trigger time `scheduleHourlyAlarm` computes, with `Calendar` as a class |

Conventions used throughout:
- An instant is an integer number of milliseconds, as `Date.time` and
  `Calendar.timeInMillis` are.
- Prices are exact reals.
- The clock reading, the network's answers, the device's calendar (hour and day of an
  instant), the text rendering of a line and float narrowing are parameters.
- Each loop the Kotlin code runs is a Dafny method with its invariants, proved equal to a
  specification function.
- Each property is then proved about that function.

The specification functions have no rows of their own. The rows reach them through the
methods and lemmas that name them. They model these lines:
- `EnergyPriceApi.Curate` (`CurateWith`, with `Collect`, `Sorted`, `PeaksAndTroughs`,
  `Initial`, `FillFrom`, `TrimLoop` and `Associate`): app/src/main/java/com/example/prijswijs/EnergyPriceDataSource/EnergyPriceAPI.kt:70-155.
- `EnergyPriceApi.RetryFrom`: app/src/main/java/com/example/prijswijs/EnergyPriceDataSource/EnergyPriceAPI.kt:46-64.
- `EnergyPriceApi.GetSpec`: app/src/main/java/com/example/prijswijs/EnergyPriceDataSource/EnergyPriceAPI.kt:44-67.
- `LegacyApi.LegacyCurate` (with `CollectFresh`, `Specials`, `LegacyInitial`,
  `LegacySelect` and `LegacyTrim`): app/src/main/java/com/example/prijswijs/EnergyPriceAPI.kt:69-178.
- `LegacyApi.LegacyRetryFrom`: app/src/main/java/com/example/prijswijs/EnergyPriceAPI.kt:46-64.
- `EarliestApi.EarliestCurate`: app/src/main/java/com/example/enerfy/EnergyPriceAPI.kt:60-91.
- `EarliestApi.Draw`: app/src/main/java/com/example/enerfy/EnergyPriceAPI.kt:75-79.
- `EarliestApi.Selected`: app/src/main/java/com/example/enerfy/EnergyPriceAPI.kt:67-83.
- `Notifications.HourlyMessage` (`HourlyMessageWith`): app/src/main/java/com/example/prijswijs/Notifications/EnergyNotificationService.kt:154-265.
- `OlderNotifications.OlderMessage`: app/src/main/java/com/example/prijswijs/EnergyNotificationService.kt:143-192.
- `EarliestNotifications.EarliestMessage`: app/src/main/java/com/example/enerfy/EnergyNotificationService.kt:146-172.
- `PersistenceModel.Saved`: app/src/main/java/com/example/prijswijs/Persistence/Persistence.kt:43-60.
- `PersistenceModel.LoadSpec`: app/src/main/java/com/example/prijswijs/Persistence/Persistence.kt:62-79.
- `Alarms.IsPastBedtime`: app/src/main/java/com/example/prijswijs/Alarms/AlarmScheduler.kt:54-58.
- `Alarms.WakeUpTrigger`: app/src/main/java/com/example/prijswijs/Alarms/AlarmScheduler.kt:62-75.
- `Alarms.NextHourTrigger`: app/src/main/java/com/example/prijswijs/Alarms/AlarmScheduler.kt:84-91.
- `Alarms.ScheduleTrigger`: app/src/main/java/com/example/prijswijs/Alarms/AlarmScheduler.kt:48-99.

## Model

| member | source | states |
|---|---|---|
| `Series.Put` | app/src/main/java/com/example/prijswijs/EnergyPriceDataSource/EnergyPriceAPI.kt:96 | `datesAndPrices[date] = price`: timestamps stay unique, a new timestamp is appended at the end, an existing one has its entry replaced in place, and the key set grows by exactly that timestamp |
| `Series.PutAll` | app/src/main/java/com/example/prijswijs/EnergyPriceDataSource/EnergyPriceAPI.kt:86-97 | writing a list of entries one by one keeps timestamps unique, and the key set becomes the old keys plus every written timestamp |
| `Series.Lookup` | app/src/main/java/com/example/enerfy/EnergyNotificationService.kt:148 | `map[date]` finds a price exactly when the timestamp is a key, and the pair it finds is an entry of the map |
| `Series.LookupAt` | app/src/main/java/com/example/enerfy/EnergyNotificationService.kt:148 | in a map with unique keys, looking up entry `i`'s timestamp gives entry `i`'s price |
| `Series.IndexOf` | app/src/main/java/com/example/enerfy/EnergyNotificationService.kt:150 | `keys.indexOf(date)` of a key is a position whose entry carries that key |
| `Series.IndexOfAt` | app/src/main/java/com/example/enerfy/EnergyNotificationService.kt:150 | in a map with unique keys, `indexOf` of entry `i`'s key is `i` |
| `Series.LookupPut` | app/src/main/java/com/example/prijswijs/EnergyPriceDataSource/EnergyPriceAPI.kt:96 | after `map[t] = p`, looking up `t` gives `p`, and every other key still gives what it gave before |
| `Series.LastWrite` | app/src/main/java/com/example/prijswijs/EnergyPriceAPI.kt:86-94 | the price written last for a timestamp: present exactly when the timestamp was written, and no later write of it follows |
| `Series.LookupPutAll` | app/src/main/java/com/example/prijswijs/EnergyPriceDataSource/EnergyPriceAPI.kt:86-97 | after a run of writes, a written timestamp holds the price written last for it, and any other key keeps its old price |
| `Series.PutAllFresh` | app/src/main/java/com/example/prijswijs/EnergyPriceDataSource/EnergyPriceAPI.kt:125 | writing entries whose timestamps are all new appends them unchanged and in order |
| `Series.PutAllAscending` | app/src/main/java/com/example/enerfy/EnergyPriceAPI.kt:91 | `associate` over a non-decreasing list, in which equal timestamps are the same entry, gives a chronological map of exactly the list's distinct entries |
| `Series.Filter` | app/src/main/java/com/example/prijswijs/EnergyPriceDataSource/EnergyPriceAPI.kt:107 | `filter`: exactly the elements satisfying the predicate, never more of them, with chronological order and key uniqueness preserved |
| `Series.FilterAppend` | app/src/main/java/com/example/prijswijs/Model/PriceData.kt:22 | filtering a concatenation filters each part and keeps them in order |
| `Series.FilterIdempotent` | app/src/main/java/com/example/prijswijs/Model/PriceData.kt:22 | filtering twice with the same predicate is filtering once |
| `Series.FilterAll` | app/src/main/java/com/example/prijswijs/Model/PriceData.kt:22 | a filter every element passes returns the list unchanged |
| `Series.Keep` | app/src/main/java/com/example/prijswijs/EnergyPriceDataSource/EnergyPriceAPI.kt:117 | `finalSelection.sortedBy { it.key }` over sorted entries: exactly the sorted entries in the selection, never more of them, still chronological |
| `Series.KeepSize` | app/src/main/java/com/example/prijswijs/EnergyPriceDataSource/EnergyPriceAPI.kt:117 | the sorted selection of a map's entries is no longer than the selection |
| `Series.KeepAll` | app/src/main/java/com/example/prijswijs/EnergyPriceDataSource/EnergyPriceAPI.kt:117 | when every selected entry is one of the map's, the sorted selection is exactly as long as the selection |
| `Series.Take` | app/src/main/java/com/example/prijswijs/EnergyPriceDataSource/EnergyPriceAPI.kt:103 | `take(n)`: the first `n` elements, or all of them when there are fewer |
| `Series.SortByTime` | app/src/main/java/com/example/prijswijs/EnergyPriceDataSource/EnergyPriceAPI.kt:99 | `sortedBy { it.key }`: a chronological list of the same length with the same entries |
| `Series.ChronologicalSame` | app/src/main/java/com/example/prijswijs/EnergyPriceDataSource/EnergyPriceAPI.kt:99 | two chronological lists of the same entries are equal, so the sort has only one possible result |
| `Series.MaxPrice` | app/src/main/java/com/example/prijswijs/EnergyPriceDataSource/EnergyPriceAPI.kt:122 | `values.maxOrNull()` of a non-empty map bounds every price from above and is the price of some entry |
| `Series.MinPrice` | app/src/main/java/com/example/prijswijs/EnergyPriceDataSource/EnergyPriceAPI.kt:123 | `values.minOrNull()` of a non-empty map bounds every price from below and is the price of some entry |
| `Series.ExtremesSameElements` | app/src/main/java/com/example/prijswijs/EnergyPriceDataSource/EnergyPriceAPI.kt:122-123 | the extremes depend only on which entries there are, not on their order |
| `Series.FirstMaxIndex` | app/src/main/java/com/example/prijswijs/EnergyPriceDataSource/EnergyPriceAPI.kt:137-138 | `first { it.value == maxBy… }`: a position of the highest price that no earlier entry equals or exceeds |
| `Series.FirstMinIndex` | app/src/main/java/com/example/prijswijs/EnergyPriceDataSource/EnergyPriceAPI.kt:143-144 | the same for the lowest price: a position of the lowest price that no earlier entry matches or falls below |
| `Series.FirstMax` | app/src/main/java/com/example/prijswijs/EnergyPriceDataSource/EnergyPriceAPI.kt:137-138 | `maxByOrNull` followed by `first`: null exactly on an empty list, otherwise an entry of the list whose price is the highest |
| `Series.FirstMin` | app/src/main/java/com/example/prijswijs/EnergyPriceDataSource/EnergyPriceAPI.kt:143-144 | `minByOrNull` followed by `first`: null exactly on an empty list, otherwise an entry of the list whose price is the lowest |
| `Series.OptionSet` | app/src/main/java/com/example/prijswijs/EnergyPriceDataSource/EnergyPriceAPI.kt:150-153 | `x?.let { add(it) }` adds nothing for null and exactly `x` otherwise |
| `Series.OptionSetsSize` | app/src/main/java/com/example/prijswijs/EnergyPriceDataSource/EnergyPriceAPI.kt:149-154 | four such additions give a set of at most four entries |
| `Series.TruncBounds` | app/src/main/java/com/example/prijswijs/EnergyPriceDataSource/EnergyPriceAPI.kt:112 | `toInt()` truncates toward zero: for non-negative values it is the floor, for negative values the ceiling |
| `Series.TruncMonotone` | app/src/main/java/com/example/prijswijs/EnergyPriceDataSource/EnergyPriceAPI.kt:112 | truncation of non-negative values never decreases |
| `Series.Fraction` | app/src/main/java/com/example/prijswijs/EnergyPriceDataSource/EnergyPriceAPI.kt:111 | `if (needed == 1) 0.0 else i / (needed - 1)` lies in [0, 1], is 0 for the first draw and 1 for the last |
| `Series.FractionMonotone` | app/src/main/java/com/example/prijswijs/EnergyPriceDataSource/EnergyPriceAPI.kt:111 | later draws never get a smaller fraction |
| `Series.ScaleIsProduct` | app/src/main/java/com/example/prijswijs/EnergyPriceDataSource/EnergyPriceAPI.kt:112 | the repeated-addition form of `x * (remainingEntries.size - 1)` equals the real product |
| `Series.ScaleBounds` | app/src/main/java/com/example/prijswijs/EnergyPriceDataSource/EnergyPriceAPI.kt:112 | a fraction in [0, 1] times `k` lies in [0, k] |
| `Series.ScaleMonotone` | app/src/main/java/com/example/prijswijs/EnergyPriceDataSource/EnergyPriceAPI.kt:112 | a larger fraction never gives a smaller product |
| `Series.ScaleOne` | app/src/main/java/com/example/prijswijs/EnergyPriceDataSource/EnergyPriceAPI.kt:112 | fraction 1 gives `k`, fraction 0 gives 0 |
| `PriceModel.FilterTimes` | app/src/main/java/com/example/prijswijs/Model/PriceData.kt:15-25 | a null map stays null, otherwise exactly the entries whose key is not before an hour before now survive |
| `PriceModel.FilterTimesIdempotent` | app/src/main/java/com/example/prijswijs/Model/PriceData.kt:22 | filtering twice with the same clock reading is filtering once |
| `PriceModel.FilterTimesKeepsOrder` | app/src/main/java/com/example/prijswijs/Model/PriceData.kt:22 | the survivors keep their relative order: filtering a concatenation filters each part |
| `PriceModel.FilterTimesCurrent` | app/src/main/java/com/example/prijswijs/Model/PriceData.kt:22 | a map without stale entries is left exactly as it was |
| `PriceModel.PriceData.constructor` | app/src/main/java/com/example/prijswijs/Model/PriceData.kt:6-9 | a PriceData holds the given map, peak and trough |
| `PriceModel.PriceData.FilterMapTimes` | app/src/main/java/com/example/prijswijs/Model/PriceData.kt:15-25 | `filterMapTimes` removes the stale entries in place, changes nothing else and returns `this` |
| `PriceModel.PriceChangeTracker.constructor` | app/src/main/java/com/example/prijswijs/Model/PriceData.kt:11-13 | `lastPrice` starts at -99.0 |
| `PriceModel.PriceChangeTracker.DidPriceChange` | app/src/main/java/com/example/prijswijs/Model/PriceData.kt:27-34 | on a null map a NullPointerException and on an empty one an IndexOutOfBoundsException, leaving `lastPrice` alone; otherwise true with `lastPrice` set to the first price exactly when it differed, else false with `lastPrice` unchanged |
| `PriceModel.RepeatedCheck` | app/src/main/java/com/example/prijswijs/Model/PriceData.kt:12-34 | two calls on the same data from the initial state give true and then false |
| `PersistenceModel.Decimal` | app/src/main/java/com/example/prijswijs/Persistence/Persistence.kt:51 | `$index` renders a non-empty string of decimal digits |
| `PersistenceModel.Digit` | app/src/main/java/com/example/prijswijs/Persistence/Persistence.kt:51 | the character of a decimal digit |
| `PersistenceModel.ParseDecimalInverse` | app/src/main/java/com/example/prijswijs/Persistence/Persistence.kt:51 | reading the digits of `$index` back gives the index, so the rendering loses nothing |
| `PersistenceModel.DecimalInjective` | app/src/main/java/com/example/prijswijs/Persistence/Persistence.kt:51 | two indices with the same rendering are equal |
| `PersistenceModel.PriceIndexOfKey` | app/src/main/java/com/example/prijswijs/Persistence/Persistence.kt:56 | the index can be read back from its `price<i>` key |
| `PersistenceModel.KeysDistinct` | app/src/main/java/com/example/prijswijs/Persistence/Persistence.kt:46-56 | no `date<i>` key is a `price<j>` key or a header key, and each key family is injective in the index |
| `PersistenceModel.ToInt32` | app/src/main/java/com/example/prijswijs/Persistence/Persistence.kt:73 | `date.time.toInt()` keeps the low 32 bits: a value in the Int range congruent to the Long modulo 2^32, equal to it when it fits |
| `PersistenceModel.GetFloat` | app/src/main/java/com/example/prijswijs/Persistence/Persistence.kt:65 | `getFloat(key, default)`: the stored float when the key is present, the default otherwise |
| `PersistenceModel.GetLong` | app/src/main/java/com/example/prijswijs/Persistence/Persistence.kt:72 | `getLong(key, default)`: the stored long when the key is present, the default otherwise |
| `PersistenceModel.SaveSettingsSpec` | app/src/main/java/com/example/prijswijs/Persistence/Persistence.kt:21-29 | the settings file gains exactly the keys `vibrate`, `bedTime` and `wakeUpTime`, and every other key keeps its value |
| `PersistenceModel.LoadSettingsSpec` | app/src/main/java/com/example/prijswijs/Persistence/Persistence.kt:31-41 | each setting is the stored value when its key is present |
| `PersistenceModel.SettingsRoundTrip` | app/src/main/java/com/example/prijswijs/Persistence/Persistence.kt:21-41 | loading after saving gives back the saved settings, whatever the file held before |
| `PersistenceModel.SettingsDefaults` | app/src/main/java/com/example/prijswijs/Persistence/Persistence.kt:36-38 | an empty file loads as vibrate = false, bedTime = 21, wakeUpTime = 6 |
| `PersistenceModel.Narrowed` | app/src/main/java/com/example/prijswijs/Persistence/Persistence.kt:56 | what the cache keeps of a map: the same dates in the same order, each price passed through `toFloat` |
| `PersistenceModel.WithDatesHit` | app/src/main/java/com/example/prijswijs/Persistence/Persistence.kt:49-52 | after the date loop, `date<i>` holds the time of entry `i` |
| `PersistenceModel.WithDatesMiss` | app/src/main/java/com/example/prijswijs/Persistence/Persistence.kt:49-52 | the date loop adds and changes no key other than the `date<i>` of an entry |
| `PersistenceModel.WithPricesHit` | app/src/main/java/com/example/prijswijs/Persistence/Persistence.kt:54-57 | after the price loop, `price<i>` holds the narrowed price of entry `i` |
| `PersistenceModel.WithPricesMiss` | app/src/main/java/com/example/prijswijs/Persistence/Persistence.kt:54-57 | the price loop adds and changes no key other than the `price<i>` of an entry |
| `PersistenceModel.SavedHeader` | app/src/main/java/com/example/prijswijs/Persistence/Persistence.kt:46-47 | after a save the header keys hold the narrowed peak and trough |
| `PersistenceModel.SavedHit` | app/src/main/java/com/example/prijswijs/Persistence/Persistence.kt:43-60 | after a save, the keys of every written index hold that entry's time and narrowed price |
| `PersistenceModel.SavedMiss` | app/src/main/java/com/example/prijswijs/Persistence/Persistence.kt:43-60 | the keys of indices beyond the saved map keep whatever the file held before; the save removes nothing |
| `PersistenceModel.SavedTyped` | app/src/main/java/com/example/prijswijs/Persistence/Persistence.kt:43-60 | a save into a well-typed cache file leaves it well typed |
| `PersistenceModel.ContinueShrinks` | app/src/main/java/com/example/prijswijs/Persistence/Persistence.kt:70-78 | each pass of `while (true)` that does not break leaves fewer price keys ahead, so the loop ends |
| `PersistenceModel.ReadSavedFrom` | app/src/main/java/com/example/prijswijs/Persistence/Persistence.kt:62-79 | reading a saved file from index `i` gives the narrowed saved entries from `i`, followed by what the old file held beyond the saved length |
| `PersistenceModel.LoadAfterSave` | app/src/main/java/com/example/prijswijs/Persistence/Persistence.kt:43-81 | round trip: loading after a save into a file without entries beyond the map's length gives the saved dates in order, with narrowed prices, peak and trough |
| `PersistenceModel.SentinelCutsOff` | app/src/main/java/com/example/prijswijs/Persistence/Persistence.kt:73 | a saved price that narrows to -9999.0 ends the load at its index |
| `PersistenceModel.StaleEntriesSurvive` | app/src/main/java/com/example/prijswijs/Persistence/Persistence.kt:44-78 | as written: after saving two entries and then one, load returns the new entry followed by the stale second one |
| `PersistenceModel.LoadAfterClearedSave` | app/src/main/java/com/example/prijswijs/Persistence/Persistence.kt:43-81 | corrected: a save that first clears the file loads back exactly what was saved, whatever was cached before |
| `PersistenceModel.Persistence.SaveSettings` | app/src/main/java/com/example/prijswijs/Persistence/Persistence.kt:21-29 | the settings file becomes the old one with the three settings written |
| `PersistenceModel.Persistence.LoadSettings` | app/src/main/java/com/example/prijswijs/Persistence/Persistence.kt:31-41 | the settings `LoadSettingsSpec` reads from the settings file |
| `PersistenceModel.Persistence.SaveCachedPrices` | app/src/main/java/com/example/prijswijs/Persistence/Persistence.kt:43-60 | on a null map a NullPointerException and no change to any file, otherwise the cache file becomes the old one with the header and one `date<i>`/`price<i>` pair per entry written |
| `PersistenceModel.Persistence.LoadCachedPrices` | app/src/main/java/com/example/prijswijs/Persistence/Persistence.kt:62-81 | the `while (true)` walk over indices returns a fresh PriceData with what `LoadSpec` reads from the cache file |
| `PersistenceModel.PersistenceHolder.constructor` | app/src/main/java/com/example/prijswijs/Persistence/Persistence.kt:10-11 | the companion starts without an instance |
| `PersistenceModel.PersistenceHolder.GetInstance` | app/src/main/java/com/example/prijswijs/Persistence/Persistence.kt:13-18 | the first call creates the instance, and every later call returns that same object |
| `EnergyPriceApi.Collect` | app/src/main/java/com/example/prijswijs/EnergyPriceDataSource/EnergyPriceAPI.kt:86-97 | `datesAndPrices` after the parse loop: unique timestamps, exactly the feed's timestamps |
| `EnergyPriceApi.CollectNonEmpty` | app/src/main/java/com/example/prijswijs/EnergyPriceDataSource/EnergyPriceAPI.kt:86-97 | a non-empty feed gives a non-empty map |
| `EnergyPriceApi.CollectPoints` | app/src/main/java/com/example/prijswijs/EnergyPriceDataSource/EnergyPriceAPI.kt:86-97 | the `for` loop writing every parsed point builds `Collect(raw)` |
| `EnergyPriceApi.Sorted` | app/src/main/java/com/example/prijswijs/EnergyPriceDataSource/EnergyPriceAPI.kt:99 | `sortedEntries`: the parsed map's entries, chronological and as many as the map has |
| `EnergyPriceApi.PeaksAndTroughs` | app/src/main/java/com/example/prijswijs/EnergyPriceDataSource/EnergyPriceAPI.kt:128-155 | `getPeaksAndTroughs`: at most four entries, all of them sorted entries |
| `EnergyPriceApi.PeaksAndTroughsHoldExtremes` | app/src/main/java/com/example/prijswijs/EnergyPriceDataSource/EnergyPriceAPI.kt:128-155 | the specials hold an entry with the series' highest price and one with its lowest, whichever half they fall in |
| `EnergyPriceApi.Initial` | app/src/main/java/com/example/prijswijs/EnergyPriceDataSource/EnergyPriceAPI.kt:100-104 | the specials plus `take(4)`: at most eight sorted entries, containing the first four |
| `EnergyPriceApi.SelectInitial` | app/src/main/java/com/example/prijswijs/EnergyPriceDataSource/EnergyPriceAPI.kt:100-104 | the special set and the initial selection, of fewer than ten entries |
| `EnergyPriceApi.DrawInRange` | app/src/main/java/com/example/prijswijs/EnergyPriceDataSource/EnergyPriceAPI.kt:110-112 | `(fraction.pow(1.8) * (size - 1)).toInt()` lies inside a non-empty remainder, for any curve bounded in [0, 1] |
| `EnergyPriceApi.DrawEnds` | app/src/main/java/com/example/prijswijs/EnergyPriceDataSource/EnergyPriceAPI.kt:111-112 | the first draw is the first remaining entry, and with two or more draws the last draw is the last one |
| `EnergyPriceApi.DrawMonotone` | app/src/main/java/com/example/prijswijs/EnergyPriceDataSource/EnergyPriceAPI.kt:110-112 | a later draw never lands on an earlier position |
| `EnergyPriceApi.FillFromBounds` | app/src/main/java/com/example/prijswijs/EnergyPriceDataSource/EnergyPriceAPI.kt:106-115 | a successful fill keeps the selection, adds only remaining entries, and adds at most one per draw |
| `EnergyPriceApi.FillFromFails` | app/src/main/java/com/example/prijswijs/EnergyPriceDataSource/EnergyPriceAPI.kt:106-114 | with a genuine power curve the fill loop fails exactly when the remainder is empty, and then with IndexOutOfBoundsException |
| `EnergyPriceApi.FillFromExact` | app/src/main/java/com/example/prijswijs/EnergyPriceDataSource/EnergyPriceAPI.kt:106-115 | draws on pairwise distinct, not yet selected positions each add one new entry |
| `EnergyPriceApi.FillSelection` | app/src/main/java/com/example/prijswijs/EnergyPriceDataSource/EnergyPriceAPI.kt:106-115 | the `for` loop of `additionalNeeded` draws computes `FillFrom`, its crash included |
| `EnergyPriceApi.FillBounds` | app/src/main/java/com/example/prijswijs/EnergyPriceDataSource/EnergyPriceAPI.kt:106-115 | the fill step keeps the selection, adds only parsed entries, and ends at no more than ten |
| `EnergyPriceApi.FillUnguarded` | app/src/main/java/com/example/prijswijs/EnergyPriceDataSource/EnergyPriceAPI.kt:100-108 | the initial selection never reaches ten, so as written the fill always runs |
| `EnergyPriceApi.FillFailsFor` | app/src/main/java/com/example/prijswijs/EnergyPriceDataSource/EnergyPriceAPI.kt:106-114 | a fill of fewer than ten fails exactly when no unselected entry is left, and then with IndexOutOfBoundsException |
| `EnergyPriceApi.FillFails` | app/src/main/java/com/example/prijswijs/EnergyPriceDataSource/EnergyPriceAPI.kt:100-114 | the fill from the initial selection crashes exactly when the first four and the specials cover every entry |
| `EnergyPriceApi.FillEmptyFails` | app/src/main/java/com/example/prijswijs/EnergyPriceDataSource/EnergyPriceAPI.kt:110-113 | an empty remainder makes the first `remainingEntries[index]` throw, whatever the curve |
| `EnergyPriceApi.FewLeftNothing` | app/src/main/java/com/example/prijswijs/EnergyPriceDataSource/EnergyPriceAPI.kt:103-107 | with at most four entries the first four take them all, leaving nothing to draw from |
| `EnergyPriceApi.FillCrash` | app/src/main/java/com/example/prijswijs/EnergyPriceDataSource/EnergyPriceAPI.kt:110-113 | the fill can only fail with IndexOutOfBoundsException |
| `EnergyPriceApi.FillFromCrash` | app/src/main/java/com/example/prijswijs/EnergyPriceDataSource/EnergyPriceAPI.kt:110-113 | the fill loop can only fail with IndexOutOfBoundsException |
| `EnergyPriceApi.TrimLoop` | app/src/main/java/com/example/prijswijs/EnergyPriceDataSource/EnergyPriceAPI.kt:117-120 | `while (size > 10) removeIf { not special }` ends with at most ten chronological entries, drops no special and is a no-op on ten or fewer |
| `EnergyPriceApi.TrimSelection` | app/src/main/java/com/example/prijswijs/EnergyPriceDataSource/EnergyPriceAPI.kt:117-120 | the `while` loop computes `TrimLoop` |
| `EnergyPriceApi.AssociateUnique` | app/src/main/java/com/example/prijswijs/EnergyPriceDataSource/EnergyPriceAPI.kt:125 | `associate` over entries with distinct keys gives them back unchanged |
| `EnergyPriceApi.AssociateAscending` | app/src/main/java/com/example/prijswijs/EnergyPriceDataSource/EnergyPriceAPI.kt:125 | `associate` over a chronological list gives a chronological map of the same entries |
| `EnergyPriceApi.Associate` | app/src/main/java/com/example/prijswijs/EnergyPriceDataSource/EnergyPriceAPI.kt:125 | `associate { it.key to it.value }` over a chronological list returns that list |
| `EnergyPriceApi.CurateViaFill` | app/src/main/java/com/example/prijswijs/EnergyPriceDataSource/EnergyPriceAPI.kt:70-126 | a non-empty feed goes through the fill: `processPrices` fails when the fill fails and otherwise returns what the fill chose |
| `EnergyPriceApi.CurateKept` | app/src/main/java/com/example/prijswijs/EnergyPriceDataSource/EnergyPriceAPI.kt:99-125 | on success the returned map is exactly the sorted entries the fill selected, one per selected entry, and the selection contains the initial one |
| `EnergyPriceApi.CurateShape` | app/src/main/java/com/example/prijswijs/EnergyPriceDataSource/EnergyPriceAPI.kt:70-126 | on success a non-null map of 1 to 10 chronological parsed entries, holding the first four and every special; peak and trough are the extremes of all parsed prices, bound every returned price and each is attained by a returned entry |
| `EnergyPriceApi.CurateSize` | app/src/main/java/com/example/prijswijs/EnergyPriceDataSource/EnergyPriceAPI.kt:106-125 | a successful fill gives a successful run returning exactly as many points as the fill selected, at most ten |
| `EnergyPriceApi.CurateFails` | app/src/main/java/com/example/prijswijs/EnergyPriceDataSource/EnergyPriceAPI.kt:99-114 | `processPrices` as written crashes exactly when the first four and the specials cover every parsed entry, and then with IndexOutOfBoundsException |
| `EnergyPriceApi.FewPointsCrash` | app/src/main/java/com/example/prijswijs/EnergyPriceDataSource/EnergyPriceAPI.kt:99-114 | a feed of one to four distinct dates always crashes, whatever the curve |
| `EnergyPriceApi.SinglePointCrash` | app/src/main/java/com/example/prijswijs/EnergyPriceDataSource/EnergyPriceAPI.kt:86-114 | a one-point feed crashes |
| `EnergyPriceApi.CurateNoNull` | app/src/main/java/com/example/prijswijs/EnergyPriceDataSource/EnergyPriceAPI.kt:70-126 | `processPrices` can only fail with IndexOutOfBoundsException |
| `EnergyPriceApi.FillFromTen` | app/src/main/java/com/example/prijswijs/EnergyPriceDataSource/EnergyPriceAPI.kt:106-115 | pairwise distinct draws from a remainder disjoint from the selection top it up to exactly ten |
| `EnergyPriceApi.SelectedApart` | app/src/main/java/com/example/prijswijs/EnergyPriceDataSource/EnergyPriceAPI.kt:107-113 | every draw lands inside the remainder, on an entry not selected yet |
| `EnergyPriceApi.FillExactlyTen` | app/src/main/java/com/example/prijswijs/EnergyPriceDataSource/EnergyPriceAPI.kt:100-115 | when the draws land on pairwise distinct positions of a non-empty remainder, the fill selects exactly ten entries |
| `EnergyPriceApi.CurateExactlyTen` | app/src/main/java/com/example/prijswijs/EnergyPriceDataSource/EnergyPriceAPI.kt:101-125 | under the same condition `processPrices` returns exactly ten points |
| `EnergyPriceApi.FillGuard` | app/src/main/java/com/example/prijswijs/EnergyPriceDataSource/EnergyPriceAPI.kt:106-115 | corrected: the guard skipping the fill changes nothing when something is left to draw, and keeps the initial selection otherwise |
| `EnergyPriceApi.FillFixedTotal` | app/src/main/java/com/example/prijswijs/EnergyPriceDataSource/EnergyPriceAPI.kt:106-115 | corrected: the guarded fill never fails, and agrees with the unguarded one wherever that succeeds |
| `EnergyPriceApi.CurateFixedTotal` | app/src/main/java/com/example/prijswijs/EnergyPriceDataSource/EnergyPriceAPI.kt:70-126 | corrected: `processPrices` with the guard never crashes, and agrees with the code as written wherever that succeeds |
| `EnergyPriceApi.ProcessPrices` | app/src/main/java/com/example/prijswijs/EnergyPriceDataSource/EnergyPriceAPI.kt:70-126 | the step-by-step `processPrices` (loop, sort, specials, fill, trim, associate, extremes) computes `Curate` |
| `EnergyPriceApi.RetryFirstSuccess` | app/src/main/java/com/example/prijswijs/EnergyPriceDataSource/EnergyPriceAPI.kt:47-54 | a first response with a non-empty or null map ends the loop after one call with its prices |
| `EnergyPriceApi.RetryTwoFailuresThenSuccess` | app/src/main/java/com/example/prijswijs/EnergyPriceDataSource/EnergyPriceAPI.kt:47-64 | two IOExceptions and then a good response: three calls, and the response's prices |
| `EnergyPriceApi.RetryExhausted` | app/src/main/java/com/example/prijswijs/EnergyPriceDataSource/EnergyPriceAPI.kt:55-59 | three IOExceptions: the filtered cache after three calls |
| `EnergyPriceApi.RetryTimeoutsNeverEnd` | app/src/main/java/com/example/prijswijs/EnergyPriceDataSource/EnergyPriceAPI.kt:60-62 | a timeout loads the cache but uses up no retry, so timeouts alone never end the loop |
| `EnergyPriceApi.RetryEndsWith` | app/src/main/java/com/example/prijswijs/EnergyPriceDataSource/EnergyPriceAPI.kt:47-64 | when processing never throws NullPointerException, the loop never ends with one; when it ends it has made at least one call more than when it started, and it returns either the cache or the processed prices of its last call, a response whose map is not empty; an exception escapes only on a call that raised one neither `catch` handles |
| `EnergyPriceApi.GetNullOnlyOnSave` | app/src/main/java/com/example/prijswijs/EnergyPriceDataSource/EnergyPriceAPI.kt:44-66 | `getTodaysEnergyPrices` throws NullPointerException exactly when the loop ends with a null map, at `priceData.priceTimeMap!!` in `saveCachedPrices` (Persistence.kt:49) |
| `EnergyPriceApi.EmptyFeedCrashesOnSave` | app/src/main/java/com/example/prijswijs/EnergyPriceDataSource/EnergyPriceAPI.kt:50-72 | an empty `Prices` array gives a null map, which `isEmpty() == true` lets through, so the save crashes |
| `EnergyPriceApi.LoadFallback` | app/src/main/java/com/example/prijswijs/EnergyPriceDataSource/EnergyPriceAPI.kt:58 | the fallback is a fresh PriceData holding the cache filtered at the current time |
| `EnergyPriceApi.ResponseStep` | app/src/main/java/com/example/prijswijs/EnergyPriceDataSource/EnergyPriceAPI.kt:49-54 | after a response: a processing crash ends everything, a non-empty or null map ends the loop with it, an empty map counts as an IOException |
| `EnergyPriceApi.OnResponse` | app/src/main/java/com/example/prijswijs/EnergyPriceDataSource/EnergyPriceAPI.kt:49-54 | the `try` block on a response does what `ResponseStep` describes to the loop state |
| `EnergyPriceApi.RetryOnce` | app/src/main/java/com/example/prijswijs/EnergyPriceDataSource/EnergyPriceAPI.kt:48-63 | one pass of the loop body either ends the loop as `RetryFrom` says or leaves the state from which `RetryFrom` goes on |
| `EnergyPriceApi.RetryLoop` | app/src/main/java/com/example/prijswijs/EnergyPriceDataSource/EnergyPriceAPI.kt:44-64 | the `while (retryCountdown > 0)` loop ends as `RetryFrom` says, with `prices` holding the result when it ends normally |
| `EnergyPriceApi.GetTodaysEnergyPrices` | app/src/main/java/com/example/prijswijs/EnergyPriceDataSource/EnergyPriceAPI.kt:24-68 | `getTodaysEnergyPrices` ends as `GetSpec` says, and the cache file is rewritten from the result exactly when it returns normally |
| `LegacyApi.CollectFresh` | app/src/main/java/com/example/prijswijs/EnergyPriceAPI.kt:86-94 | the parse loop that skips points before the cutoff gives a map with unique timestamps |
| `LegacyApi.LastWriteFiltered` | app/src/main/java/com/example/prijswijs/EnergyPriceAPI.kt:89-93 | skipping stale points leaves a stale timestamp with no write and every other timestamp with the write it had last in the feed |
| `LegacyApi.CollectFreshLookup` | app/src/main/java/com/example/prijswijs/EnergyPriceAPI.kt:86-94 | a stale timestamp is absent, and any other holds the price written last for it in the feed |
| `LegacyApi.LegacyCurrentOnly` | app/src/main/java/com/example/prijswijs/EnergyPriceAPI.kt:86-94 | every point of the map has a timestamp from the feed, at or after the cutoff |
| `LegacyApi.CollectCurrent` | app/src/main/java/com/example/prijswijs/EnergyPriceAPI.kt:86-94 | the `for` loop with `continue` builds `CollectFresh` |
| `LegacyApi.InsertRanked` | app/src/main/java/com/example/prijswijs/EnergyPriceAPI.kt:113 | inserting one entry into a price-ranked list keeps it ranked and adds exactly that entry |
| `LegacyApi.SortByPrice` | app/src/main/java/com/example/prijswijs/EnergyPriceAPI.kt:113 | `sortedByDescending { it.value }` (and `sortedBy` for troughs): a ranked list of the same entries |
| `LegacyApi.RankedHead` | app/src/main/java/com/example/prijswijs/EnergyPriceAPI.kt:113-115 | the first candidate is an entry with the highest price (the lowest, for troughs) |
| `LegacyApi.FirstApart` | app/src/main/java/com/example/prijswijs/EnergyPriceAPI.kt:116-117 | `firstOrNull { abs(time - t) >= minGap }`: an entry that far away, or null when every entry is closer |
| `LegacyApi.SecondPick` | app/src/main/java/com/example/prijswijs/EnergyPriceAPI.kt:116-118 | the second peak or trough of the fallback is a later candidate, and is null exactly when there is only one candidate |
| `LegacyApi.Picks` | app/src/main/java/com/example/prijswijs/EnergyPriceAPI.kt:109-133 | both choices, whether made per half or by the fallback, are sorted entries |
| `LegacyApi.Specials` | app/src/main/java/com/example/prijswijs/EnergyPriceAPI.kt:136-141 | the special set has at most four sorted entries |
| `LegacyApi.LateNonEmpty` | app/src/main/java/com/example/prijswijs/EnergyPriceAPI.kt:105-106 | the later half always holds the last entry |
| `LegacyApi.FallbackOnlyForTinySpan` | app/src/main/java/com/example/prijswijs/EnergyPriceAPI.kt:101-112 | the fallback runs exactly when the earlier half is empty, which happens exactly when the series spans at most one millisecond |
| `LegacyApi.PeakPicked` | app/src/main/java/com/example/prijswijs/EnergyPriceAPI.kt:109-120 | some chosen peak exists and has the series' highest price |
| `LegacyApi.TroughPicked` | app/src/main/java/com/example/prijswijs/EnergyPriceAPI.kt:123-133 | some chosen trough exists and has the series' lowest price |
| `LegacyApi.SpecialsHoldExtremes` | app/src/main/java/com/example/prijswijs/EnergyPriceAPI.kt:109-141 | the special set holds an entry with the highest and one with the lowest price |
| `LegacyApi.AddInitialAll` | app/src/main/java/com/example/prijswijs/EnergyPriceAPI.kt:148-151 | when there is room for all of them, the size test never refuses an initial entry |
| `LegacyApi.AddInitialLoop` | app/src/main/java/com/example/prijswijs/EnergyPriceAPI.kt:148-151 | the `for` loop with its size test computes `AddInitial` |
| `LegacyApi.LegacyInitial` | app/src/main/java/com/example/prijswijs/EnergyPriceAPI.kt:144-151 | the initial selection is the specials plus the first four: at most eight sorted entries, containing the first four |
| `LegacyApi.SquareOk` | app/src/main/java/com/example/prijswijs/EnergyPriceAPI.kt:156-159 | `pow(2.0)` is a genuine curve: bounded in [0, 1], monotone, 0 at 0 and 1 at 1 |
| `LegacyApi.FirstOrdinary` | app/src/main/java/com/example/prijswijs/EnergyPriceAPI.kt:166 | `firstOrNull { !specialSet.contains(it) }`: the first non-special position, or null when all entries are special |
| `LegacyApi.RemoveAt` | app/src/main/java/com/example/prijswijs/EnergyPriceAPI.kt:168 | `remove(candidate)`: one entry fewer, still chronological, every other entry kept |
| `LegacyApi.LegacyTrim` | app/src/main/java/com/example/prijswijs/EnergyPriceAPI.kt:164-172 | the trim loop ends chronological, drops no special, ends at ten or fewer unless only specials are left, and is a no-op on ten or fewer |
| `LegacyApi.LegacyTrimLoop` | app/src/main/java/com/example/prijswijs/EnergyPriceAPI.kt:164-172 | the `while` loop with its `break` computes `LegacyTrim` |
| `LegacyApi.LegacySelectViaFill` | app/src/main/java/com/example/prijswijs/EnergyPriceAPI.kt:145-177 | the selection is the (unguarded, squared) fill of the sorted map followed by the assembly |
| `LegacyApi.LegacySelectFails` | app/src/main/java/com/example/prijswijs/EnergyPriceAPI.kt:153-161 | the selection fails exactly when nothing is left to draw from, and then with IndexOutOfBoundsException |
| `LegacyApi.LegacyCrashes` | app/src/main/java/com/example/prijswijs/EnergyPriceAPI.kt:69-178 | an empty array gives an empty triple, an array of only stale points crashes on `first()`, otherwise a crash happens exactly when nothing is left to draw and is an IndexOutOfBoundsException |
| `LegacyApi.AllStaleCrash` | app/src/main/java/com/example/prijswijs/EnergyPriceAPI.kt:89-98 | a non-empty feed of only stale points throws NoSuchElementException |
| `LegacyApi.LegacyFewPointsCrash` | app/src/main/java/com/example/prijswijs/EnergyPriceAPI.kt:149-160 | one to four current points are all taken initially, so the first draw is out of bounds |
| `LegacyApi.LegacyKept` | app/src/main/java/com/example/prijswijs/EnergyPriceAPI.kt:145-172 | a successful fill keeps the initial selection, adds only sorted entries, reaches at most ten, and the trim loop then leaves it untouched |
| `LegacyApi.LegacyAssembleShape` | app/src/main/java/com/example/prijswijs/EnergyPriceAPI.kt:145-177 | the result holds 1 to 10 chronological current points, including the first four and every special; peak and trough are the extremes of all current points, bound every returned price and are attained |
| `LegacyApi.LegacySelectShape` | app/src/main/java/com/example/prijswijs/EnergyPriceAPI.kt:145-177 | any successful selection: 1 to 10 chronological current points including the first four, with peak and trough the extremes of all current points, bounding every returned price and attained |
| `LegacyApi.LegacyProcessPrices` | app/src/main/java/com/example/prijswijs/EnergyPriceAPI.kt:69-178 | the step-by-step older `processPrices` computes `LegacyCurate` |
| `LegacyApi.LegacyRetryBounds` | app/src/main/java/com/example/prijswijs/EnergyPriceAPI.kt:46-64 | the retry loop ends within `countdown + 1` calls; a return reports the last call's series and records it in `lastPrices`; PricesUnavailableException comes after exactly `countdown + 1` calls and carries `processPrices(lastPrices)`; any other exception comes from processing `lastPrices` or the fresh series (or from a `lastPrices` never set) |
| `LegacyApi.LegacyUninitializedOnlyUnfetched` | app/src/main/java/com/example/prijswijs/EnergyPriceAPI.kt:18-19 | UninitializedPropertyAccessException is thrown only when `lastPrices` was never set |
| `LegacyApi.LegacyTwoFailuresThenSuccess` | app/src/main/java/com/example/prijswijs/EnergyPriceAPI.kt:46-64 | two exceptions then a good response: three calls, the fresh series, which also becomes `lastPrices` |
| `LegacyApi.LegacyFourFailures` | app/src/main/java/com/example/prijswijs/EnergyPriceAPI.kt:56-61 | four exceptions in a row throw PricesUnavailableException after four calls with `processPrices(lastPrices)`, or an uninitialised-property exception when no series was ever fetched |
| `LegacyApi.LegacyFailureAfterSuccess` | app/src/main/java/com/example/prijswijs/EnergyPriceAPI.kt:52-60 | after a good run, a run of four failures reports that run's processed series |
| `LegacyApi.LegacyCompanion.constructor` | app/src/main/java/com/example/prijswijs/EnergyPriceAPI.kt:18-19 | `lastPrices` starts unset |
| `LegacyApi.LegacyCompanion.GetTodaysEnergyPrices` | app/src/main/java/com/example/prijswijs/EnergyPriceAPI.kt:21-67 | the older `getTodaysEnergyPrices` ends as `LegacyRetryFrom` says and leaves `lastPrices` as it says |
| `EarliestApi.DrawFormula` | app/src/main/java/com/example/enerfy/EnergyPriceAPI.kt:75-79 | draw `i` of the six is `i * i * (m - 1) / 25` in integer division |
| `EarliestApi.DrawExact` | app/src/main/java/com/example/enerfy/EnergyPriceAPI.kt:76-79 | `(Math.pow(fraction, 2.0) * (m - 1)).toInt()` on exact reals is exactly `Draw(i, m)` |
| `EarliestApi.DrawsInRange` | app/src/main/java/com/example/enerfy/EnergyPriceAPI.kt:75-80 | the six draws stay inside the remainder, never go back, start at its first entry and end at its last |
| `EarliestApi.DrawStep` | app/src/main/java/com/example/enerfy/EnergyPriceAPI.kt:76-79 | one pass of the loop's floating formula gives draw `i`, inside the remainder |
| `EarliestApi.IndexInRemaining` | app/src/main/java/com/example/enerfy/EnergyPriceAPI.kt:76-79 | the loop body's `fraction` and `indexInRemaining` compute draw `i`, inside the remainder |
| `EarliestApi.Drawn` | app/src/main/java/com/example/enerfy/EnergyPriceAPI.kt:75-81 | the first `n` entries the loop appends are the remainder's entries at the draw positions |
| `EarliestApi.DrawnAscending` | app/src/main/java/com/example/enerfy/EnergyPriceAPI.kt:75-81 | draws taken in order from a chronological remainder never go back in time, and equal times are the same entry |
| `EarliestApi.SelectedAscending` | app/src/main/java/com/example/enerfy/EnergyPriceAPI.kt:67-83 | above ten points the selection is ten long, non-decreasing, and made of the first four and the six draws |
| `EarliestApi.SelectEntries` | app/src/main/java/com/example/enerfy/EnergyPriceAPI.kt:64-84 | the selection built with a mutable list and its `for` loop computes `Selected` |
| `EarliestApi.EarliestSmall` | app/src/main/java/com/example/enerfy/EnergyPriceAPI.kt:64-65 | at most ten parsed points: all of them, in chronological order |
| `EarliestApi.SelectedMap` | app/src/main/java/com/example/enerfy/EnergyPriceAPI.kt:67-91 | above ten points, the associated map is chronological, at most ten long, and made of the first four and the drawn entries |
| `EarliestApi.SelectedKeeps` | app/src/main/java/com/example/enerfy/EnergyPriceAPI.kt:69-80 | such a map keeps the first four points and, through the last draw, the latest point |
| `EarliestApi.SelectedWithin` | app/src/main/java/com/example/enerfy/EnergyPriceAPI.kt:67-91 | everything in the map is a sorted point |
| `EarliestApi.EarliestLarge` | app/src/main/java/com/example/enerfy/EnergyPriceAPI.kt:60-91 | more than ten points: a chronological map of at most ten parsed entries, made of the first four and the six draws, holding the first four and the latest point |
| `EarliestApi.DrawnTwelve` | app/src/main/java/com/example/enerfy/EnergyPriceAPI.kt:75-80 | for twelve points the six draws are the points at positions 4, 4, 5, 6, 8 and 11 |
| `EarliestApi.TwelveMap` | app/src/main/java/com/example/enerfy/EnergyPriceAPI.kt:79-91 | twelve sorted points: draws 0 and 1 land on the same point, and `associate` keeps nine |
| `EarliestApi.EarliestTwelve` | app/src/main/java/com/example/enerfy/EnergyPriceAPI.kt:60-91 | twelve parsed points give a map of exactly nine |
| `EarliestApi.EarliestExtremes` | app/src/main/java/com/example/enerfy/EnergyPriceAPI.kt:86-94 | peak and trough bound every parsed price and are attained by parsed points, whichever points are kept; an empty feed gives an empty triple |
| `EarliestApi.EarliestLastWrite` | app/src/main/java/com/example/enerfy/EnergyPriceAPI.kt:46-57 | every returned point carries the price written last for its timestamp in the feed, so a repeated timestamp keeps its last price |
| `EarliestApi.GetTodaysEnergyPrices` | app/src/main/java/com/example/enerfy/EnergyPriceAPI.kt:14-95 | `getTodaysEnergyPrices` after the fetch computes `EarliestCurate` |
| `Messages.Shown` | app/src/main/java/com/example/prijswijs/Notifications/EnergyNotificationService.kt:225-262 | the points a list of lines shows, separators skipped: never more than there are lines |
| `Messages.ShownAppend` | app/src/main/java/com/example/prijswijs/Notifications/EnergyNotificationService.kt:225-262 | appending lines appends the points they show |
| `Messages.LayoutShown` | app/src/main/java/com/example/prijswijs/Notifications/EnergyNotificationService.kt:225-262 | for any line writer that copies the point's time and price, the message shows exactly the map's points in map order, and its last line is the last point's |
| `Messages.LayoutFirst` | app/src/main/java/com/example/prijswijs/Notifications/EnergyNotificationService.kt:216-227 | the first line is the first point's line, written before any separator |
| `Messages.LayoutSeparators` | app/src/main/java/com/example/prijswijs/Notifications/EnergyNotificationService.kt:245-251 | a separator sits between two point lines, before the later one, exactly where the separator test holds for the previous and the current timestamp; two point lines follow each other directly exactly where it does not |
| `Messages.LayoutAll` | app/src/main/java/com/example/prijswijs/Notifications/EnergyNotificationService.kt:225-262 | every line of the message is a separator or a line written for some point, so whatever holds for every such line holds for the message |
| `Messages.LayoutWithoutSeparators` | app/src/main/java/com/example/enerfy/EnergyNotificationService.kt:146-172 | with a separator test that never holds, line `j` is point `j`'s line and there is one line per point |
| `Messages.IsNewDayIff` | app/src/main/java/com/example/prijswijs/Notifications/EnergyNotificationService.kt:307-312 | `isNewDay` holds exactly when the two instants' calendar days differ, so it is symmetric and false within one day |
| `Messages.TrimEnd` | app/src/main/java/com/example/prijswijs/Notifications/EnergyNotificationService.kt:264 | `trimEnd()`: a prefix of the text, not ending in whitespace as the JVM's `Char.isWhitespace` defines it, and everything dropped is whitespace |
| `Messages.TrimEndIdempotent` | app/src/main/java/com/example/prijswijs/Notifications/EnergyNotificationService.kt:264 | trimming twice is trimming once |
| `Messages.AppendLine` | app/src/main/java/com/example/prijswijs/Notifications/EnergyNotificationService.kt:248-261 | `appendLine` adds the rendered line and a newline to the text, which stays the rendering of the lines written so far |
| `Notifications.GenerateSuffix` | app/src/main/java/com/example/prijswijs/Notifications/EnergyNotificationService.kt:278-305 | `generateSuffix` returns one of the five marks, each beginning with a space and a bar; the star suffix comes exactly for prices below `low1` |
| `Notifications.SeedlingIff` | app/src/main/java/com/example/prijswijs/Notifications/EnergyNotificationService.kt:278-305 | the seedling comes exactly for a spread above 0.10 and a price from `low1` up to, not including, `low2` |
| `Notifications.ExtremesMarked` | app/src/main/java/com/example/prijswijs/Notifications/EnergyNotificationService.kt:267-305 | with a positive spread the trough gets the star, and the peak a single bang below a spread of 0.06, a double bang otherwise |
| `Notifications.DoubleBangNeedsSpread` | app/src/main/java/com/example/prijswijs/Notifications/EnergyNotificationService.kt:289-294 | the double bang needs a spread of at least 0.06 and a price above `peak1` |
| `Notifications.Rank` | app/src/main/java/com/example/prijswijs/Notifications/EnergyNotificationService.kt:278-305 | the order of the marks, from the star to the double bang: at most 4 |
| `Notifications.SuffixMonotone` | app/src/main/java/com/example/prijswijs/Notifications/EnergyNotificationService.kt:267-305 | for one range a higher price never gets a lower mark |
| `Notifications.SuffixFor` | app/src/main/java/com/example/prijswijs/Notifications/EnergyNotificationService.kt:217-244 | the suffix written for a point is empty exactly when the spread is not positive, otherwise one of the five marks, and the star exactly when the spread is positive and the price lies below `low1` |
| `Notifications.EmojiFor` | app/src/main/java/com/example/prijswijs/Notifications/EnergyNotificationService.kt:78-85 | `dateTimeEmojiTable[hourValue] ?: night city` is always one of the four city emoji |
| `Notifications.EmojiByHour` | app/src/main/java/com/example/prijswijs/Notifications/EnergyNotificationService.kt:78-85 | the night city shows exactly outside 6 to 22, and going from one hour to the next the emoji changes exactly on reaching 6, 12, 18 and 23 |
| `Notifications.VibrationAsWritten` | app/src/main/java/com/example/prijswijs/Notifications/EnergyNotificationService.kt:198-214 | the vibration check as written can only fail on stored prices, where `priceTimeMap!!` or `first()` throws |
| `Notifications.NeverVibratesAfterStoredPrices` | app/src/main/java/com/example/prijswijs/Notifications/EnergyNotificationService.kt:203-210 | as written, once a last price is stored the notification never vibrates, because the suffix carries a bar and so is never a bare bang |
| `Notifications.PeakDoesNotVibrateAsWritten` | app/src/main/java/com/example/prijswijs/Notifications/EnergyNotificationService.kt:201-210 | a stored peak price with vibration switched on still does not vibrate |
| `Notifications.Vibration` | app/src/main/java/com/example/prijswijs/Notifications/EnergyNotificationService.kt:198-214 | corrected: the check compares the bang suffixes themselves; it can only fail on stored prices, and vibrates only when the setting is on |
| `Notifications.VibratesAtPeaks` | app/src/main/java/com/example/prijswijs/Notifications/EnergyNotificationService.kt:198-214 | corrected: a stored first price above `peak1` vibrates as the setting says, and one at or below `peak2` does not vibrate |
| `Notifications.VibratesBySetting` | app/src/main/java/com/example/prijswijs/Notifications/EnergyNotificationService.kt:212-213 | with no stored price (peak -99.0) the notification vibrates as the setting says |
| `Notifications.VibrationCheck` | app/src/main/java/com/example/prijswijs/Notifications/EnergyNotificationService.kt:198-214 | the check as written and the corrected one crash in exactly the same cases, with the same exception, and with no stored price both follow the setting |
| `Notifications.HourlyMessageParts` | app/src/main/java/com/example/prijswijs/Notifications/EnergyNotificationService.kt:154-265 | a message that is built comes from a non-null, non-empty map; its lines are the layout of the map, its text the trimmed rendering, and it vibrates as its vibration check says: the check as written for `HourlyMessage`, the corrected one for `HourlyMessageFixed` |
| `Notifications.HourlyMessageShape` | app/src/main/java/com/example/prijswijs/Notifications/EnergyNotificationService.kt:154-265 | the message shows every point once in map order, begins with the Now line of the first point, has a day separator exactly before each point on a new calendar day, and its text does not end in whitespace |
| `Notifications.HourlyMessageLines` | app/src/main/java/com/example/prijswijs/Notifications/EnergyNotificationService.kt:174-261 | every point line carries its own suffix, and every hourly line the emoji of its hour |
| `Notifications.HourlyMessageFailures` | app/src/main/java/com/example/prijswijs/Notifications/EnergyNotificationService.kt:171-216 | in either form, a null map throws NullPointerException, a failing vibration check its exception, an empty map NoSuchElementException at `values.first()`; a non-empty map with a working check always gives a message |
| `Notifications.MessageNeverVibratesAfterStoredPrices` | app/src/main/java/com/example/prijswijs/Notifications/EnergyNotificationService.kt:198-214 | as written, a message built after prices were stored (peak not -99.0) never vibrates; with no stored price it vibrates exactly as the setting says |
| `Notifications.FixedMessageSameLines` | app/src/main/java/com/example/prijswijs/Notifications/EnergyNotificationService.kt:154-265 | the corrected message differs from the one as written only in its vibration: both fail on the same inputs with the same exception, and a built message has the same lines and text in both |
| `Notifications.FixedMessageVibratesAtPeaks` | app/src/main/java/com/example/prijswijs/Notifications/EnergyNotificationService.kt:198-214 | corrected: after a stored first price above `peak1` on a day with a positive spread the message vibrates as the setting says, and after one at or below `peak2` it does not vibrate |
| `Notifications.BaseLineIcons` | app/src/main/java/com/example/prijswijs/Notifications/EnergyNotificationService.kt:170-192 | the first pass gives one icon per point: the bulb for the first, the hour's emoji for the others |
| `Notifications.WriteLines` | app/src/main/java/com/example/prijswijs/Notifications/EnergyNotificationService.kt:216-262 | the Now line and the second pass write the layout of the map and its rendering |
| `Notifications.WritePoint` | app/src/main/java/com/example/prijswijs/Notifications/EnergyNotificationService.kt:233-261 | one pass of the second loop appends the point's block: a separator on a new day, then its line |
| `Notifications.GenerateHourlyNotificationMessage` | app/src/main/java/com/example/prijswijs/Notifications/EnergyNotificationService.kt:154-265 | the method computes `HourlyMessage`, the form as written, its failures and its always-off vibration after stored prices included |
| `OlderNotifications.Suffix` | app/src/main/java/com/example/prijswijs/EnergyNotificationService.kt:148-166 | the `when` ladder gives one of the star, the double bang, the bang, the seedling or nothing |
| `OlderNotifications.SuffixExtremes` | app/src/main/java/com/example/prijswijs/EnergyNotificationService.kt:150-165 | no mark when the spread is not positive; the lowest shown price always gets the star; with a spread of 0.06 or more the highest price gets a bang or a double bang |
| `OlderNotifications.NarrowSpread` | app/src/main/java/com/example/prijswijs/EnergyNotificationService.kt:157-159 | with a positive spread below 0.06 only the lowest price is marked |
| `OlderNotifications.DoubleBangNeeds` | app/src/main/java/com/example/prijswijs/EnergyNotificationService.kt:160 | the double bang needs a spread above 0.15 and a price above `peakThreshold1` that is not the lowest |
| `OlderNotifications.KotlinRem` | app/src/main/java/com/example/prijswijs/EnergyNotificationService.kt:184 | Kotlin's `%` truncates toward zero: the remainder lies strictly between `-b` and `b` |
| `OlderNotifications.TableHour` | app/src/main/java/com/example/prijswijs/EnergyNotificationService.kt:182-185 | the wrap-forward walk always ends on a key of the six-entry table |
| `OlderNotifications.TableHourNearest` | app/src/main/java/com/example/prijswijs/EnergyNotificationService.kt:134-141 | for an hour of the day it ends on the first table key at or after the hour, at most seven hours on |
| `OlderNotifications.EmojiHour` | app/src/main/java/com/example/prijswijs/EnergyNotificationService.kt:182-185 | the `while` loop computes `TableHour` |
| `OlderNotifications.OlderMessageShape` | app/src/main/java/com/example/prijswijs/EnergyNotificationService.kt:143-192 | the message shows every point once in map order, begins with the Now line of the first point, and has a separator exactly before each of the second to tenth points that starts a new day |
| `OlderNotifications.OlderLowestStarred` | app/src/main/java/com/example/prijswijs/EnergyNotificationService.kt:158 | with a positive spread every line of the lowest shown price carries the star |
| `OlderNotifications.GenerateHourlyNotificationMessage` | app/src/main/java/com/example/prijswijs/EnergyNotificationService.kt:126-195 | the method computes `OlderMessage` |
| `OlderNotifications.WritePoint` | app/src/main/java/com/example/prijswijs/EnergyNotificationService.kt:146-191 | one pass of the loop appends the point's block: a separator for points 1 to 9 on a new day, then its line |
| `EarliestNotifications.Suffix` | app/src/main/java/com/example/enerfy/EnergyNotificationService.kt:126-143 | the `when` ladder gives one of the star, the double bang, the bang, the seedling or nothing |
| `EarliestNotifications.SuffixExtremes` | app/src/main/java/com/example/enerfy/EnergyNotificationService.kt:133-137 | no mark below a spread of 0.06; from 0.06 on the highest price gets a bang or a double bang, and the lowest price (when not also the highest, and not above `peakThreshold2`) the star |
| `EarliestNotifications.BangOnModerateSpread` | app/src/main/java/com/example/enerfy/EnergyNotificationService.kt:134-136 | with a spread from 0.06 to 0.10 the bang comes exactly for the highest price |
| `EarliestNotifications.Trend` | app/src/main/java/com/example/enerfy/EnergyNotificationService.kt:160-166 | the trend icon rises, falls or stays level exactly as the price compares with the previous one |
| `EarliestNotifications.EarliestMessageLines` | app/src/main/java/com/example/enerfy/EnergyNotificationService.kt:146-172 | one line per point, in map order, with no separators; each carries its own suffix, and the first is the Now line |
| `EarliestNotifications.EarliestMessageTrends` | app/src/main/java/com/example/enerfy/EnergyNotificationService.kt:158-171 | every line after the first is an hourly line whose icon rises, falls or stays level as its price compares with the line before |
| `EarliestNotifications.EarliestNarrowSpread` | app/src/main/java/com/example/enerfy/EnergyNotificationService.kt:133-134 | below a spread of 0.06 no line is marked |
| `EarliestNotifications.EarliestTrends` | app/src/main/java/com/example/enerfy/EnergyNotificationService.kt:158-171 | lines that carry each point's price and the trend against the previous point compare as their prices do |
| `EarliestNotifications.EarliestLinesSpelled` | app/src/main/java/com/example/enerfy/EnergyNotificationService.kt:146-172 | point `j`'s line carries its price and suffix, is the Now line exactly for `j == 0`, and otherwise shows the trend from point `j - 1` |
| `EarliestNotifications.FillSuffixList` | app/src/main/java/com/example/enerfy/EnergyNotificationService.kt:122-144 | `suffixList` holds one suffix per point, in map order |
| `EarliestNotifications.KeyLine` | app/src/main/java/com/example/enerfy/EnergyNotificationService.kt:147-171 | for a key with unique timestamps `map[date]` and `indexOf(date)` find that key's own point, so the line written is its block |
| `EarliestNotifications.WriteKey` | app/src/main/java/com/example/enerfy/EnergyNotificationService.kt:147-171 | one pass of the `forEach` extends the layout by one point and the text by its rendering |
| `EarliestNotifications.GenerateHourlyNotificationMessage` | app/src/main/java/com/example/enerfy/EnergyNotificationService.kt:114-175 | the method computes `EarliestMessage` |
| `Alarms.HourOfDay` | app/src/main/java/com/example/prijswijs/Alarms/AlarmScheduler.kt:51 | `get(Calendar.HOUR_OF_DAY)` lies in 0 to 23 |
| `Alarms.WithHourOfDayEffect` | app/src/main/java/com/example/prijswijs/Alarms/AlarmScheduler.kt:68 | `set(HOUR_OF_DAY, h)` gives hour `h` on the same day and keeps the minutes, seconds and milliseconds |
| `Alarms.Calendar.constructor` | app/src/main/java/com/example/prijswijs/Alarms/AlarmScheduler.kt:48 | a calendar holding the given instant |
| `Alarms.Calendar.AddDays` | app/src/main/java/com/example/prijswijs/Alarms/AlarmScheduler.kt:65-75 | `add(DAY_OF_MONTH, n)` moves by `n` days |
| `Alarms.Calendar.AddHours` | app/src/main/java/com/example/prijswijs/Alarms/AlarmScheduler.kt:87 | `add(HOUR, n)` moves by `n` hours |
| `Alarms.Calendar.SetHourOfDay` | app/src/main/java/com/example/prijswijs/Alarms/AlarmScheduler.kt:68 | `set(HOUR_OF_DAY, h)` as `WithHourOfDay` describes |
| `Alarms.Calendar.SetMinute` | app/src/main/java/com/example/prijswijs/Alarms/AlarmScheduler.kt:69 | `set(MINUTE, m)` replaces the minute |
| `Alarms.Calendar.SetSecond` | app/src/main/java/com/example/prijswijs/Alarms/AlarmScheduler.kt:70 | `set(SECOND, s)` replaces the second |
| `Alarms.Calendar.SetMillisecond` | app/src/main/java/com/example/prijswijs/Alarms/AlarmScheduler.kt:71 | `set(MILLISECOND, ms)` replaces the millisecond |
| `Alarms.AwakeWindow` | app/src/main/java/com/example/prijswijs/Alarms/AlarmScheduler.kt:54-58 | the user is awake exactly from the wake-up hour up to, not including, the bedtime hour, counted round the clock; equal hours make every hour bedtime |
| `Alarms.FirstAfterIs` | app/src/main/java/com/example/prijswijs/Alarms/AlarmScheduler.kt:62-83 | the first instant after `now` five seconds past the given hour is within a day of `now` |
| `Alarms.WakeUpTriggerFirst` | app/src/main/java/com/example/prijswijs/Alarms/AlarmScheduler.kt:62-76 | during bedtime the trigger is the first wake-up hour plus five seconds after now, except when bedtime equals the wake-up hour and less than five seconds of that hour have passed, when it is a day later |
| `Alarms.NextHourTriggerAfter` | app/src/main/java/com/example/prijswijs/Alarms/AlarmScheduler.kt:84-91 | while awake the trigger is five seconds past the next full hour |
| `Alarms.TriggerAfterNow` | app/src/main/java/com/example/prijswijs/Alarms/AlarmScheduler.kt:54-99 | whichever branch runs, the trigger lies in the future |
| `Alarms.ScheduleHourlyAlarm` | app/src/main/java/com/example/prijswijs/Alarms/AlarmScheduler.kt:48-99 | the calendar steps compute `ScheduleTrigger`, which lies in the future |
| `EnergyPriceApiTest.FakeFeedSorted` | app/src/test/java/com/example/prijswijs/EnergyPriceAPITest.kt:27-40 | the twelve hourly readings of `generateFakeResponse(12)` form a chronological map that collecting and sorting leave unchanged |
| `EnergyPriceApiTest.FakeFeedHalves` | app/src/main/java/com/example/prijswijs/EnergyPriceDataSource/EnergyPriceAPI.kt:128-135 | on that feed the midpoint falls after the sixth reading: the first six readings are early and the last six late |
| `EnergyPriceApiTest.RunExtremes` | app/src/main/java/com/example/prijswijs/EnergyPriceDataSource/EnergyPriceAPI.kt:137-147 | within a run of the rising feed the earliest highest price is the run's last reading and the earliest lowest its first |
| `EnergyPriceApiTest.PeaksAndTroughsAre` | app/src/main/java/com/example/prijswijs/EnergyPriceDataSource/EnergyPriceAPI.kt:149-154 | the specials are exactly the four extremes picked from the two halves |
| `EnergyPriceApiTest.FakeFeedSpecials` | app/src/main/java/com/example/prijswijs/EnergyPriceDataSource/EnergyPriceAPI.kt:128-154 | the specials of the feed are its first, sixth, seventh and twelfth readings |
| `EnergyPriceApiTest.FakeFeedInitial` | app/src/main/java/com/example/prijswijs/EnergyPriceDataSource/EnergyPriceAPI.kt:99-104 | the initial selection of the feed is the first four readings and the specials, seven entries in all |
| `EnergyPriceApiTest.RemainingIs` | app/src/main/java/com/example/prijswijs/EnergyPriceDataSource/EnergyPriceAPI.kt:107 | the remainder of a chronological list is the chronological list of exactly its unselected entries |
| `EnergyPriceApiTest.FakeFeedLeftover` | app/src/main/java/com/example/prijswijs/EnergyPriceDataSource/EnergyPriceAPI.kt:107 | the feed leaves five readings to draw from: the fifth and the eighth to eleventh |
| `EnergyPriceApiTest.FakeFeedDraws` | app/src/main/java/com/example/prijswijs/EnergyPriceDataSource/EnergyPriceAPI.kt:108-114 | three draws from five entries land on positions 0, `(4 * curve(0.5)).toInt()` (from 1 to 3) and 4, and so are distinct, whenever `curve(0.5)` lies in [0.25, 1), as `0.5.pow(1.8)`, about 0.287, does |
| `EnergyPriceApiTest.FakeFeedPrices` | app/src/test/java/com/example/prijswijs/EnergyPriceAPITest.kt:53-55 | the feed's highest price is 12.0 and its lowest 1.0 |
| `EnergyPriceApiTest.CurateSevenAndFive` | app/src/main/java/com/example/prijswijs/EnergyPriceDataSource/EnergyPriceAPI.kt:99-125 | a feed whose selection starts with seven entries and leaves five, drawn from at distinct positions, gives exactly ten points with the feed's own peak and trough |
| `EnergyPriceApiTest.FakeFeedCurated` | app/src/test/java/com/example/prijswijs/EnergyPriceAPITest.kt:43-55 | `processPrices` on the feed gives exactly ten points, peak 12.0 and trough 1.0, the values the test asserts |
| `EnergyPriceApiTest.GetFirstResponse` | app/src/main/java/com/example/prijswijs/EnergyPriceDataSource/EnergyPriceAPI.kt:44-66 | a first response whose curation gives a non-empty map is what `getTodaysEnergyPrices` returns, after one call |
| `EnergyPriceApiTest.GetThirdResponse` | app/src/main/java/com/example/prijswijs/EnergyPriceDataSource/EnergyPriceAPI.kt:44-66 | the same response after two IOExceptions is what `getTodaysEnergyPrices` returns, after three calls |
| `EnergyPriceApiTest.FakeFeedFirstCall` | app/src/test/java/com/example/prijswijs/EnergyPriceAPITest.kt:42-56 | `testGetTodaysEnergyPricesSuccess`: `getTodaysEnergyPrices` ends after one call with ten points, peak 12.0 and trough 1.0 |
| `EnergyPriceApiTest.FakeFeedThirdCall` | app/src/test/java/com/example/prijswijs/EnergyPriceAPITest.kt:58-79 | `testGetTodaysEnergyPricesRetryLogic` with its two failures raised as IOExceptions: `getTodaysEnergyPrices` ends after three calls with ten points, peak 12.0 and trough 1.0 |
| `EnergyPriceApiTest.PlainExceptionEscapes` | app/src/main/java/com/example/prijswijs/EnergyPriceDataSource/EnergyPriceAPI.kt:47-62 | a plain `Exception` from the first call is caught by neither `catch`: `getTodaysEnergyPrices` throws it after that one call, with no retry and no fallback to the cache |
| `EnergyPriceApiTest.FakeFeedRetryAsMocked` | app/src/test/java/com/example/prijswijs/EnergyPriceAPITest.kt:61-68 | `testGetTodaysEnergyPricesRetryLogic` as mocked, with `Exception` on the first two calls: the first escapes after one call, so the three calls and the feed's prices the test expects are never reached |
## Left out

- HTTP and JSON are not modelled: `sendGet`, `createUrl`, `JSONObject` parsing and `SimpleDateFormat`. The feed is a sequence of already parsed entries, and each revision's fetches are a sequence of attempt outcomes.
- Coroutines are not modelled: `withContext`, `withTimeout`, `delay` and the `Handler` posting. A timeout is only one of the attempt outcomes.
- Text measuring and padding are not modelled: `formatLine`, `Paint.measureText`, the tab stops and `"%.2f"` formatting. A line is a datatype, and its text is a `render` parameter.
- Floating point is not modelled. Prices are exact reals.
- `pow(1.8)` is an abstract `curve` bounded in [0, 1], monotone and fixed at 0 and 1.
- `pow(2.0)` is exact squaring.
- The product `x * (size - 1)` is written as repeated addition and proved equal to the real product.
- The narrowing of a Double to the stored Float is a `toFloat` parameter.
- Time zones and daylight saving are not modelled. An instant is a count of milliseconds in local civil time. `hourOf` and `dayOf` stand for the calendar's hour and day fields.
- Alarms.ScheduleHourlyAlarm: the three clock readings of `scheduleHourlyAlarm` are taken as one instant `now`.
- Alarms.ScheduleHourlyAlarm: requires a wake-up hour from 0 to 23, because the lenient rolling that `Calendar.set` does on other hours is not modelled.
- The exact-alarm permission check, the settings intent and the `AlarmManager` call are left out. They are platform calls; the model ends at the trigger instant.
- `Persistence.loadLastPrice` and `NotificationCompat.Builder.doVibration` are not part of this model. The stored last price is an input of the message, and the vibration decision is one of its outputs.
- `showNotification`, the notification channel, `onStartCommand` and the handling of `CachedPricesUnavailableException` are not modelled. They are Android glue around the modelled message and fetch.
- PersistenceModel.Persistence.LoadCachedPrices and PersistenceModel.Persistence.LoadSettings: require stores whose keys hold values of the type they are read as. A `ClassCastException` from a mistyped preference is not modelled.
- The store is read and written as a whole map. `apply()`'s asynchronous write is not modelled: a later read sees the write.
- PersistenceModel.LoadAfterSave and PersistenceModel.LoadAfterClearedSave: hold only for series with no sentinel entry. An entry is a sentinel when its price narrows to -9999.0, or when its date's `time.toInt()` truncates to -9999. The loader stops at such an entry, as `SentinelCutsOff` states.
- EnergyPriceApi.CurateExactlyTen: assumes that the draws land on distinct positions. The general condition on `pow(1.8)` is not proved. For the twelve-point feed of the tests it is proved from `curve(0.5)` lying in [0.25, 1) (`EnergyPriceApiTest.FakeFeedDraws`).
- `testGetTodaysEnergyPricesFailureWithLastPrices` is not modelled against the current `getTodaysEnergyPrices`. It expects PricesUnavailableException carrying the last prices, which is what the older revision throws, because it catches every `Exception` (`LegacyApi.LegacyFourFailures`). Its mock throws a plain `Exception`, which the current revision does not catch: it escapes after the first call (`EnergyPriceApiTest.PlainExceptionEscapes`). Three IOExceptions would return the filtered cache instead (`EnergyPriceApi.RetryExhausted`).
- EnergyPriceApiTest.FakeFeedThirdCall: states the retry test with its two failures as IOExceptions, the kind the current revision retries. The test's mock throws a plain `Exception`, which escapes after the first call; `FakeFeedRetryAsMocked` states that case.
- Messages.IsWhitespace: follows current Unicode. U+180E counted as a space separator before Unicode 6.3 and is not treated as whitespace here.
- EnergyPriceApi.RetryEndsWith: assumes that processing never throws NullPointerException itself. The modelled `processPrices` proves this separately (`CurateNoNull`).

## Findings

| source | as written | input that shows it | evidently intended | confidence | as-written member | corrected member |
|---|---|---|---|---|---|---|
| app/src/main/java/com/example/prijswijs/EnergyPriceDataSource/EnergyPriceAPI.kt:106-113 | the fill runs whenever fewer than ten entries are selected, even when no entry is left to draw from, and then `remainingEntries[index]` throws IndexOutOfBoundsException | a feed of one point, `Entry(0, 0.25)`; any feed of at most four distinct timestamps | skip the fill when nothing is left, returning the initial selection | not executed | `EnergyPriceApi.SinglePointCrash` | `EnergyPriceApi.CurateFixedTotal` |
| app/src/main/java/com/example/prijswijs/Notifications/EnergyNotificationService.kt:203-210 | the last stored price's suffix is looked up among the bare bang marks, but `generateSuffix` returns them after a space and a bar, so the test never holds | a stored map `[Entry(0, 1.0)]` with peak 1.0, trough 0.0 and vibration on | vibrate, as the setting says, when the stored price earned a bang or a double bang | not executed | `Notifications.PeakDoesNotVibrateAsWritten` | `Notifications.FixedMessageVibratesAtPeaks` |
| app/src/main/java/com/example/prijswijs/Persistence/Persistence.kt:43-60 | `saveCachedPrices` writes the new keys over the old file without clearing it, so the entries of a longer earlier save survive past the new one's end | saving `[(0, 1.0), (3600000, 2.0)]` and then `[(7200000, 3.0)]` loads `[(7200000, 3.0), (3600000, 2.0)]` | clear the file before writing, so loading gives back exactly the saved series | not executed | `PersistenceModel.StaleEntriesSurvive` | `PersistenceModel.LoadAfterClearedSave` |
