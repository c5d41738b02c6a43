# Fuel tracker: analytics, field reconciliation and the fuel-type list

A Dafny model of the computational core of a browser-based fuel-expense tracker.

- **Analytics pass** (`calculateAnalytics`). It covers:
  - total spend and total amount, leaving out odometer-only checkpoints;
  - the volume-weighted average price;
  - the distance driven, from the running odometer baseline;
  - the efficiency series (fuel per 100 distance units), with its dates and its mean.
- **Support for the analytics view.** The (date, odometer) order in which the view sorts the logs, the odometer-only predicate, and the calendar's month navigation.
- **Fuel-log form.** The live reconciliation of price, total cost and amount, driven by the last field the user focused. The rules the save button applies before a record is stored: the missing amount is derived, and an empty record is refused.
- **Fuel-type list editor.** A list of names kept in local storage. You can add a name (only if absent), rename the first occurrence in place, or delete every occurrence. The list is sorted in place for display.

Modules, one per file:

- `Wrappers`: `Option` and `Result`.
- `Text`: `trim` and the default string order of `sort`.
- `Sorting`: a generic in-place insertion sort on an `array`, proved sorted and a permutation.
- `FuelLogs`: the record, the odometer-only predicate, the comparator and `toFixed` rounding.
- `Reconciler`: `recalculateFuelValues`, the form as a class, and the save rules.
- `Analytics`: the specification functions of every metric, the imperative `calculateAnalytics` proved equal to them, and the lemmas about them.
- `Calendar`: the month and year as a class, with the prev/next buttons.
- `FuelTypes`: the list operations as functions, and the editor as a class.

The analytics are specified one record at a time, from the front of the list:

- `FuelRecords`, `PricedRecords`, `Spend` and `Volume` define the totals.
- `LastReading`, `Leg` and `Distance` define the distance.
- `LastFill`, `ReadingAt` and `Series` define the efficiency series.

`TotalsOf` and `TripOf` are the states of the two loops, and the lemmas `TotalsMeaning` and `TripMeaning` tie those states to the metrics. The method `Analytics.CalculateAnalytics` runs the source's loops: the `forEach`, `findIndex`, the `for i` loop and the backward `for j` scan. It is proved to return `AnalyticsOf(logs)`.

**The reconciler is not idempotent in one case.** Running it again on its own output changes nothing, except when the last edit was the amount, there was no price, and a positive price was derived from cost ÷ amount at 3 decimals. The next run then takes the price branch and re-derives the cost from the rounded price, which can move the cost by much more than a rounding step:

- `Reconciler.ReconcileIdempotent` proves idempotence in every other case.
- `Reconciler.DerivedPriceCostDrift` bounds the drift in the remaining case.
- `Reconciler.DerivedPriceCostDriftExample` exhibits it: amount 1000 and cost 1.40 give price 0.001, and the next run turns the cost into 1.00.

## Model

| member | source | states |
|---|---|---|
| FuelLogs.IsOdometerOnly | script.v2.js:977 | a record is odometer-only when its reading is positive and its cost, price and amount are all zero; the same test appears at script.v2.js:751 and, negated, at 941 |
| Reconciler.SavedOdometerOnly | script.v2.js:751 | a stored record is odometer-only exactly when the form held a positive reading and no price, cost or amount; this is the classification the calendar query applies |
| FuelLogs.CompareLogs | script.v2.js:930-935 | the comparator is negative, zero or positive exactly when `a` is before, level with or after `b` in (date, odometer) order |
| FuelLogs.LogLeIsTotalPreorder | script.v2.js:930-935 | "comparator ≤ 0" is total and transitive, so sorting by it is well defined |
| FuelLogs.SortLogs | script.v2.js:930-935 | the in-place sort leaves the logs ordered by (date, odometer) and a permutation of the logs before |
| Sorting.InsertionSort | script.v2.js:930-935 | for any total preorder, sorting in place gives an ordered array with the same multiset of elements |
| FuelLogs.Round | script.v2.js:203-209 | `toFixed(places)` read back as a number has at most `places` decimals, is within half a unit in the last place of its argument, and keeps its sign |
| FuelLogs.HalfUnit | script.v2.js:203-209 | half a unit in the last kept place is positive, at most 0.5, and times 10^places equals 0.5 |
| Reconciler.Reconcile | script.v2.js:196-212 | price or cost edited: only the amount changes, to cost ÷ price at 2 decimals, when both are positive; amount edited: amount × price at 2 decimals becomes the cost when amount and price are positive, else cost ÷ amount at 3 decimals becomes the price when amount and cost are positive; no field else changes, and with no edit nothing changes |
| Reconciler.ReconcileWithinRounding | script.v2.js:201-211 | a field the listener changes is within half a unit of the exact quotient or product it stands for, and its divisor is positive |
| Reconciler.ReconcileIdempotent | script.v2.js:201-211 | running the listener again on its own output changes nothing, unless a positive price was just derived |
| Reconciler.DerivedPriceCostDrift | script.v2.js:205-210 | after a derived positive price, the next run keeps price and amount and moves the cost by at most amount × 0.0005 + 0.005 |
| Reconciler.DerivedPriceCostDriftExample | script.v2.js:205-210 | amount 1000 and cost 1.40 give price 0.001, and the next run makes the cost 1.00 |
| Reconciler.CostFromAmountAndPrice | script.v2.js:206-207 | with the amount edited and amount and price positive, the cost is re-derived and nothing else changes |
| Reconciler.ChainedRoundingError | script.v2.js:201-211 | if p is within h1 of t ÷ a and c is within h2 of a × p, then c is within a·h1 + h2 of t |
| Reconciler.CostAmountRoundTrip | script.v2.js:201-208 | deriving the amount from price and cost, and then the cost from price and amount, returns the cost to within price × 0.005 + 0.005; when the amount rounds to 0 the cost is left as it was |
| Reconciler.CostAmountRoundTripExample | script.v2.js:201-208 | price 2.000 and cost 40.00 give amount 20.00, and re-deriving the cost gives 40.00 exactly |
| Reconciler.FuelLogForm.constructor | script.v2.js:191-194 | the form starts with empty (zero) inputs and no edited field |
| Reconciler.FuelLogForm.Focus | script.v2.js:214-225 | focusing an input records it as the last edited field and changes no value |
| Reconciler.FuelLogForm.Recalculate | script.v2.js:196-212 | the `input` listener writes back exactly `Reconcile` of the old values and keeps the last edited field |
| Reconciler.PrepareFuelLog | script.v2.js:603-629 | refused with NoVehicle exactly when no vehicle is selected; refused with NoData exactly when a vehicle is selected and cost, amount and odometer are all zero; a stored record always carries a cost, an amount or a reading; it copies every input, with the notes trimmed; the amount is kept, except that with price and cost positive and no amount it becomes cost ÷ price at 2 decimals, within half a cent |
| Text.TrimStartSuffix | js/fuelTypes.js:70 | removes exactly the leading whitespace: the result is a suffix, all that was dropped is whitespace, and it does not start with whitespace |
| Text.TrimEndPrefix | js/fuelTypes.js:70 | removes exactly the trailing whitespace: the result is a prefix, all that was dropped is whitespace, and it does not end with whitespace |
| Text.Trim | js/fuelTypes.js:70-73 | the trimmed name is the input's own text from the end of its leading whitespace, followed in the input by whitespace only; it neither starts nor ends with whitespace, and it is empty exactly when the name is whitespace only |
| Text.StrLeTotal | js/fuelTypes.js:34 | any two names are comparable in the default sort order |
| Text.StrLeTransitive | js/fuelTypes.js:34 | the default sort order is transitive |
| Text.StrLeAntisymmetric | js/fuelTypes.js:34 | two names each ordered before the other are equal |
| FuelTypes.IndexOf | js/fuelTypes.js:77-78 | `indexOf` returns the first index holding the name, and none exactly when the name is absent |
| FuelTypes.AddType | js/fuelTypes.js:82-85 | after an add the name is present; the length grows by at most one; the old entries keep their places; nothing else is added; a name already present leaves the list unchanged |
| FuelTypes.AddKeepsNoDuplicates | js/fuelTypes.js:82-85 | a list without duplicates has none after an add |
| FuelTypes.RenameType | js/fuelTypes.js:75-81 | the length is kept; the first occurrence of the old name becomes the new name; every other entry is unchanged; an absent old name, or a new name equal to it, leaves the list unchanged |
| FuelTypes.RenameKeepsNoDuplicates | js/fuelTypes.js:75-81 | renaming to a name not yet present keeps a list free of duplicates |
| FuelTypes.RemoveType | js/fuelTypes.js:96 | after a delete the name is gone, and every other name occurs exactly as often as before |
| FuelTypes.RemoveKeepsOrder | js/fuelTypes.js:96 | deleting distributes over concatenation, so the remaining names keep their relative order |
| FuelTypes.RemoveAbsent | js/fuelTypes.js:96 | deleting an absent name changes nothing |
| FuelTypes.StrLeIsTotalPreorder | js/fuelTypes.js:34 | the default string order is a total preorder, so the in-place sort is well defined |
| FuelTypes.FuelTypeEditor.Load | js/fuelTypes.js:20 | the list is the stored one, or the three defaults when storage holds none |
| FuelTypes.FuelTypeEditor.constructor | js/fuelTypes.js:103-106 | on load the list comes from storage or the defaults, as `Load` states for line 20; when storage held no list, the defaults are written to it, so afterwards storage holds the list |
| FuelTypes.FuelTypeEditor.PopulateDropdown | js/fuelTypes.js:32-37 | the list is sorted in place: it ends ordered and is a permutation of the list before; storage is untouched |
| FuelTypes.FuelTypeEditor.Open | js/fuelTypes.js:47-52 | opening the editor reloads the list from storage and leaves it sorted, as a permutation of what was loaded |
| FuelTypes.FuelTypeEditor.Submit | js/fuelTypes.js:68-91 | a name that trims to empty changes nothing; otherwise storage receives the renamed list (when a name was selected) or the extended list, and the list shown is that list sorted |
| FuelTypes.FuelTypeEditor.Delete | js/fuelTypes.js:93-101 | with a selected name and confirmation, storage receives the list without that name, and the list shown is that list sorted; otherwise nothing changes |
| Calendar.MonthNumberInjective | script.v2.js:177-186 | a (year, month) pair with month in 0..11 is determined by its month count |
| Calendar.CalendarView.constructor | script.v2.js:7-8 | the view opens on the given month and year |
| Calendar.CalendarView.PrevMonth | script.v2.js:177-181 | back one month: the month index stays in 0..11, January wraps to December of the year before, and the month count drops by exactly one |
| Calendar.CalendarView.NextMonth | script.v2.js:182-186 | forward one month: the month index stays in 0..11, December wraps to January of the year after, and the month count rises by exactly one |
| Calendar.PrevThenNext | script.v2.js:300-306 | a swipe one way and then the other restores the month and the year |
| Analytics.CalculateAnalytics | script.v2.js:959-1037 | the pass returns exactly the metrics `AnalyticsOf(logs)`; an empty list gives all-zero metrics with empty arrays; the two arrays have equal length; the distance is not negative |
| Analytics.TrackDistance | script.v2.js:995-1028 | from the first positive reading on, the loop returns the total distance and the efficiency readings and dates of the whole list |
| Analytics.LastFillBefore | script.v2.js:1008-1016 | the backward scan from index i − 1 down to 0 returns the amount of the nearest earlier record with a positive amount, or 0 |
| Analytics.FirstReadingIndex | script.v2.js:995 | `findIndex` gives the first record with a positive reading, and none exactly when no record has one |
| Analytics.LastReading | script.v2.js:998-1027 | the running baseline, when there is one, is a positive reading |
| Analytics.Leg | script.v2.js:1003-1005 | a record adds a distance only when there is a baseline and its reading is above it, and then adds exactly the rise; otherwise it adds 0 |
| Analytics.Distance | script.v2.js:1003-1005 | the total distance is never negative |
| Analytics.LastFill | script.v2.js:1009-1016 | the fuel used is never negative |
| Analytics.TotalsMeaning | script.v2.js:975-988 | the sums of the `forEach` are the spend and amount of the records that are not odometer-only, and of the records with a positive price |
| Analytics.TripMeaning | script.v2.js:997-1028 | the state of the `for i` loop is the latest positive reading, the sum of the rises and the efficiency series, all taken over the records seen |
| Analytics.AveragePrice | script.v2.js:989-991 | the average price times the amount bought at a positive price gives the spend on those records; it is 0 when that amount is not positive |
| Analytics.Efficiency | script.v2.js:1019 | an efficiency reading times the distance of its leg is 100 times the fuel used on it |
| Analytics.Mean | script.v2.js:1031-1034 | the mean times the number of readings is their sum; it is 0 when there are none |
| Analytics.FuelRecordsExactly | script.v2.js:975-981 | spend and amount sum over exactly the records that are not odometer-only: each such record is counted as many times as it occurs, and an odometer-only record not at all |
| Analytics.PricedRecordsExactly | script.v2.js:983-987 | the average-price sums take exactly the records with a positive price, each as many times as it occurs, and no other record |
| Analytics.FuelTotalsCoverEveryRecord | script.v2.js:975-981 | leaving out the odometer-only records does not change the spend or the amount |
| Analytics.SpendWithinPrices | script.v2.js:983-992 | when every cost is price × amount at a price within [lo, hi], the spend lies between lo and hi times the volume |
| Analytics.AveragePriceWithinPrices | script.v2.js:983-992 | the volume-weighted average price lies between the lowest and the highest price paid |
| Analytics.BaselineIffReading | script.v2.js:995-998 | there is a baseline exactly when some record has a positive reading |
| Analytics.NoReadingsNoDistance | script.v2.js:995-997 | with no positive reading there is no baseline, no distance and no efficiency reading |
| Analytics.BaselineFollowsLatestReading | script.v2.js:1025-1027 | the baseline is the latest positive reading, even when it is lower than an earlier one |
| Analytics.DistanceAfterDip | script.v2.js:1003-1027 | readings 100, 50 and 80 cover a distance of 30: the dip resets the baseline |
| Analytics.DistanceCoversNetRise | script.v2.js:1003-1027 | the distance is at least the rise from any positive reading to the final baseline |
| Analytics.IncreasingReadingsDistance | script.v2.js:1003-1027 | for strictly increasing positive readings, the distance is the last reading minus the first |
| Analytics.LastFillIsNearest | script.v2.js:1009-1016 | the scan finds the nearest earlier record with a positive amount |
| Analytics.NoFillNoFuel | script.v2.js:1009-1016 | the fuel used is 0 exactly when no earlier record has a positive amount |
| Analytics.SeriesPositive | script.v2.js:1018-1022 | every efficiency reading is positive, and the first record never yields one |
| Analytics.EfficiencyPositive | script.v2.js:1019 | fuel ÷ distance × 100 is positive for positive fuel and distance |
| Analytics.RegularSeries | script.v2.js:1003-1022 | when every record adds fuel and the readings strictly increase, each record after the first yields one reading: the previous amount over the rise, times 100, dated by that record |
| Analytics.EfficiencyScenario | script.v2.js:1003-1034 | readings 10000, 10500 and 10900 with amounts 40, 0 and 35 give readings 8 and 10 dated 2 and 3, a distance of 900 and a mean of 9: the first record's 40 is the fuel used for both legs, and the third record's 35 is not used, because the scan starts before the current record |
| Analytics.SumWithin | script.v2.js:1032 | the sum of values within [lo, hi] lies within [lo, hi] times their count |
| Analytics.MeanWithin | script.v2.js:1031-1034 | the mean of values within [lo, hi] lies within [lo, hi] |
| Analytics.MeanPositive | script.v2.js:1031-1034 | the mean of positive values is positive exactly when there is at least one |
| Analytics.AverageEfficiencyPositive | script.v2.js:1031-1034 | `avgEfficiency` is positive exactly when the series has a reading, and 0 otherwise |

## Left out

- IndexedDB and localStorage I/O are not modelled. The stored fuel-type list is the field `stored`, written where the code calls `saveToStorage`. A `JSON.parse` failure in `getFromStorage` is not modelled.
- DOM, modal, animation, theme, swipe detection and chart code is not modelled. The model takes the effect of a click or swipe as a method call. `resetForm` and the drop-down HTML are not modelled.
- Export/import, `js/vehicles.js` and `sw.js` are not modelled: they are file, database, network and cache I/O.
- `confirm()` in the delete handler is the parameter `confirmed`.
- Today's date, which sets the calendar's starting month, is a constructor parameter.
- `parseFloat(...) || 0` and `parseInt(...) || 0` are not modelled. Inputs arrive already parsed, with 0 for an empty or unreadable field. `!x` on such a number is `x == 0`, because NaN cannot occur. The vehicle check `!vehicleId` is therefore `vehicleId == 0`.
- `FuelLogs.Round`: models `toFixed` on exact reals, rounding halves away from zero. It does not model IEEE-754 doubles: the binary representation can make a decimal half round down. The proved property, an error of at most half a unit with the sign kept, holds for both.
- Money, fuel amounts and prices are exact reals, not floating point. Sums do not accumulate rounding error, and division by a positive amount is exact.
- The `date` field is an integer day key, ordered like the `YYYY-MM-DD` string it stands for. `new Date(...)` parsing is not modelled.
- Sorting.InsertionSort: does not state stability. `Array.prototype.sort` is stable, and the model proves only that the result is sorted and a permutation.
- FuelLogs.SortLogs: does not state stability. When two logs share a (date, odometer) key, the stable sort keeps their stored order, and that order decides which amount `LastFill` finds. The model leaves the order of such logs open.
- FuelTypes.FuelTypeEditor.PopulateDropdown: does not state stability. For fuel-type names this loses nothing: the order is antisymmetric, so the sorted list is unique.
- `Text.StrLe`: compares characters by code point. JavaScript's default `sort` compares UTF-16 code units. The two orders differ only between characters above U+FFFF and characters U+E000–U+FFFF.
- The `updateAnalyticsView` vehicle filter and its "not enough data" alert are not modelled: they are presentation. The analytics model takes the filtered list as given.
- The cost-chart filter (script.v2.js:941) is not modelled separately. It keeps the complement of `FuelLogs.IsOdometerOnly`, which `Analytics.FuelRecordsExactly` already characterises.
- Number-to-string conversions, such as the values written into the inputs and `toString().padStart`, are not modelled.
