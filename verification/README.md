# Analytics dashboard core — a Dafny model

This project models the logic core of a drive-thru call analytics dashboard. The dashboard has two halves.

The Express backend:
- filters call and store rows by a brand / owner / franchise / store / channel / engagement-mode filter object (`applyFilters`);
- lists the distinct values offered in each filter drop-down;
- counts the calls that raise each alert flag, plus the "ideal" conversations;
- pages the explore table;
- builds the three-segment hourly comparison series (`parseSegment`, `aggregateByHour`).

The React frontend:
- turns the global filters into URL query parameters;
- holds the filter state and the call-date filter editor;
- decides which organisational levels are active (brand, franchisee, store) and how the current scope is labelled;
- derives the numbers behind the level-comparison widgets: delta chips, gauges, bubbles, matrix cells and stacked bars.

Rows are maps from column names to cells. A cell is a string or a number, and JavaScript truthiness is modelled explicitly. Calls the model cannot see become parameters:
- `JSON.parse` (`JsonParser`);
- `parseFloat` (`parseNum`);
- `parseInt` (`IntParser`);
- `Number(...)` (`toNumber`);
- number-to-string conversion (`show`).

A `Result` error stands for a JavaScript exception: a `substring` call on a numeric timestamp, or `applyFilters` reading a property of a `null` segment. Real numbers stand for JavaScript numbers. Text produced with `toFixed` is modelled as a `Text(prefix, number, suffix)` value, so that the sign, the unit and the magnitude can be read back.

Modules follow the program's files:

| module | models |
|---|---|
| `Rows`, `Filters`, `Wrappers`, `Sequences`, `Ordering`, `Numeric` | shared data types and helpers |
| `ApplyFilters` | `applyFilters` |
| `FilterOptions` | `/api/filters` |
| `AlertCounts` | the counts of `/api/alerts` |
| `Explore` | `/api/explore` |
| `HourlyAggregate`, `Compare`, `AggregateExamples` | `/api/compare` |
| `Levels` | `utils/levels.ts` |
| `FilterParams` | `utils/filterParams.ts` and URLSearchParams |
| `FiltersContext` | `context/FiltersContext.tsx` |
| `CallDateFilterControl` | `components/filters/CallDateFilter.tsx` |
| `Metrics` | `types/metrics.ts`, and the `values` arrays of `components/compare/MatrixRow.tsx` and `components/compare/BubbleTriadCard.tsx` |
| `Format` | the formatting helpers shared by the comparison widgets |
| the remaining modules | one `components/compare` file each |

## Model

| member | source | states |
|---|---|---|
| ApplyFilters.Apply | backend/server.js:66-76 | the result is a subsequence of the input in which every row passes the filter, and every row occurs in it exactly as often as in the input when it passes and not at all otherwise; it is no longer than the input |
| ApplyFilters.Constrains | backend/server.js:68-73 | a filter field narrows the result exactly when it is present, truthy and not "any" (partner: `UnconstrainedKeepsAll`) |
| ApplyFilters.Keeps | backend/server.js:67-75 | the six filter lines in source order, with `franchiseId` matching either of two columns (partner: `KeepsIffAllDimensionsAdmit`) |
| ApplyFilters.KeepsIffAllDimensionsAdmit | backend/server.js:68-73 | a row is kept exactly when every one of the six dimensions admits it |
| ApplyFilters.FranchiseEitherColumn | backend/server.js:70 | a concrete franchise id matches a row through either the `franchise_id` or the `franchisee_id` column, in both directions |
| ApplyFilters.KeepsAgree | backend/server.js:68-73 | two filter objects that agree on the six dimension keys keep the same rows |
| ApplyFilters.OnlyDimensionKeysMatter | backend/server.js:66-76 | filtering depends only on the six dimension keys: extra keys such as a segment's `engagement` change nothing |
| ApplyFilters.SegmentEngagementNeverNarrows | backend/server.js:66-76 | a segment filter that sets only `engagement` keeps every row, because the backend reads `engagementMode` |
| ApplyFilters.UnconstrainedKeepsAll | backend/server.js:68-73 | when no key holds a concrete value (missing, empty or "any"), every row is kept |
| ApplyFilters.EmptyFilterKeepsAll | backend/server.js:66-76 | the empty filter object returns the input unchanged |
| FilterOptions.TruthyValues | backend/server.js:111-116 | the list holds exactly the truthy values of the column, and only truthy ones |
| FilterOptions.OptionList | backend/server.js:111-124 | the list starts with "any"; after it, each truthy column value appears exactly once, in order of first occurrence, as a subsequence of the truthy values |
| FilterOptions.OptionsOfferEveryValueOnce | backend/server.js:108-126 | every drop-down offers each value present in the data exactly once, after "any" |
| AlertCounts.CountRaised | backend/server.js:359-367 | a flag count is at most the number of calls, and it is zero exactly when no call answers "Yes" (its exact value is `CountRaisedExact`) |
| AlertCounts.CountIdeal | backend/server.js:368-372 | the ideal count is at most the number of calls, and it equals the number of calls exactly when every call answers "No" to the three deciding flags (its exact value is `CountIdealExact`) |
| AlertCounts.CountRaisedAppend | backend/server.js:359-367 | the flag count of two tables one after the other is the sum of their counts |
| AlertCounts.CountIdealAppend | backend/server.js:368-372 | the ideal count of two tables one after the other is the sum of their counts |
| AlertCounts.CountRaisedExact | backend/server.js:359-367 | a flag count is exactly the number of row positions whose cell for that flag is the string "Yes" |
| AlertCounts.CountIdealExact | backend/server.js:368-372 | the ideal count is exactly the number of row positions whose three deciding cells are all the string "No" |
| AlertCounts.IdealAndRaisedDisjoint | backend/server.js:358-373 | for each of the three deciding flags, the ideal count plus that flag's count never exceeds the number of calls |
| AlertCounts.CountKeyListed | backend/server.js:358-373 | every count key is among the ten keys of the response |
| AlertCounts.CountOf | backend/server.js:358-373 | the count under a flag key is zero exactly when no call answers "Yes" to that flag; the ideal count equals the number of calls exactly when every call is ideal; neither exceeds the number of calls; a flag count is exactly the number of calls answering "Yes", and the ideal count exactly the number of ideal calls |
| AlertCounts.Counts | backend/server.js:358-373 | the response has an entry for each of the ten count keys, and each entry is that key's count, at most the number of calls |
| Explore.SliceIndex | backend/server.js:407 | the `Array.prototype.slice` index rule: NaN counts as 0, a negative index counts from the end, an index in range is kept, an index past the end clamps to the length, one before the negated length clamps to 0, and the result lies within 0..length |
| Explore.Slice | backend/server.js:407 | slicing yields a contiguous segment of the rows: empty when the clamped end is not after the clamped start, and otherwise the rows from the clamped start, as many as the two clamped indices are apart |
| Explore.SliceIndexMonotone | backend/server.js:407 | of two indices with the same sign, the larger never clamps before the smaller (across signs it can: -1 lands after 0) |
| Explore.ReversedBoundsEmpty | backend/server.js:407 | bounds of the same sign given in reverse order select no rows |
| Explore.NegativePageSize | backend/server.js:403-407 | a negative page size s gives an empty page on every page but page 1, and page 1 is all rows but the last -s, because its end s counts from the end |
| Explore.PageSlice | backend/server.js:403-407 | a page holds at most `pageSize` rows whenever `pageSize` is non-negative |
| Explore.PageBounds | backend/server.js:403-407 | for page p ≥ 1 and a size s ≥ 0, the page is the rows from (p-1)·s to p·s, cut at the end of the data |
| Explore.ExplorePage | backend/server.js:399-416 | `total` is the number of rows, a page never exceeds `pageSize`, and with no parameters the response is the first 50 rows |
| Explore.QueryInt | backend/server.js:401-402 | a missing `page` or `pageSize` takes its numeric default; a present one is what `parseInt` reads from it |
| Explore.ConsecutivePagesTile | backend/server.js:403-407 | page p followed by page p+1 is the slice from (p-1)·s to (p+1)·s |
| Explore.FirstPagesArePrefix | backend/server.js:403-407 | the first k pages, read in order, are the prefix of the data of length min(k·s, total) |
| Explore.NegativePageCountsFromEnd | backend/server.js:403-407 | with 100 rows, page -1 of size 50 returns the first 50 rows, because the negative start counts from the end |
| HourlyAggregate.Substring | backend/server.js:446 | `String.prototype.substring` clamps both bounds to the length and swaps them when reversed, so a string shorter than the start gives "" and a short one gives what is left |
| HourlyAggregate.HourKey | backend/server.js:446 | a missing or falsy timestamp gives "00"; a truthy numeric one throws, and only it; a non-empty string gives its characters from 11 up to 13, clamped to its length, so the key has at most two characters |
| HourlyAggregate.MetricValue | backend/server.js:449 | a missing metric cell or one `parseFloat` cannot read counts as 0; otherwise the value is the parsed number |
| HourlyAggregate.Entries | backend/server.js:444-450 | the walk over the rows fails exactly when some row's hour key throws, and then with the error of the first such row; otherwise it gives one entry per row carrying that row's key and metric value |
| HourlyAggregate.TallyBuckets | backend/server.js:444-450 | after tallying, a key has a bucket exactly when it had one before or some entry carries it, and the bucket adds that key's sum and count to what it held |
| HourlyAggregate.CountForPositive | backend/server.js:449 | a key that occurs among the entries has a positive count |
| HourlyAggregate.AddEntry | backend/server.js:447-449 | one step of the walk: the entry's bucket is created if missing and gets its value added to the sum and one added to the count; every other bucket is unchanged |
| HourlyAggregate.Tally | backend/server.js:444-450 | the `hourly` object after the walk (partner: `TallyBuckets` states each bucket against the reference sum and count) |
| HourlyAggregate.AppendEntry | backend/server.js:448-449 | one more entry adds its value to its own key's sum and one to its count, and leaves the other keys alone |
| HourlyAggregate.PadStart | backend/server.js:452 | `padStart` reaches the requested width, keeps the string as its suffix, and fills the front with the pad character |
| HourlyAggregate.Label | backend/server.js:452 | a key of two or more characters is labelled key + ":00"; a one-character key is padded with "0"; the empty key is labelled "00:00" |
| HourlyAggregate.SortedKeys | backend/server.js:451 | the bucket keys are strictly sorted, and a key is listed exactly when some entry carries it |
| HourlyAggregate.PointsOf | backend/server.js:451-454 | there is one point per sorted key, and its y is that key's sum divided by its count |
| HourlyAggregate.BucketOfKey | backend/server.js:451-454 | every key that occurs has a bucket, and that bucket's point is the mean of the key's values |
| HourlyAggregate.AggregateByHour | backend/server.js:443-455 | the series fails exactly when some row's hour key throws, and its error is the error of such a row; otherwise it is the points of the rows' entries, no more points than rows |
| HourlyAggregate.LabelsAscendWhenKeysHaveTwoChars | backend/server.js:451-452 | when all keys have two characters, the point labels are strictly ascending |
| HourlyAggregate.ZeroEntryLowersMean | backend/server.js:448-453 | a row whose metric does not parse counts as 0: it adds one to its hour's count, leaves the sum alone, and so never raises that hour's mean |
| Ordering.LexIrreflexive | backend/server.js:451 | the string order used by `sort()` is irreflexive |
| Ordering.LexTransitive | backend/server.js:451 | the string order used by `sort()` is transitive |
| Ordering.LexTotal | backend/server.js:451 | any two different strings are ordered one way or the other |
| Ordering.SortDistinct | backend/server.js:451 | sorting distinct keys gives a strictly sorted permutation of them |
| Ordering.StrictlySortedUnique | backend/server.js:451 | two strictly sorted lists with the same members are equal, so the sorted key order is unique |
| AggregateExamples.ThreeCallExample | backend/server.js:443-455 | two calls at 08h with 10 and 20 sessions and one at 09h with 5 give the points 08:00 → 15 and 09:00 → 5 |
| AggregateExamples.ShortDatetimeLabelClash | backend/server.js:446-452 | a timestamp cut after one hour digit and a full timestamp in the same hour give two separate points, both labelled "08:00" |
| Compare.ParseSegment | backend/server.js:424-431 | a missing, empty, "{}" or unparsable segment gives the empty filter object; otherwise it gives what `JSON.parse` returned, `null` included |
| Compare.SegmentRows | backend/server.js:66-76 | `applyFilters` on a parsed segment: an object filters the rows; `null` throws exactly when there is at least one row, and gives no rows otherwise |
| Compare.UnusableSegmentKeepsAll | backend/server.js:424-440 | a missing, empty, "{}" or unparsable segment keeps every row in order |
| Compare.MetricKey | backend/server.js:420 | the metric column read is the `metric` query value, or the property "undefined" when it is missing |
| Compare.HourlySeries | backend/server.js:443-459 | the aggregate of a segment's rows, with its exception carried as the 500 reason |
| Compare.SegmentSeries | backend/server.js:433-459 | a segment's series succeeds exactly when its rows can be filtered and their hour keys taken, and is then the hourly aggregate of those rows |
| Compare.CompareSegments | backend/server.js:418-470 | the response succeeds exactly when all three series succeed; a `null` segment over a non-empty table is the error answered; on success there are three series labelled Segment A, B and C, each aggregating the rows its own segment keeps; when no segment is `null` over rows, a failure is the error of the first failing series, in the order A, B, C |
| Compare.NullSegmentFails | backend/server.js:424-440 | a segment of "null" makes the request fail as soon as there is one row, and gives an empty series over no rows |
| Compare.SegmentsIndependent | backend/server.js:433-459 | segment A's series does not depend on segments B and C |
| Compare.UnusableSegmentsGiveSameSeries | backend/server.js:424-459 | when no segment parses to a usable filter, all three series equal the hourly aggregate of all rows |
| Levels.ScopeOf | frontend/src/utils/levels.ts:26-37 | the scope is Store exactly when the store level is active, Franchise exactly when franchisee is active without store, and Brand otherwise |
| Levels.GetActiveLevels | frontend/src/utils/levels.ts:8-24 | the levels are a non-empty prefix of brand, franchisee, store; store is active exactly when a store is selected; franchisee exactly when a store or a franchise is selected |
| Levels.ActiveLevelsCases | frontend/src/utils/levels.ts:8-24 | the three exact outcomes: all three levels, brand and franchisee, or brand alone |
| Levels.ActiveLevelsDependOnlyOnStoreAndFranchise | frontend/src/utils/levels.ts:8-24 | two filters with the same store and franchise selection have the same active levels |
| Levels.ActiveLevelsPrefixOfScope | frontend/src/utils/levels.ts:8-37 | the active levels are exactly the levels up to and including the scope's own |
| Levels.GetScopeLabel | frontend/src/utils/levels.ts:26-37 | the sentence is the store one ("Store vs Franchise vs Brand comparisons for the selected store.") exactly when the store tier is active, the franchise one ("Franchise vs Brand view. …") exactly when the franchisee tier is active and the store tier is not, and the brand one ("Brand-level view. …") exactly when neither is |
| Levels.ScopeLabelDeterminesScope | frontend/src/utils/levels.ts:26-37 | two level lists with the same label have the same scope |
| Levels.ScopeLabelsOfFiltersDistinct | frontend/src/utils/levels.ts:8-37 | two filters get the same scope label exactly when they get the same active levels |
| Metrics.ActiveTiers | frontend/src/components/compare/MatrixRow.tsx:10-13 | a tier is listed exactly when its level is active, in brand, franchisee, store order |
| Metrics.ActiveValues | frontend/src/components/compare/BubbleTriadCard.tsx:63-66 | one value per active tier, read from the metric's field for that tier, in brand, franchisee, store order (the `values` array that `MatrixRow` builds the same way) |
| Metrics.ActiveTiersOfPrefix | frontend/src/utils/levels.ts:8-24 | for the level lists `getActiveLevels` can return, the active tiers are the levels themselves |
| Format.FormatValue | frontend/src/components/compare/DeltaChipRow.tsx:80-89 | "%" gives a "%" suffix at one decimal, "$" a "$" prefix at two, "mins" an "m" suffix at one, and anything else a bare number at one decimal |
| Format.FormatDelta | frontend/src/components/compare/TripleGaugeCompare.tsx:47-57 | a percentage difference is written in "pp"; every other unit is written as its value |
| Format.FormatLongValue | frontend/src/components/compare/StackedSegmentBar.tsx:37-46 | "mins" is written " mins", and any other non-empty unit is appended after a space |
| Format.FormatValueIdentifiesClass | frontend/src/components/compare/DeltaChipRow.tsx:80-89 | the formatted text determines the unit class it was written for |
| Format.SignDelta | frontend/src/components/compare/DeltaChipRow.tsx:10-26 | the sign is "+" exactly when the delta is non-negative, and the magnitude is non-negative |
| Format.SignDeltaRoundTrip | frontend/src/components/compare/DeltaChipRow.tsx:10-26 | reading the sign and the magnitude back recovers the delta |
| Format.SignMatchesArrow | frontend/src/components/compare/TripleGaugeCompare.tsx:104-114 | the up arrow goes with the "+" sign and the down arrow with "−" |
| LevelScopeHint.Hint | frontend/src/components/compare/LevelScopeHint.tsx:8-25 | no hint at store scope; the franchise hint exactly at franchise scope; the brand-only hint exactly at brand scope |
| LevelScopeHint.HintAbsentIffStoreSelected | frontend/src/components/compare/LevelScopeHint.tsx:8-25 | the hint is absent exactly when a store is selected |
| LevelScopeHint.HintFollowsScope | frontend/src/components/compare/LevelScopeHint.tsx:8-25 | two level lists give the same hint exactly when they have the same scope |
| DeltaChipRow.DeltaChip | frontend/src/components/compare/DeltaChipRow.tsx:9-26 | a chip shows "+" exactly for a non-negative delta, its magnitude is the absolute delta formatted as a delta ("pp" for "%"), and it reads back as the delta |
| DeltaChipRow.Row | frontend/src/components/compare/DeltaChipRow.tsx:46-128 | the primary value and label are the scope's own tier; a secondary appears exactly for each active level below brand; a "vs Brand" chip appears exactly away from brand scope and a "vs Franchise" chip exactly at store scope, each reading back as the difference |
| DeltaChipRow.ChipsCompareWithEveryBroaderTier | frontend/src/components/compare/DeltaChipRow.tsx:46-128 | the row has one chip per broader active level, and its primary value is the narrowest active tier's value |
| DeltaChipList.Title | frontend/src/components/compare/DeltaChipList.tsx:17-21 | the title names the scope: store, franchise or brand |
| DeltaChipList.ChipList | frontend/src/components/compare/DeltaChipList.tsx:12-38 | nothing is rendered exactly when the metric list is missing or empty; otherwise the list carries the scope hint, title and label, and one row per metric in order |
| DeltaChipList.TitleMatchesSubtitle | frontend/src/components/compare/DeltaChipList.tsx:17-31 | two level lists have the same title exactly when they have the same subtitle |
| TripleGaugeCompare.FullScale | frontend/src/components/compare/TripleGaugeCompare.tsx:25 | the full scale is 50 for "$", 10 for "mins" and 100 otherwise, always positive |
| TripleGaugeCompare.Normalize | frontend/src/components/compare/TripleGaugeCompare.tsx:19-27 | the fill never exceeds 100; a percentage is clamped: below 0 it is 0, above 100 it is 100, in between the value itself; any other value below full scale is its share of full scale, and at or above it the fill is 100 |
| TripleGaugeCompare.NormalizeMonotone | frontend/src/components/compare/TripleGaugeCompare.tsx:19-27 | a larger value never gets a smaller fill |
| TripleGaugeCompare.NormalizeNotClampedBelow | frontend/src/components/compare/TripleGaugeCompare.tsx:22-26 | a negative dollar value gives a negative fill: only the upper end is clamped for units other than "%" |
| TripleGaugeCompare.GaugeFor | frontend/src/components/compare/TripleGaugeCompare.tsx:120-171 | one tier's gauge carries that tier's title, value, fill and value text; brand is the baseline, and every other tier's badge is its signed difference to brand |
| TripleGaugeCompare.Compare | frontend/src/components/compare/TripleGaugeCompare.tsx:120-171 | one gauge per active tier in order, with that tier's value, fill, title and value text; compact exactly when all three are shown; the baseline badge exactly on brand; every other badge reads back as value minus brand, and its magnitude is the absolute difference formatted as a delta |
| TripleGaugeCompare.BrandGaugeFirstAndCompactWithStore | frontend/src/components/compare/TripleGaugeCompare.tsx:120-171 | the brand gauge is always first, and the gauges are compact exactly when a store is selected |
| TripleGaugeCompare.ArrowUpIffAtLeastBrand | frontend/src/components/compare/TripleGaugeCompare.tsx:104-114 | a non-baseline gauge shows the up arrow exactly when its value is at least the brand value |
| BubbleTriadCard.SizeBounds | frontend/src/components/compare/BubbleTriadCard.tsx:68-76 | a size lies in 48..80, is 48 exactly at the lowest value, and is 80 at the highest when the values differ |
| BubbleTriadCard.SizeMonotone | frontend/src/components/compare/BubbleTriadCard.tsx:68-76 | a larger value never gets a smaller bubble |
| BubbleTriadCard.Lowest | frontend/src/components/compare/BubbleTriadCard.tsx:68 | the lowest active value is one of the values and at most each of them; 0 when there are none |
| BubbleTriadCard.Highest | frontend/src/components/compare/BubbleTriadCard.tsx:69 | the highest active value is one of the values and at least each of them; 1 when there are none |
| BubbleTriadCard.Spread | frontend/src/components/compare/BubbleTriadCard.tsx:70 | the range is never zero: it is max − min when they differ and 1 otherwise, positive whenever min ≤ max |
| BubbleTriadCard.Size | frontend/src/components/compare/BubbleTriadCard.tsx:72-76 | the lowest value always gets 48; with distinct extremes the size is 48 plus 32 times the value's fraction of the way from lowest to highest; with equal extremes the range falls back to 1 |
| BubbleTriadCard.Positions | frontend/src/components/compare/BubbleTriadCard.tsx:100-124 | every bubble centre lies inside the card (0..100 on both axes); brand keeps its default place when it is not active |
| BubbleTriadCard.CardFor | frontend/src/components/compare/BubbleTriadCard.tsx:56-124 | an inactive tier has size 0, each pair difference is present exactly when both of its tiers are active, and the layout is `Positions` of the active levels |
| BubbleTriadCard.PositionsDistinct | frontend/src/components/compare/BubbleTriadCard.tsx:102-124 | the bubbles of a layout never share a position |
| BubbleTriadCard.PositionsOfActiveLevels | frontend/src/components/compare/BubbleTriadCard.tsx:102-124 | the layout has one position per active level, with the coordinates the card uses for one, two and three bubbles |
| BubbleTriadCard.ActiveValueBetweenExtremes | frontend/src/components/compare/BubbleTriadCard.tsx:63-69 | every active value lies between the minimum and the maximum of the active values |
| BubbleTriadCard.Sizes | frontend/src/components/compare/BubbleTriadCard.tsx:63-80 | an inactive tier has size 0; an active one lies in 48..80, is 48 exactly at the lowest active value, and is 80 at the highest when the values differ |
| BubbleTriadCard.EqualValuesGiveSmallestBubbles | frontend/src/components/compare/BubbleTriadCard.tsx:68-80 | when all active values are equal, every active bubble has the smallest size |
| BubbleTriadCard.SizesFollowValues | frontend/src/components/compare/BubbleTriadCard.tsx:68-80 | between two active tiers, the larger value never gets the smaller bubble |
| BubbleTriadCard.PairDeltas | frontend/src/components/compare/BubbleTriadCard.tsx:83-98 | a pair difference is shown exactly when both tiers are active, it reads back as the narrower value minus the broader one, and its magnitude is the absolute difference formatted as a delta |
| MatrixCell.BarWidth | frontend/src/components/compare/MatrixCell.tsx:22-34 | a percentage bar is the value clamped: 0 below 0, 100 above 100, the value in between; equal row extremes give 50; otherwise the width is 20 + 80·(v − min)/(max − min), 20 at the minimum and 100 at the maximum |
| MatrixCell.BarWidthWithinBounds | frontend/src/components/compare/MatrixCell.tsx:30-32 | a non-percentage value between the row's distinct extremes gets a width between 20 and 100 |
| MatrixCell.BarWidthMonotone | frontend/src/components/compare/MatrixCell.tsx:22-34 | a larger value never gets a narrower bar |
| MatrixCell.Cell | frontend/src/components/compare/MatrixCell.tsx:22-46 | a cell is marked as the maximum exactly when its value equals the row maximum, and its text is the formatted value |
| MatrixRow.RowMin | frontend/src/components/compare/MatrixRow.tsx:15 | the row minimum is one of the values and at most each of them; it is 0 for no values |
| MatrixRow.RowMax | frontend/src/components/compare/MatrixRow.tsx:16 | the row maximum is one of the values and at least each of them; it is 0 for no values |
| MatrixRow.RowMinAtMostRowMax | frontend/src/components/compare/MatrixRow.tsx:15-16 | the row minimum never exceeds the row maximum |
| MatrixRow.Row | frontend/src/components/compare/MatrixRow.tsx:9-58 | one column per active level, each cell built from its tier's value and the row's extremes |
| MatrixRow.SomeCellIsMax | frontend/src/components/compare/MatrixRow.tsx:29-58 | some cell of every row is marked as the maximum |
| MatrixRow.BarsWithinRange | frontend/src/components/compare/MatrixRow.tsx:29-58 | for units other than "%", every bar width lies in 20..100 |
| StackedSegmentBar.FallbackMax | frontend/src/components/compare/StackedSegmentBar.tsx:23 | the fallback scale is the larger of 1.2 times the value and 100, so at least 100 |
| StackedSegmentBar.WidthPct | frontend/src/components/compare/StackedSegmentBar.tsx:14-26 | the width never exceeds 100 and is non-negative for non-negative values; a percentage is clamped: 0 below 0, 100 above 100, the value in between; against a positive maximum, a value up to it is its share and a larger value fills 100 |
| StackedSegmentBar.FallbackWidths | frontend/src/components/compare/StackedSegmentBar.tsx:18-24 | for a non-percentage unit whose maximum is absent, zero or negative, a value of at most 100/1.2, negative values included, is drawn at its own width, and a larger one at 250/3 percent |
| StackedSegmentBar.BarFor | frontend/src/components/compare/StackedSegmentBar.tsx:11-46 | the bar's text is the value written with the long unit form |
| MetricSegmentRow.MaxValue | frontend/src/components/compare/MetricSegmentRow.tsx:10 | the maximum is one of the three tier values and at least each of them |
| MetricSegmentRow.Bars | frontend/src/components/compare/MetricSegmentRow.tsx:18-38 | three bars in brand, franchisee, store order, each scaled against the row maximum |
| MetricSegmentRow.LargestTierFillsBar | frontend/src/components/compare/MetricSegmentRow.tsx:10-38 | some bar is full, and every bar is its value's share of the maximum |
| MetricSegmentRow.NonPositiveMaxBars | frontend/src/components/compare/MetricSegmentRow.tsx:10-38 | when no tier value is positive, the row maximum is not a usable scale, and every bar's width is its own value |
| FilterParams.Get | frontend/src/utils/filterParams.ts:3-45 | URLSearchParams `get` is absent exactly when the key was never set |
| FilterParams.Set | frontend/src/utils/filterParams.ts:3-45 | setting a new key appends it to the parameters |
| FilterParams.SetThenGet | frontend/src/utils/filterParams.ts:3-45 | after setting a key, reading it gives the new value and every other key reads as before |
| FilterParams.Selected | frontend/src/utils/filterParams.ts:7-24 | a field is sent exactly when it holds a concrete value, and never as "any" or "" |
| FilterParams.BuildQueryFromFilters | frontend/src/utils/filterParams.ts:3-45 | the query holds exactly the present candidates, and its keys follow the fixed key order |
| FilterParams.DimensionParams | frontend/src/utils/filterParams.ts:7-24 | each dimension's parameter is present exactly when the field is concrete, with the field's value, and never "any" |
| FilterParams.CallDateParams | frontend/src/utils/filterParams.ts:27-42 | the operator is always sent; each date is sent exactly when it is non-empty, and the quantity and the unit exactly when they are set |
| FilterParams.QueryKeysOnceEach | frontend/src/utils/filterParams.ts:3-45 | no parameter key appears twice in a query |
| FilterParams.ServerNarrowsByConcreteDimensions | frontend/src/utils/filterParams.ts:7-24 | the backend filter built from the query constrains a dimension exactly when the frontend field is concrete, and with that field's value |
| FiltersContext.UpdateFilter | frontend/src/context/FiltersContext.tsx:27-29 | the updated field takes the new value, and every other field, the call date included, is unchanged |
| FiltersContext.FieldsDetermineFilter | frontend/src/context/FiltersContext.tsx:13-29 | two filters that agree on every field and the call date are equal |
| FiltersContext.UpdatesCompose | frontend/src/context/FiltersContext.tsx:27-29 | two updates of the same field equal the later update alone; updates of different fields commute |
| FiltersContext.UpdateWithSameValue | frontend/src/context/FiltersContext.tsx:27-29 | writing a field's current value changes nothing |
| FiltersContext.InitialState | frontend/src/context/FiltersContext.tsx:13-25 | the initial filters leave every dimension but the store at "any", select a concrete store, and set no call-date bounds |
| FiltersContext.InitialLevelsAreAllThree | frontend/src/context/FiltersContext.tsx:13-25 | with the initial filters, all three levels are active |
| CallDateFilterControl.OperatorOptionsComplete | frontend/src/components/filters/CallDateFilter.tsx:9-22 | twelve operator options, no operator twice, and every operator offered |
| CallDateFilterControl.OperatorLabelsSpellNames | frontend/src/components/filters/CallDateFilter.tsx:9-22 | each option's label with spaces made underscores is the operator's value |
| CallDateFilterControl.ShowRange | frontend/src/components/filters/CallDateFilter.tsx:64 | the range inputs show for "is in range" only (partner: `ModesPartitionOperators`) |
| CallDateFilterControl.ShowSingleDate | frontend/src/components/filters/CallDateFilter.tsx:65-70 | the single date input shows for the five single-day comparisons (partner: `ModesPartitionOperators`) |
| CallDateFilterControl.ShowRelative | frontend/src/components/filters/CallDateFilter.tsx:71-72 | the quantity and unit inputs show for the three relative operators (partner: `ModesPartitionOperators`) |
| CallDateFilterControl.ShowNothingElse | frontend/src/components/filters/CallDateFilter.tsx:73-74 | no input shows for "is any time", "is null" and "is not null" (partner: `ModesPartitionOperators`) |
| CallDateFilterControl.ModesPartitionOperators | frontend/src/components/filters/CallDateFilter.tsx:62-74 | every operator shows exactly one of the range, single-date, relative or no-input controls |
| CallDateFilterControl.OnOperatorChange | frontend/src/components/filters/CallDateFilter.tsx:32-43 | a new operator clears both dates; quantity 1 and unit days are set exactly for the relative operators |
| CallDateFilterControl.OperatorChangeKeepsOnlyRelevantFields | frontend/src/components/filters/CallDateFilter.tsx:32-43 | after an operator change, quantity and unit hold values exactly for the relative operators, and an operator without inputs keeps nothing but itself |
| CallDateFilterControl.OnFromChange | frontend/src/components/filters/CallDateFilter.tsx:45-47 | editing the from date changes only that field |
| CallDateFilterControl.OnToChange | frontend/src/components/filters/CallDateFilter.tsx:49-51 | editing the to date changes only that field |
| CallDateFilterControl.OnQuantityChange | frontend/src/components/filters/CallDateFilter.tsx:53-56 | an empty input clears the quantity, any other input sets its numeric value, and nothing else changes |
| CallDateFilterControl.OnUnitChange | frontend/src/components/filters/CallDateFilter.tsx:58-60 | choosing a unit changes only the unit |
| CallDateFilterControl.FieldEditsKeepMode | frontend/src/components/filters/CallDateFilter.tsx:45-74 | editing a date, quantity or unit never changes which controls are shown |
| CallDateFilterControl.FieldEditsCompose | frontend/src/components/filters/CallDateFilter.tsx:45-60 | two edits of the same field equal the later edit alone, and edits of different fields commute |

## Left out

- CSV reading, HTTP routing, authentication, sessions and static file serving are not modelled. The handlers start from rows already read.
- The `/api/overview` handler is not modelled. It is the only other handler that calls `applyFilters` (backend/server.js:140), on its store table. Its hourly pivot is multiplied by a demo factor derived from the brand filter (backend/server.js:142-155). What remains is presentation data.
- The `/api/journey-policy`, `/api/sales-upsell` and `/api/friendliness` handlers are not modelled. They never read the query filters. Each pivots its unfiltered hourly CSV into per-column series with `parseFloat(row[key]) || 0` (backend/server.js:207-218, 255-269 and 300-312), and returns the other CSVs as read.
- Two parts of `/api/alerts` are not modelled, because each is a `parseFloat(...) || 0` map over a CSV: the hourly `timeSeries` pivot (backend/server.js:346-352) and the levels comparison rows. Only its counts are modelled.
- The digits of `toFixed`, IEEE floating point rounding, NaN and infinities are not modelled. Numbers are reals, and formatted text is kept as sign, prefix, number and suffix.
- `parseInt`, `parseFloat`, `Number`, `String` and `JSON.parse` are parameters. Their own behaviour is not modelled.
- Cell values other than strings and numbers are not modelled, and neither are JSON values other than strings and numbers inside a parsed segment object: arrays, nested objects, booleans, null. A segment whose whole value is `null` is modelled; a whole value that is a number, a string, an array or a boolean is taken as the empty object, since it has none of the six filter properties.
- Array-valued query parameters are not modelled. Each query key holds at most one string.
- JavaScript strings are sequences of UTF-16 code units; the model's strings are sequences of characters. So `substring` (`HourlyAggregate.Substring`), `padStart` (`HourlyAggregate.PadStart`) and the ordering of keys count characters where JavaScript counts code units. The two agree on the ASCII text of timestamps and hour keys; they differ only for characters outside the Basic Multilingual Plane.
- `updateFilter` with the `callDate` key is not modelled, because it replaces the whole call-date object. Only the dimension fields are updated through it.
- Colours, CSS classes, SVG geometry other than bubble positions, and React rendering and state hooks are not modelled.
- The pages, narrative panels and `UpsellCategoryTabs` are not modelled. They arrange the modelled widgets without logic of their own.
- The call-date field of the backend filter is not modelled. `applyFilters` never reads it.
- TripleGaugeCompare.Normalize: the lower end is not clamped for units other than "%". A negative dollar or minute value gives a negative fill, exactly as the component computes it; `NormalizeNotClampedBelow` shows one such value.
