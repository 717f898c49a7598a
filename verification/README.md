# Time-series alignment and aggregation engine — Dafny model

This project models the computational core of a web app that shows asset
prices denominated in Bitcoin. The core takes independently dated price
series, each point optionally carrying a 25th/75th percentile forecast
band, and:

- **Basket** (`BasketBuilder.tsx`): edits a basket of at most five weighted
  assets (add with validation, remove by name, update a weight, total
  weight); intersects the members' dates, sorts them, and builds a weighted
  composite series (`price * weight/100` summed, with bands summed over the
  members that carry them).
- **Comparison** (`ComparisonChart.tsx`): cuts each series to an inclusive
  date window, normalises it by its first in-window price, and merges all
  series into one date-keyed table sorted by date, with no zero-fill.
- **Forecast split** (`AssetChart.tsx`): splits a series into a historical
  prefix and a forecast suffix at the first point carrying both bounds.
- **Insights** (`InsightsPanel.tsx`): start, end and selected point, and the
  percentage change.
- **Selection** (`MultiAssetComparison.tsx`): toggling asset ids in a
  comparison selection capped at five, and clearing it.

Everything is a pure function over immutable values. Files and modules:

| file | module | contents |
|---|---|---|
| wrappers.dfy | `Wrappers` | `Option`, `Result` |
| dates.dfy | `Dates` | lexical string order `Before` (a strict total order), sort-and-deduplicate |
| numeric.dfy | `Numeric` | the value of a JavaScript division on finite operands (`Finite`, `PosInfinity`, `NegInfinity`, `NaN`), truthiness, `>= 0` |
| series.dfy | `Series` | `Point` (`AssetData`), `find`/`findIndex` by date |
| basket.dfy | `Basket` | basket editing and the weighted composite |
| comparison.dfy | `Comparison` | range filter, normaliser, union merge |
| forecast.dfy | `Forecast` | historical/forecast split |
| insights.dfy | `Insights` | insights panel figures |
| selection.dfy | `Selection` | comparison selection toggle |

Modelling choices:

- Prices are `real`. A division by a zero price yields a non-finite
  `Quotient` rather than being excluded by a precondition. This makes two
  later tests exact: the `normalized || price` fallback (NaN is falsy,
  infinities are truthy) and `percentChange >= 0` (false for NaN and for
  negative infinity). The zero divisor is taken to be positive zero.
- Dates are `string`s compared with `Dates.Before`, a character-by-character
  lexical order. It stands for JavaScript's default `sort()`, for `>=`/`<=`
  on strings and for `localeCompare`. All three agree on `YYYY-MM-DD`
  strings.
- The parsed weight inputs are `Option<real>`. For `addAsset`, `None` is the
  empty field. For `updateWeight`, `None` is input that parses to NaN.
- The loader is a parameter. `fetched: map<string, seq<Point>>` holds the
  already-parsed series of each catalogue id. An id outside the catalogue
  (`gold`, `sp500`, `oil`, `cpi`, `us100`) gets no data, as at
  src/components/BasketBuilder.tsx:81-82.
- The merge is modelled as the source's writes into a `Map` (date → asset
  id → cell), done in `forEach` order. `Comparison.LastCell` is an
  independent "last write wins" definition, and the table is proved equal
  to it.
- `reduce` without an initial value throws on an empty array. That throw is
  caught and the basket gets no data. `Basket.CommonDates` of no members is
  therefore the empty list. The caller never reaches this case anyway,
  because of the early return at src/components/BasketBuilder.tsx:71-73.
- The code assumes neither sorted nor date-unique series, so the composite
  takes the first entry of each date (`find`). Bands are scaled by
  weight/100, as the price is.

## Model

| member | source | states |
|---|---|---|
| Dates.BeforeIrreflexive | src/components/BasketBuilder.tsx:149 | no date string sorts before itself |
| Dates.BeforeTransitive | src/components/BasketBuilder.tsx:149 | the lexical date order is transitive |
| Dates.BeforeTotal | src/components/BasketBuilder.tsx:149 | any two different date strings are ordered one way or the other |
| Dates.InsertAscending | src/components/BasketBuilder.tsx:144-149 | inserting a date into a sorted, duplicate-free list keeps it sorted and duplicate-free |
| Dates.SortDistinct | src/components/BasketBuilder.tsx:144-149 | `Array.from(new Set(xs)).sort()` holds exactly the elements of xs, strictly ascending, and is no longer than xs |
| Dates.AscendingUnique | src/components/ComparisonChart.tsx:65 | two strictly ascending lists with the same elements are equal, so a sorted date set has one form |
| Dates.SortDistinctOfAscending | src/components/BasketBuilder.tsx:144-149 | sorting a list that is already strictly ascending returns it unchanged |
| Numeric.Divide | src/components/ComparisonChart.tsx:40 | a / b is finite iff b is non-zero, and then times b gives back a; 0/0 is NaN and x/0 is an infinity of x's sign |
| Series.FindIndexOfDate | src/components/InsightsPanel.tsx:21 | the position `find` by date stops at: absent iff no point has the date, and otherwise the first such position |
| Series.FindDate | src/components/BasketBuilder.tsx:159 | `find` by date is absent iff no point has the date, and otherwise is the first point with that date |
| Basket.TotalWeightAppend | src/components/BasketBuilder.tsx:28 | the total weight of two concatenated baskets is the sum of their totals |
| Basket.AddAsset | src/components/BasketBuilder.tsx:30-51 | an add succeeds iff the asset is non-empty, the weight is given and positive, the name is new and fewer than 5 are held; on success it appends exactly one entry; each refusal reason is reported in the source's check order |
| Basket.BasketAfterAdd | src/components/BasketBuilder.tsx:30-52 | after an add attempt the basket is unchanged or has exactly one entry appended for that asset |
| Basket.AddKeepsValid | src/components/BasketBuilder.tsx:41-51 | adding keeps at most 5 members, unique names and non-negative weights |
| Basket.AddTotalWeight | src/components/BasketBuilder.tsx:28-51 | a successful add raises the total weight by exactly the new weight |
| Basket.RemoveAsset | src/components/BasketBuilder.tsx:57-59 | removal keeps exactly the entries with a different name, and the name is gone afterwards |
| Basket.RemoveAssetAppend | src/components/BasketBuilder.tsx:57-59 | removal distributes over concatenation, so the kept entries stay in order |
| Basket.RemoveAbsentAsset | src/components/BasketBuilder.tsx:57-59 | removing a name not in the basket changes nothing |
| Basket.RemoveKeepsValid | src/components/BasketBuilder.tsx:57-59 | removal keeps the basket invariant |
| Basket.RemoveTotalWeight | src/components/BasketBuilder.tsx:57-59 | with unique names, removing a member lowers the total by exactly its weight |
| Basket.UpdateWeight | src/components/BasketBuilder.tsx:61-68 | unparseable or negative input leaves the basket unchanged; otherwise only entries with that name change, and they get the new weight |
| Basket.UpdateKeepsValid | src/components/BasketBuilder.tsx:61-68 | updating a weight keeps the basket invariant |
| Basket.UpdateTotalWeight | src/components/BasketBuilder.tsx:61-68 | with unique names, updating a member's weight changes the total by new minus old |
| Basket.KeepDatesIn | src/components/BasketBuilder.tsx:146 | the accumulated dates are narrowed to exactly those the next member also has |
| Basket.Intersection | src/components/BasketBuilder.tsx:143-148 | the reduced date set holds exactly the dates present in every member |
| Basket.CommonDates | src/components/BasketBuilder.tsx:143-149 | the common-date list is strictly ascending and holds exactly the dates present in every member; no members means no dates |
| Basket.AccumulateAppend | src/components/BasketBuilder.tsx:158-170 | the totals over a concatenated member list are the sum of the parts' totals, so member order does not matter |
| Basket.AccumulateIsWeightedSum | src/components/BasketBuilder.tsx:153-170 | the running totals equal the independent sums over members of price*weight/100 and band*weight/100, and the band flag is set iff some entry carries both bounds |
| Basket.CompositePoint | src/components/BasketBuilder.tsx:153-182 | a composite point has the given date and the weighted price; it has p25 and p75 iff some member's entry has both, and then they are the weighted band sums |
| Basket.Composite | src/components/BasketBuilder.tsx:152-183 | the composite has one point per date, in order, with that date, the weighted price, and bands exactly as above |
| Basket.BasketSeries | src/components/BasketBuilder.tsx:70-185 | an empty basket gives no points; otherwise the dates are strictly ascending and are exactly the dates held by every member, each point has the weighted price, has p25 and p75 iff some member's entry carries both, and then they are the weighted band sums |
| Basket.MemberWithoutDataEmptiesSeries | src/components/BasketBuilder.tsx:80-82 | a member without data, such as an unknown asset id, makes the basket series empty |
| Basket.SingleMemberAtFullWeight | src/components/BasketBuilder.tsx:158-180 | a single member at weight 100 reproduces its entry's price, and its bounds where it carries both |
| Basket.SingleAssetBasketIsIdentity | src/components/BasketBuilder.tsx:143-183 | a one-asset basket at weight 100 over a date-sorted series with paired bounds is that series exactly |
| Comparison.FilterRange | src/components/ComparisonChart.tsx:32 | the filter keeps exactly the points with start <= date <= end |
| Comparison.FilterRangeAppend | src/components/ComparisonChart.tsx:32 | filtering distributes over concatenation, so the original order is kept |
| Comparison.FilterRangeInside | src/components/ComparisonChart.tsx:32 | a series entirely inside the window is returned unchanged |
| Comparison.FilterRangeWider | src/components/ComparisonChart.tsx:30-33 | re-filtering a filtered series with the same or a wider window changes nothing |
| Comparison.FilterRangeIdempotent | src/components/ComparisonChart.tsx:30-33 | filtering twice with the same window is filtering once |
| Comparison.FilterRangeFirst | src/components/ComparisonChart.tsx:32-37 | the first filtered point, which is the normalisation anchor, is the earliest point of the original series inside the window |
| Comparison.Windowed | src/components/ComparisonChart.tsx:30-33 | filtering happens only when both start and end are non-empty, and otherwise the data is returned as is |
| Comparison.Normalize | src/components/ComparisonChart.tsx:35-45 | an empty series stays empty; every point keeps its fields; with a non-zero anchor the first value is 1 and each value times the anchor is the point's price; with a zero anchor every value is non-finite |
| Comparison.NormalizeScaleInvariant | src/components/ComparisonChart.tsx:36-41 | series that differ by a constant non-zero factor normalise to the same values |
| Comparison.Process | src/components/ComparisonChart.tsx:27-47 | a processed asset keeps its id and name, its points are the windowed series, and when the first in-window price is non-zero the first value is 1 and every value times that anchor is the point's price |
| Comparison.ShownIsNormalized | src/components/ComparisonChart.tsx:60 | with a non-zero anchor the falsy fallback never changes the shown value |
| Comparison.LastIn | src/components/ComparisonChart.tsx:56-61 | the cell written last for a date within one series comes from the last point with that date, and exists iff such a point exists |
| Comparison.LastCell | src/components/ComparisonChart.tsx:55-61 | the reference cell exists iff some asset with that id has a point on the date, and comes from such a point |
| Comparison.WritePoint | src/components/ComparisonChart.tsx:57-61 | writing one point creates its date's row if missing and sets only that asset's cell on that date |
| Comparison.WriteSeries | src/components/ComparisonChart.tsx:56-62 | after one asset's points are written, its cell on each date is the last point of that date, and everything else is unchanged |
| Comparison.OccursInSnoc | src/components/ComparisonChart.tsx:55-56 | a date occurs in the assets iff it occurs in the earlier assets or in the last one |
| Comparison.WriteAll | src/components/ComparisonChart.tsx:55-63 | after all assets are written, the rows are exactly the dates of any asset, and every cell is the last-written reference cell |
| Comparison.Merge | src/components/ComparisonChart.tsx:50-66 | no assets gives no rows; otherwise there is one strictly ascending row per date occurring in any series, and each row's cells are exactly the reference cells |
| Comparison.ComparisonTable | src/components/ComparisonChart.tsx:27-66 | the table's rows are sorted and are exactly the dates of any asset's in-window points, and each row's cells are the last-written cells of the processed assets on that date |
| Comparison.CellPresence | src/components/ComparisonChart.tsx:55-61 | no zero-fill: a row has an asset's key iff that asset has a point on that date, and the `_actual` value is such a point's raw price |
| Forecast.FirstBandedIndex | src/components/AssetChart.tsx:16 | the index is absent iff no point carries both bounds, and otherwise is the first point that does |
| Forecast.Split | src/components/AssetChart.tsx:12-28 | empty data gives empty parts with no transition and no bands; historical ++ forecast is the data; no historical point has both bounds; the forecast starts with a banded point; bands are flagged iff some point has both bounds; the transition date is the non-empty first forecast date |
| Forecast.SplitUnique | src/components/AssetChart.tsx:16-24 | any band-free prefix followed by an empty or band-starting suffix is exactly the computed split |
| Insights.SelectedPoint | src/components/InsightsPanel.tsx:19-23 | the selected point is the first point with the selected date, or the last point when no date is selected or it is absent |
| Insights.PercentChange | src/components/InsightsPanel.tsx:25-26 | with a non-zero start the change times the start equals (selected - start) * 100; with a zero start it is non-finite |
| Insights.ComputeInsights | src/components/InsightsPanel.tsx:13-38 | empty data yields no insights; start and end are the first and last points; current is the selected point; isPositive iff percentChange >= 0 |
| Insights.PositiveStartSign | src/components/InsightsPanel.tsx:25-36 | from a positive start, isPositive iff the selected price is at least the start price |
| Insights.ZeroStartSign | src/components/InsightsPanel.tsx:25-36 | from a zero start, isPositive iff the selected price is positive (0/0 is NaN) |
| Insights.SelectingStartIsNoChange | src/components/InsightsPanel.tsx:19-36 | selecting the first date with a non-zero start gives a change of 0 that reads as positive |
| Selection.Without | src/components/MultiAssetComparison.tsx:33 | the filter keeps exactly the ids other than the toggled one |
| Selection.WithoutAppend | src/components/MultiAssetComparison.tsx:33 | the filter distributes over concatenation, so the other ids keep their order |
| Selection.WithoutAbsent | src/components/MultiAssetComparison.tsx:33 | filtering out an absent id changes nothing |
| Selection.WithoutKeepsDistinct | src/components/MultiAssetComparison.tsx:33 | filtering keeps the ids distinct |
| Selection.Toggle | src/components/MultiAssetComparison.tsx:31-41 | a present id is removed everywhere; an absent id is appended when fewer than 5 are selected; otherwise the selection is unchanged |
| Selection.ToggleKeepsValid | src/components/MultiAssetComparison.tsx:31-41 | toggling keeps at most 5 ids and no duplicates |
| Selection.ToggleTwiceRestores | src/components/MultiAssetComparison.tsx:31-41 | toggling an absent id twice, when there is room, restores the selection |
| Selection.ClearAll | src/components/MultiAssetComparison.tsx:43-45 | the cleared selection is valid and empty, and toggling any id into it selects just that id |

## Left out

- Fetching and parsing the CSV files (src/components/BasketBuilder.tsx:84-136, src/components/AssetSelector.tsx). This is network I/O plus `parseFloat`/`isNaN`. The model takes already-parsed series, as `fetched` for the basket and as parameters elsewhere.
- `useEffect`/`useMemo` sequencing, `Promise.all` and stale responses. These are UI event-loop concurrency; each model function is one synchronous recomputation.
- IEEE-754 rounding. Prices are exact reals. NaN and infinite inputs are not modelled, and neither is the sign of a zero divisor (it is taken to be positive zero).
- Basket.AddAsset: a non-empty weight field that parses to NaN passes the source's `<= 0` check. The model cannot express it, because `None` stands for the empty field.
- Basket.WeightOnTarget: the `Math.abs(total - 100) < 0.01` colour check is a plain predicate with no property attached. It only chooses a display colour.
- Comparison.CellOf: cells are kept per asset id apart from the row's date. In the source a row is one object holding `date`, `<id>` and `<id>_actual` keys, so an asset id that collides with another asset's `<id>_actual` key, or an asset id `"date"` that overwrites the row's date, is not modelled.
- `Dates.Before` compares Unicode code points. JavaScript's `sort()` compares UTF-16 code units, which agree with code points on text without surrogate pairs. `localeCompare` uses locale collation, which orders "a" before "B" and can treat distinct strings as equal; it agrees with `Dates.Before` on `YYYY-MM-DD` strings only, so on other date text the merged row order of `Comparison.Merge` can differ from the source's.
- Rendering, tooltips, axis formatters, the date selectors (src/components/DateSelector.tsx, src/components/DateRangeSelector.tsx), share links (src/components/SocialShare.tsx) and page layout (src/pages/Index.tsx, src/pages/Simulator.tsx beyond the `AssetData`/`BasketAsset` types). These are presentation or browser globals.
