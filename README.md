# Listing signals: a verified model

This project models the analytics core of a real-estate listing service for the
Boston area. The service reads MLS feeds, normalises listings into
`listings_raw`, computes per-cell baselines in `town_type_band_baselines`, and
derives per-listing signals in `listing_signals`. A cell is a town, a property
type and one of four price bands. A signal is stale, recent drop, likely cut,
underpriced or hot. The web application scores listings into
`listing_scores` and builds the home page's "top opportunities" query. Two
maintenance scripts are also modelled: one backfills scores, the other finds
duplicate listings.

The model is written in Dafny. The database tables are fields of classes:
`seq` for tables read in order, `map` for tables keyed by a primary or unique
key. Each SQL statement is a function over those values. JavaScript numbers are
`real`, and `Math.round(x)` is `Floor(x + 1/2)`. JavaScript's `||` and
truthiness are written out (`Truthy`, `OrElse`, `OrNull`). Parts the code
delegates to the runtime or to other modules become function parameters:
`JSON.parse`, `parseFloat`/`parseInt`, date parsing, the clock, the town lookup
of the ingest utilities, and the abbreviation regexes of `normalizeAddress`.

Modules, one per file:

| module | file | models |
|---|---|---|
| `Js`, `Strings`, `Seqs`, `Sorting`, `Records` | js.dfy, strings.dfy, seqs.dfy, sorting.dfy, records.dfy | runtime behaviour the core relies on: number truthiness and rounding; `trim`, `\s`, `split`/`join`, `includes`, ASCII case mapping; a stable insertion sort by comparator (the behaviour of `Array.prototype.sort` on the small arrays involved); `a \|\| b \|\| ''` over feed records |
| `Store` | store.dfy | rows of `listings_raw` and `listing_snapshots` |
| `Medians` | medians.dfy | the two medians of the core: the indexed one of computeBaselines, and SQL `percentile_cont(0.5)` |
| `Validation` | validation.dfy | apps/web/src/lib/validation.ts |
| `Baselines`, `SignalRules`, `Signals` | baselines.dfy, signal_rules.dfy, signals.dfy | packages/ingest/src/signals.ts (`Signals.SignalComputer` is the class) |
| `Scoring` | scoring.dfy | apps/web/src/lib/scoring.ts (`Scoring.ScoreStore` holds `listing_scores`) |
| `Backfill` | backfill.dfy | scripts/backfill-scores.js (`Backfill.Backfiller`) |
| `IngestUtils` | ingest_utils.dfy | packages/ingest/src/utils.ts |
| `TownMapping` | town_mapping.dfy | packages/ingest/src/town-mapping.ts |
| `Fetcher` | fetcher.dfy | the parsing half of packages/ingest/src/fetcher.ts |
| `WebUtils` | web_utils.dfy | apps/web/src/lib/utils.ts |
| `Dedupe` | dedupe.dfy | scripts/dedupe-listings.js |
| `HomePage` | home_page.dfy | the server-side logic of apps/web/src/app/page.tsx |

The model brings out several behaviours of the code that are easy to miss:

- The baseline median of days on market and of price takes the element at
  index `floor(n/2)` of the sorted sample. For an even sample that is the
  upper of the two middle values, not their mean. The score cohorts, by
  contrast, use `percentile_cont`, which interpolates.
- The price-cut count joins every ordered pair of snapshots of a listing whose
  price fell, not only consecutive ones. The "price-cut rate" can therefore
  exceed 1.
- The cut count takes the whole cell, with no `updated_at` cutoff. The sample
  size takes only listings updated since the cutoff.
- The baseline lookup of computeListingSignals ignores `lookback_days` and takes
  whichever matching row `LIMIT 1` returns. The model leaves that choice open.
- The recent drop compares only the two latest snapshots of the last 14 days.
  A 10% cut followed by a 0.5% cut reports nothing.
- Re-running the signal computation never deletes a row. A signal type that no
  longer fires keeps its old row, primary flag included, so a listing can end up
  with two primary signals.
- The backfill script reads price and area without the web application's range
  checks, and counts a missing list price as 0. Such a listing gets the whole
  price component from the script and none from `computeAndPersistScore`.
- The signal engine writes only its five type names. None of them contains
  "price_reduction", so the 10-point signal tier of the score never applies to
  rows the engine wrote.
- The home page's badge table knows none of the engine's types except
  `underpriced`. The other four are shown in grey, under their raw names.
- The home page's sort option applies only when some filter is set. With no
  filter the static query runs, and it always uses the default order.
- The duplicate finder's comparator is not a consistent order on rows that have
  exactly one of area and price. Those are compared by price with one
  neighbour and by date with another.

## Model

| member | source | states |
|---|---|---|
| `Validation.ValidatePrice` | apps/web/src/lib/validation.ts:1-7 | a price is kept exactly when it is a finite number in [20000, 50000000]; the result is that number rounded, so it stays within the range |
| `Validation.ValidateSqft` | apps/web/src/lib/validation.ts:9-15 | an area is kept exactly when it is finite and in [100, 20000]; the result is that area rounded |
| `Validation.ValidatePps` | apps/web/src/lib/validation.ts:17-23 | a price per square foot is kept unchanged exactly when it is finite and in [5, 5000] |
| `Validation.ValidatePriceIdempotent` | apps/web/src/lib/validation.ts:1-7 | validating a validated price gives it back |
| `Validation.ValidateSqftIdempotent` | apps/web/src/lib/validation.ts:9-15 | validating a validated area gives it back |
| `Validation.ValidatePpsIdempotent` | apps/web/src/lib/validation.ts:17-23 | validating a validated price per square foot gives it back |
| `Validation.RangeCheckedBeforeRounding` | apps/web/src/lib/validation.ts:5-6 | the range is checked before rounding: 19999.6 is rejected although it rounds to 20000; the examples of the validation tests hold |
| `Validation.SanitizeListing` | apps/web/src/lib/validation.ts:25-30 | list_price goes through validatePrice and sqft through validateSqft |
| `Validation.AsNum` | apps/web/src/lib/validation.ts:25-30 | a sanitized field read back as a number: null for null, the integer otherwise |
| `Validation.SanitizeListingIdempotent` | apps/web/src/lib/validation.ts:25-30 | sanitizing a sanitized listing changes nothing |
| `Medians.UpperMedian` | packages/ingest/src/signals.ts:82-93 | the median of the sorted sample at index floor(n/2): null exactly for an empty sample, otherwise one of the values |
| `Medians.MedianRank` | packages/ingest/src/signals.ts:82-93 | at most floor(n/2) values lie below the median and at most n-1-floor(n/2) above it |
| `Medians.MedianOfFour` | packages/ingest/src/signals.ts:89-93 | of four values in order the third is taken, not the mean of the middle two |
| `Medians.InterpolatedMedian` | apps/web/src/lib/scoring.ts:44-47 | `percentile_cont(0.5)` is null exactly for no rows |
| `Medians.InterpolatedMedianWithin` | apps/web/src/lib/scoring.ts:44-55 | the interpolated median of values within a range lies within it |
| `Medians.MedianOfTwo` | packages/ingest/src/signals.ts:86 | of two values the interpolated median is their mean, while the indexed median is the larger |
| `Baselines.GetPriceBand` | packages/ingest/src/signals.ts:353-358 | every price falls in one of the four bands; "0-500k" exactly below 500000 and "2m+" exactly from 2000000 |
| `Baselines.ParsePriceBand` | packages/ingest/src/signals.ts:360-373 | a band's range is a non-empty half-open range within [0, 999999999); an unknown band gets the widest range |
| `Baselines.BandsPartitionPrices` | packages/ingest/src/signals.ts:353-373 | below the ceiling, a price lies in the range of a band exactly when getPriceBand names that band |
| `Baselines.CellListings` | packages/ingest/src/signals.ts:65-77 | the sample of a cell: rows of its town and type, priced inside its band, updated since the cutoff |
| `Baselines.CutPairs` | packages/ingest/src/signals.ts:96-115 | the self-join counts no pair when no outer snapshot belongs to a listing of the cell |
| `Baselines.CutCount` | packages/ingest/src/signals.ts:96-115 | a cell's cut count is 0 when none of its listings has a snapshot, and 0 for a single snapshot |
| `Baselines.CutsArePairsNotSteps` | packages/ingest/src/signals.ts:96-115 | the cut count joins pairs of snapshots: three falling prices make three cuts; a listing outside the cell counts none |
| `Baselines.CellBaseline` | packages/ingest/src/signals.ts:79-118 | a cell gets a baseline exactly when its sample has at least 5 rows; the baseline holds the sample size, the upper median of the sample's non-null days on market, the upper median of its positive prices, and the cut count divided by the sample size, which is non-negative |
| `Baselines.NullPriceNoCut` | packages/ingest/src/signals.ts:96-112 | a snapshot with a null price is on neither side of a counted cut, since `s2.list_price < s1.list_price` is not true for a null |
| `Baselines.BaselineMediansFromSample` | packages/ingest/src/signals.ts:82-93 | the median price is a positive price in the band, and the median days on market is that of a sampled listing |
| `Baselines.BaselineMediansRank` | packages/ingest/src/signals.ts:82-93 | each median is null exactly when its values are empty, and otherwise has at most half of the sample's values below it and at most half above |
| `Baselines.CutRateCanExceedOne` | packages/ingest/src/signals.ts:96-118 | one listing cut three times in a five-listing cell gives a cut rate above 1 |
| `SignalRules.TypeName` | packages/ingest/src/signals.ts:15 | the stored names of the five signal types |
| `SignalRules.TypeNamesDistinct` | packages/ingest/src/signals.ts:15 | two types share a stored name only when they are the same type |
| `SignalRules.Cap` | packages/ingest/src/signals.ts:217 | `Math.min(100, x)` is at most 100 and x, and is x up to 100 |
| `SignalRules.MedianDomOf` | packages/ingest/src/signals.ts:211 | the median days on market used by the rules, with the 21-day default, is never 0 |
| `SignalRules.MedianPriceOf` | packages/ingest/src/signals.ts:212 | the median price used by the rules, falling back to the listing's price, is non-zero for a non-zero price |
| `SignalRules.StalePart` | packages/ingest/src/signals.ts:214-225 | the stale rule pushes at most one unflagged stale signal of the listing, scored at most 100 |
| `SignalRules.DropPart` | packages/ingest/src/signals.ts:227-239 | the recent-drop rule pushes at most one unflagged recent_drop signal, scored at most 100 |
| `SignalRules.LikelyCutPart` | packages/ingest/src/signals.ts:241-257 | the likely-cut rule pushes at most one unflagged likely_cut signal, scored at most 100 |
| `SignalRules.UnderpricedPart` | packages/ingest/src/signals.ts:259-270 | the underpriced rule pushes at most one unflagged underpriced signal, scored at most 100 |
| `SignalRules.HotPart` | packages/ingest/src/signals.ts:272-286 | the hot rule pushes at most one unflagged hot signal, scored at most 100 |
| `SignalRules.MarkPrimary` | packages/ingest/src/signals.ts:291 | flagging the first signal keeps the number of signals |
| `SignalRules.RuleSignals` | packages/ingest/src/signals.ts:214-286 | the rules push at most five signals, at most one per type, all about the listing, none primary yet, none scored above 100 |
| `SignalRules.PartsFacts` | packages/ingest/src/signals.ts:214-286 | five one-rule parts put together hold at most five signals, at most one of each type, none primary, none above 100 |
| `SignalRules.MarkedShape` | packages/ingest/src/signals.ts:288-292 | sorting by score and flagging the first keeps the number of signals and one per type, makes exactly the first one primary, and puts first a top-scored signal that is the earliest-pushed among those with that score |
| `SignalRules.ListingSignals` | packages/ingest/src/signals.ts:194-295 | a listing's signals: none without a baseline, otherwise exactly one per firing rule (so at most five), at most one per type, all about the listing, exactly the first primary; the primary has the highest score of the firing rules and, among ties, is the rule pushed first |
| `SignalRules.HeadIsBest` | packages/ingest/src/signals.ts:288-292 | after the sort and the marking the first signal is primary, has the highest score of all rules, and is the earliest-pushed rule among those with that score |
| `SignalRules.SortedHeadEarliest` | packages/ingest/src/signals.ts:288-290 | the head of the descending sort is some rule with the highest score, and every rule before it scores strictly less |
| `SignalRules.StaleScoreAtLeast75` | packages/ingest/src/signals.ts:215-217 | a stale listing scores between 75 and 100 |
| `SignalRules.DropScoreAtLeast10` | packages/ingest/src/signals.ts:229-231 | a reported drop (at least 2%) scores between 10 and 100 |
| `SignalRules.LikelyCutScoreAtLeast8` | packages/ingest/src/signals.ts:242-249 | a likely cut scores between 8 and 100 |
| `SignalRules.UnderpricedScoreAtLeast6` | packages/ingest/src/signals.ts:260-262 | an underpriced listing scores between 6 and 100 |
| `SignalRules.HotScoreAtLeast60` | packages/ingest/src/signals.ts:273-278 | a hot listing with at least one day on market scores between 60 and 100; listings below one day are covered by HotScoreBounds |
| `SignalRules.HotScoreBounds` | packages/ingest/src/signals.ts:273-278 | every hot score is at most 100, at least 30 for a median of a day or more and at least 60 for two days or more; below one day on market the score is 30 times the median whatever the days on market |
| `SignalRules.HotAtNullDom` | packages/ingest/src/signals.ts:273-278 | a pending listing with null days on market against a median of one day is hot with score 30 |
| `SignalRules.StaleExcludesUnderpriced` | packages/ingest/src/signals.ts:215-260 | no listing is both stale and underpriced |
| `SignalRules.StaleExcludesHot` | packages/ingest/src/signals.ts:215-276 | no listing is both stale and hot |
| `SignalRules.LikelyCutExcludesUnderpriced` | packages/ingest/src/signals.ts:242-260 | no listing is both a likely cut and underpriced |
| `SignalRules.NoMedianPriceNoPriceSignals` | packages/ingest/src/signals.ts:212-270 | without a median price the listing is compared with itself and neither price rule fires |
| `SignalRules.DropBetween` | packages/ingest/src/signals.ts:314-331 | a drop is reported exactly when the latest price is below the earlier one by at least 2%, with its amount, percentage and both prices |
| `SignalRules.LatestTwoDrop` | packages/ingest/src/signals.ts:301-331 | no drop with fewer than two snapshots; a reported drop is positive, at least 2%, and the current price is the previous minus the amount |
| `SignalRules.NullLatestPriceIsFullDrop` | packages/ingest/src/signals.ts:313-331 | when the latest snapshot's price is null and the earlier one positive, `Number(null)` is 0 and a 100% drop to 0 is reported, scoring 100 |
| `SignalRules.FullDrop` | packages/ingest/src/signals.ts:316-331 | a fall from a positive price to 0 is a drop of the whole price, 100%, and scores 100 |
| `SignalRules.DescendingHead` | packages/ingest/src/signals.ts:308-309 | after `ORDER BY snapshot_date DESC` the first row is the latest, and the second is the latest of the rest |
| `SignalRules.LatestTwoDropComparesLatest` | packages/ingest/src/signals.ts:308-331 | the drop compares two rows of the window: the latest one and the latest of the others |
| `SignalRules.RecentDropOf` | packages/ingest/src/signals.ts:297-332 | checkRecentPriceDrop: no drop with fewer than two snapshots in the last 14 days; otherwise it compares the latest snapshot of the window with the latest of the others; a reported drop is positive and at least 2% |
| `SignalRules.OnlyTheLastChangeCounts` | packages/ingest/src/signals.ts:308-321 | a 10% cut followed by a 0.5% cut within the window reports no drop |
| `Signals.Combos` | packages/ingest/src/signals.ts:48-52 | the distinct (town, type) pairs of rows whose town is neither null nor empty, each once |
| `Signals.BandKeys` | packages/ingest/src/signals.ts:59-61 | a pair's cells are its four bands, in band order, under the given lookback |
| `Signals.CellKeys` | packages/ingest/src/signals.ts:58-61 | the visited cells are four per pair, in loop order |
| `Signals.UpsertCellsSnoc` | packages/ingest/src/signals.ts:121-136 | visiting one more cell upserts it when it has a baseline and otherwise changes nothing |
| `Signals.UpsertCellsMeaning` | packages/ingest/src/signals.ts:120-138 | the upserts write exactly the visited cells that have a baseline, each with its own baseline, and leave every other row as it was |
| `Signals.CellKeysStep` | packages/ingest/src/signals.ts:58-61 | the cells of a prefix of the pairs are followed by the bands of the next pair |
| `Signals.CellKeysMeaning` | packages/ingest/src/signals.ts:58-61 | a cell is visited exactly when its pair is among the pairs, its band among the four and its lookback the given one |
| `Signals.UpsertCells` | packages/ingest/src/signals.ts:58-143 | the outer loop writes the table of the upserts of all visited cells and counts the cells written |
| `Signals.UpsertBands` | packages/ingest/src/signals.ts:61-139 | the inner loop upserts the four bands of one pair and counts those with a baseline |
| `Signals.UpsertCell` | packages/ingest/src/signals.ts:121-136 | one band of the inner loop extends the upserts and the count by that cell |
| `Signals.BaselinesWritten` | packages/ingest/src/signals.ts:41-144 | after computeBaselines a row exists exactly when it existed before or it names a band of an occurring pair with at least 5 recent listings; such a row holds the cell's baseline, every other row is unchanged |
| `Signals.CountDistinct` | packages/ingest/src/signals.ts:138 | with distinct keys the counter equals the number of cells written |
| `Signals.CellKeysDistinct` | packages/ingest/src/signals.ts:58-61 | distinct pairs give distinct cells |
| `Signals.CountIsCellsWritten` | packages/ingest/src/signals.ts:138-143 | the returned count is the number of distinct cells written, at most four per pair |
| `Signals.UpsertMeaning` | packages/ingest/src/signals.ts:334-351 | a key has a row after the batch exactly when it had one or a signal of the batch has it; untouched keys keep their row; a key takes the row of the last signal with that key |
| `Signals.Upsert` | packages/ingest/src/signals.ts:334-351 | the ON CONFLICT upsert of a batch deletes no row, and every signal of the batch has a row under its key; UpsertMeaning gives the full contents |
| `Signals.UpsertIsUnion` | packages/ingest/src/signals.ts:334-351 | saving a batch is a map union in which the batch overrides the table |
| `Signals.UpsertIdempotent` | packages/ingest/src/signals.ts:334-351 | saving the same batch twice equals saving it once |
| `Signals.UpsertKeys` | packages/ingest/src/signals.ts:334-351 | after a batch a key is present exactly when it was or some signal of the batch has it |
| `Signals.UpsertUntouched` | packages/ingest/src/signals.ts:334-351 | a key no signal of the batch has keeps its row |
| `Signals.UpsertLastWins` | packages/ingest/src/signals.ts:334-351 | a key takes the row of the last signal of the batch that has it |
| `Signals.StalePrimaryKept` | packages/ingest/src/signals.ts:343-348 | a type that stops firing keeps its old primary row, so a listing can hold two primary signals |
| `Signals.SavedBatchRows` | packages/ingest/src/signals.ts:334-351 | each signal of a listing is stored under its own (mls_id, signal_type) key with its own row |
| `Signals.ActiveRows` | packages/ingest/src/signals.ts:161-175 | rows of the table, each with a positive price and a town neither null nor empty, never more copies of a row than the table has; as many as the active rows up to 1000, and all of them when there are at most 1000 |
| `Signals.MarkFirst` | packages/ingest/src/signals.ts:291 | setting the flag of the first element in place equals MarkPrimary |
| `Signals.ProgressStep` | packages/ingest/src/signals.ts:180-188 | one more turn of the loop keeps the loop's invariant: the next listing's lookup and batch are appended, its batch is saved, its signals counted |
| `Signals.SignalComputer.constructor` | packages/ingest/src/signals.ts:33-39 | the tables start as given |
| `Signals.SignalComputer.ComputeBaselines` | packages/ingest/src/signals.ts:41-144 | the baselines table becomes the upserts of every visited cell that has a baseline; the count is the number of cells written, at most four per pair |
| `Signals.SignalComputer.LookupBaseline` | packages/ingest/src/signals.ts:198-210 | a found row is the row of some key matching town, type and band, whatever its lookback; none is found exactly when no key matches |
| `Signals.SignalComputer.ComputeListingSignals` | packages/ingest/src/signals.ts:194-295 | the listing's signals, given the lookup's result and its recent drop |
| `Signals.PushRules` | packages/ingest/src/signals.ts:214-286 | the successive pushes of computeListingSignals build exactly the rule signals |
| `Signals.RankSignals` | packages/ingest/src/signals.ts:288-292 | the in-place sort and the primary flag give the marked, sorted rule signals |
| `Signals.SignalComputer.SaveSignals` | packages/ingest/src/signals.ts:334-351 | the signals table becomes the batch upserted on the old table |
| `Signals.SignalComputer.SaveBatch` | packages/ingest/src/signals.ts:184-187 | saving a listing's batch, skipped when empty, upserts it on the signals table |
| `Signals.SignalComputer.SaveAllSignals` | packages/ingest/src/signals.ts:180-191 | after the loop over the active rows each has a valid lookup result and its batch, the table holds the batches saved in order, and the count is their total size |
| `Signals.SignalComputer.ComputeSignals` | packages/ingest/src/signals.ts:146-192 | one batch per active listing, each the listing's signals against a valid lookup result for it and its recent drop; the signals table is the old one with every batch saved in turn; the count is the total number of signals |
| `Scoring.SizeWindow` | apps/web/src/lib/scoring.ts:37-38 | for a positive area the window is a quarter below and above it, widened to whole square feet, and contains the area; otherwise it is [0, 9999999] |
| `Scoring.RowPps` | apps/web/src/lib/scoring.ts:47-55 | `list_price / NULLIF(sqft, 0)` is null exactly when either is null or the area is 0 |
| `Scoring.TownCohort` | apps/web/src/lib/scoring.ts:61-72 | a row is in the town cohort exactly when it is a row of the table with a non-null town equal to the queried non-null town ignoring case, a price in [20000, 50000000] and a price per square foot in [5, 5000] |
| `Scoring.NarrowCohort` | apps/web/src/lib/scoring.ts:42-56 | a row is in the narrow cohort exactly when it is a row of the table in the town cohort, of the same type, and within the size window |
| `Scoring.CohortMediansInRange` | apps/web/src/lib/scoring.ts:44-55 | a cohort's medians lie within its filter ranges, and they are truthy exactly when the cohort has a row |
| `Scoring.PropTypeOf` | apps/web/src/lib/scoring.ts:34 | `property_type \|\| null` is null exactly for a null or empty type |
| `Scoring.QueryMedians` | apps/web/src/lib/scoring.ts:41-75 | the medians reported are those of the narrow cohort when the listing has a type and that cohort has a row, and of the town cohort otherwise |
| `Scoring.CohortChoice` | apps/web/src/lib/scoring.ts:41-73 | the narrow cohort is used exactly when the listing has a type and that cohort has a row; otherwise the town cohort is |
| `Scoring.AsReal` | apps/web/src/lib/scoring.ts:80-81 | a validated integer as a nullable number |
| `Scoring.ListingPps` | apps/web/src/lib/scoring.ts:80-82 | the listing's price per square foot is present only when both inputs validate, and it is then their quotient within [5, 5000] |
| `Scoring.PpsDiffPct` | apps/web/src/lib/scoring.ts:84 | the deviation below the median, in percent of the median; 0 unless both are truthy |
| `Scoring.PriceDiffPct` | apps/web/src/lib/scoring.ts:85-86 | the price's deviation below the median, in percent of the median; 0 unless both are truthy |
| `Scoring.DeviationMeaning` | apps/web/src/lib/scoring.ts:84 | for positive values the deviation is positive exactly when the listing is below the median, and it stays below 100 |
| `Scoring.DomComponent` | apps/web/src/lib/scoring.ts:92-94 | 10 points from 90 days, 5 from 45 days, 0 otherwise and for a null count |
| `Scoring.DomPoints` | apps/web/src/lib/scoring.ts:92-94 | the branches of the days-on-market points compute the component |
| `Scoring.SignalComponent` | apps/web/src/lib/scoring.ts:96-99 | 15 points with a primary signal; otherwise 10 exactly when some type mentions a price reduction; otherwise 0 |
| `Scoring.SignalPoints` | apps/web/src/lib/scoring.ts:96-99 | the branches of the signal points compute the component |
| `Scoring.ClampPct` | apps/web/src/lib/scoring.ts:89-90 | the clamp lies within [0, hi] and keeps any value already inside it |
| `Scoring.Assemble` | apps/web/src/lib/scoring.ts:88-112 | the pps and price components are within [0, 50] and [0, 25]; the raw score rounds the sum of the unrounded components; the final score lies in [0, 100] and equals the raw score when the tiers are in range |
| `Scoring.ReportedMedians` | apps/web/src/lib/scoring.ts:75-78 | a reported median is present exactly when the query's median is truthy |
| `Scoring.ScoreOf` | apps/web/src/lib/scoring.ts:23-112 | the score of computeAndPersistScore: every component in its range and tiers, and the final clamp never changes the raw score |
| `Scoring.InvalidInputsScoreNothing` | apps/web/src/lib/scoring.ts:80-90 | a listing whose price does not validate gets no pps and no price component |
| `Scoring.RoundedComponentsNeedNotAddUp` | apps/web/src/lib/scoring.ts:101-106 | the reported components are rounded one by one: two halves report 1 + 1 but the raw score is 1 |
| `Scoring.ScoreStore.constructor` | apps/web/src/lib/scoring.ts:1 | the shared database handle, with its tables as given |
| `Scoring.ScoreStore.ComputeAndPersistScore` | apps/web/src/lib/scoring.ts:23-134 | the returned components are the listing's score against `listings_raw`, and only the listing's own row of `listing_scores` is upserted |
| `Scoring.PersistIdempotent` | apps/web/src/lib/scoring.ts:124-131 | persisting the same score twice equals persisting it once |
| `Backfill.FirstListing` | scripts/backfill-scores.js:33-36 | the first row with the id, or none exactly when no row has it |
| `Backfill.RawPps` | scripts/backfill-scores.js:78 | the raw price per square foot, present exactly when price and area are truthy, and not checked against any range |
| `Backfill.RawPriceDiffPct` | scripts/backfill-scores.js:80 | the price deviation with a missing price counted as 0; 0 without a truthy median |
| `Backfill.TypesOf` | scripts/backfill-scores.js:88-91 | the types read are exactly those of the listing's signal rows |
| `Backfill.BackfillOutcome` | scripts/backfill-scores.js:31-125 | null exactly for an id without a listing row; otherwise the id and a final score in [0, 100] |
| `Backfill.DistinctIds` | scripts/backfill-scores.js:129-130 | each id with a signal row, once |
| `Backfill.ScoreListing` | scripts/backfill-scores.js:37-108 | the script's components for the listing row it found |
| `Backfill.Backfiller.constructor` | scripts/backfill-scores.js:29 | the tables start as given |
| `Backfill.Backfiller.ComputeForMls` | scripts/backfill-scores.js:31-125 | without a listing row, null and no write; otherwise the backfill score is upserted under the id |
| `Backfill.Backfiller.RunBackfill` | scripts/backfill-scores.js:127-142 | computeForMls runs once on each distinct id of `listing_signals`, in turn |
| `Backfill.BackfillAllMeaning` | scripts/backfill-scores.js:110-138 | after the run an id is stored exactly when it was stored before or was processed and has a listing; processed ids hold their backfill score; every other row is unchanged |
| `Backfill.BackfillScoreOf` | scripts/backfill-scores.js:37-108 | the components the script computes for a listing row: each in its range and tiers, and the final clamp never changes the raw score |
| `Backfill.StoredFor` | scripts/backfill-scores.js:31-118 | the row computeForMls writes for an id: none exactly when the id has no listing row, otherwise a score in [0, 100] that is the final score of the stored components |
| `Backfill.Persisted` | scripts/backfill-scores.js:110-118 | listing_scores after one computeForMls: the id is present when it was or has a listing row, then holds its stored row; every other key is unchanged |
| `Backfill.UpsertEach` | scripts/backfill-scores.js:133-138 | upserting id after id removes no key, and every new key is a processed id that has a value |
| `Backfill.BackfillAll` | scripts/backfill-scores.js:127-138 | the run removes no score, and adds one only for a processed id with a listing row; BackfillAllMeaning gives the values |
| `Backfill.UpsertEachMeaning` | scripts/backfill-scores.js:110-138 | upserting ids in turn: a key is present exactly when it was or it is an id with a value, holds that value when it is one, and keeps its old value otherwise |
| `Backfill.BackfillScoresEveryListingWithSignals` | scripts/backfill-scores.js:127-138 | every listing with a signal row and a listing row gets its backfill score; ids without signal rows are untouched |
| `Backfill.AgreesWithScoringOnValidInputs` | scripts/backfill-scores.js:37-108 | for a listing with a town, a whole-number price and area inside the validated ranges, and a valid price per square foot, the script computes the same components as computeAndPersistScore |
| `Backfill.NullTownCohorts` | scripts/backfill-scores.js:40-70 | for a listing with a null town the script's queries match no row and every median is null, while computeAndPersistScore queries with '' and takes the medians of the rows whose town is '' |
| `Backfill.PriceDiffAgrees` | scripts/backfill-scores.js:80 | for a validated positive price the two price deviations agree |
| `Backfill.MissingPriceDiff` | scripts/backfill-scores.js:80 | without a list price the deviation from a positive median is 100% |
| `Backfill.MissingPriceGetsFullPriceComponent` | scripts/backfill-scores.js:80-83 | a listing without a price, in a town with cohort rows, gets the full price component of 25 from the script and 0 from computeAndPersistScore |
| `Backfill.RawPpsIsUnvalidated` | scripts/backfill-scores.js:78 | a price of 10000 over 100 square feet has a price per square foot of 100 in the script and none in computeAndPersistScore |
| `Backfill.SignalComponentFromRows` | scripts/backfill-scores.js:88-95 | 15 points exactly when a row of the listing is primary; 10 exactly when none is and one of its types mentions a price reduction |
| `Backfill.EngineRowsNeverScoreTen` | scripts/backfill-scores.js:92-95 | over rows carrying the engine's five type names the signal component is 0 or 15, never 10 |
| `IngestUtils.Unquoted` | packages/ingest/src/utils.ts:6-12 | a field with its double quotes removed and trimmed holds no quote and is trimmed |
| `IngestUtils.ExtractTownName` | packages/ingest/src/utils.ts:4-20 | the TOWN field when it is a name; else the TOWN_NUM lookup when it answers; else whichever field is non-empty |
| `IngestUtils.TownEmptyOnlyWithoutFields` | packages/ingest/src/utils.ts:4-20 | the town is empty exactly when both fields are empty once cleaned, and it is always one of them or the lookup's answer |
| `IngestUtils.CodeInTownFieldFallsBack` | packages/ingest/src/utils.ts:7-19 | a code such as "12A" in TOWN is kept when TOWN_NUM is empty |
| `IngestUtils.NumOrNull` | packages/ingest/src/utils.ts:74 | `parseFloat(...) \|\| null` is null exactly for null, NaN and 0, and otherwise the number |
| `IngestUtils.NumericField` | packages/ingest/src/utils.ts:74-83 | a numeric field is null when no key is truthy, and otherwise a non-zero number, an infinity or null |
| `IngestUtils.StreetAddress` | packages/ingest/src/utils.ts:53-58 | the number-and-name address is empty exactly when neither spelling has both parts |
| `IngestUtils.RawAddress` | packages/ingest/src/utils.ts:52-58 | UnparsedAddress or ADDRESS when truthy, else the number-and-name address |
| `IngestUtils.FirstOrNull` | packages/ingest/src/utils.ts:97-99 | `a \|\| b \|\| null` is null exactly when no key is truthy |
| `IngestUtils.NormalizeMLSListing` | packages/ingest/src/utils.ts:47-104 | the id, trimmed address, feed type, status (default "Unknown"), town, price and area of the normalised listing, and the raw record |
| `IngestUtils.MlsIdOf` | packages/ingest/src/utils.ts:64-71 | the id is trimmed |
| `IngestUtils.MlsIdEmpty` | packages/ingest/src/utils.ts:64-71 | the id is empty exactly when no id field is truthy or the first truthy one is white space, so a blank ListingId hides a good LIST_NO |
| `IngestUtils.TrimEmptyIffWs` | packages/ingest/src/utils.ts:71 | trimming gives "" exactly for the empty string and white space only |
| `IngestUtils.GetPriceBand` | packages/ingest/src/utils.ts:106-112 | "unknown" exactly for a falsy price, otherwise the band of the signal computer |
| `TownMapping.StripQuotes` | packages/ingest/src/town-mapping.ts:250 | one enclosing pair of quotes is removed when nothing between them ends a line; otherwise the text is unchanged |
| `TownMapping.MappedTown` | packages/ingest/src/town-mapping.ts:274-275 | the code's town exactly when the code is non-empty and maps to a non-empty name |
| `TownMapping.ExtractTownNameIn` | packages/ingest/src/town-mapping.ts:246-290 | the town is never empty; an acceptable Town/TOWN wins; an all-digit result is the code itself or its mapped name |
| `TownMapping.ExtractTownName` | packages/ingest/src/town-mapping.ts:246-290 | over TOWN_NUM_MAP the town is never empty |
| `TownMapping.TownPriority` | packages/ingest/src/town-mapping.ts:246-290 | the fallbacks in order: neighbourhood, area, mapped code, raw code, "Unknown", each only when every earlier one was unacceptable |
| `TownMapping.NullCandidate` | packages/ingest/src/town-mapping.ts:248 | a pair of null fields gives an empty candidate |
| `TownMapping.UnquoteDigits` | packages/ingest/src/town-mapping.ts:272 | quoted digits lose their quotes |
| `TownMapping.EmptyRecordIsUnknown` | packages/ingest/src/town-mapping.ts:289 | a record of null fields gives "Unknown" |
| `TownMapping.ExtractDom` | packages/ingest/src/town-mapping.ts:295-325 | the result is null or non-negative; a positive day count field wins |
| `TownMapping.DomFromListDate` | packages/ingest/src/town-mapping.ts:303-318 | without a positive day count, a list date d whole days (and part of a day) ago gives d, and one in the future gives null |
| `Fetcher.KeyChars` | packages/ingest/src/fetcher.ts:161 | every character outside `[A-Z0-9_]` becomes '_', position by position |
| `Fetcher.HeaderKey` | packages/ingest/src/fetcher.ts:161 | the lookup key has the header's length and only key characters |
| `Fetcher.NormalizeFieldName` | packages/ingest/src/fetcher.ts:124-163 | the table's name for a known key, otherwise the header unchanged |
| `Fetcher.TableByShape` | packages/ingest/src/fetcher.ts:126-159 | facts about the table's keys by length and first letter (used to show that its names normalise to themselves) |
| `Fetcher.UpperKeyChar` | packages/ingest/src/fetcher.ts:161 | an upper-case letter is its own key character, and no letter becomes '_' |
| `Fetcher.NameByShape` | packages/ingest/src/fetcher.ts:124-163 | a name whose shape matches no key is left unchanged |
| `Fetcher.TableNameFixed` | packages/ingest/src/fetcher.ts:126-162 | every name the table produces normalises to itself |
| `Fetcher.NormalizeIdempotent` | packages/ingest/src/fetcher.ts:124-163 | normalizeFieldName is idempotent |
| `Fetcher.CellValue` | packages/ingest/src/fetcher.ts:112-115 | a cell is null exactly when the line has no such column or the trimmed cell is empty; otherwise the trimmed cell |
| `Fetcher.FieldNames` | packages/ingest/src/fetcher.ts:114 | every header's normalised name, position by position |
| `Fetcher.AssignKeys` | packages/ingest/src/fetcher.ts:111-116 | the fields assigned are exactly the names |
| `Fetcher.AssignLastWins` | packages/ingest/src/fetcher.ts:111-116 | a name holds the cell of its last occurrence |
| `Fetcher.RowRecordKeys` | packages/ingest/src/fetcher.ts:108-116 | a record has exactly the normalised header names as fields |
| `Fetcher.RowRecordLastWins` | packages/ingest/src/fetcher.ts:108-116 | a field holds the cell of the last column whose header normalises to it |
| `Fetcher.Lines` | packages/ingest/src/fetcher.ts:99 | one line more than the trimmed text has newlines |
| `Fetcher.Headers` | packages/ingest/src/fetcher.ts:103 | one trimmed header per '|'-separated piece of the first line |
| `Fetcher.Rows` | packages/ingest/src/fetcher.ts:107-119 | one record per data line, record i being line i split on '\|' and read against the headers |
| `Fetcher.PipeRecords` | packages/ingest/src/fetcher.ts:98-122 | one record per newline of the trimmed text, so none for a single line |
| `Fetcher.PipeRecordsMeaning` | packages/ingest/src/fetcher.ts:98-122 | record i is line i + 1 read against the first line's headers |
| `Fetcher.RowsStep` | packages/ingest/src/fetcher.ts:107-119 | reading one more line appends its record |
| `Fetcher.BuildRow` | packages/ingest/src/fetcher.ts:109-116 | the `forEach` builds the record of the line |
| `Fetcher.ReadDataLines` | packages/ingest/src/fetcher.ts:106-121 | the `for` loop returns the records of every line after the first |
| `Fetcher.ParsePipeDelimited` | packages/ingest/src/fetcher.ts:98-122 | as many records as the trimmed text has newlines, record i being line i + 1 |
| `Fetcher.PipeTextIffBar` | packages/ingest/src/fetcher.ts:48 | the pipe test holds exactly when the text contains '\|' |
| `Fetcher.ArrayField` | packages/ingest/src/fetcher.ts:68-73 | an object's field when it is an array |
| `Fetcher.Unwrap` | packages/ingest/src/fetcher.ts:64-74 | an array as it is; null fails; any other non-object gives no listings |
| `Fetcher.UnwrapOrder` | packages/ingest/src/fetcher.ts:66-74 | `.value` is tried before `.listings` before `.results`; none gives no listings |
| `Fetcher.DecodeFeed` | packages/ingest/src/fetcher.ts:43-74 | pipe text gives one record per newline; otherwise a failed JSON.parse fails the attempt and a parsed value is unwrapped |
| `Fetcher.ContentTypeIrrelevant` | packages/ingest/src/fetcher.ts:48-61 | the content type never changes the outcome |
| `WebUtils.DropEnds` | apps/web/src/lib/utils.ts:47 | `slice(1, -1)` drops the first and last character |
| `WebUtils.JoinQuotedFragmentsNoQuote` | apps/web/src/lib/utils.ts:50 | without a quote the quote-pair rewrite changes nothing |
| `WebUtils.RemoveAbsentChar` | apps/web/src/lib/utils.ts:52 | removing a character that does not occur changes nothing |
| `WebUtils.Tidy` | apps/web/src/lib/utils.ts:50-54 | the rewrites leave no quote, no outer white space and only single plain spaces |
| `WebUtils.CleanSteps` | apps/web/src/lib/utils.ts:46-54 | the steps after the first trim leave no quote, no outer white space and only single plain spaces |
| `WebUtils.CleanAddress` | apps/web/src/lib/utils.ts:41-56 | "" for null and ""; otherwise quote-free, trimmed and single-spaced |
| `WebUtils.CleanStepsFixed` | apps/web/src/lib/utils.ts:46-54 | a quote-free, trimmed, single-spaced string passes through unchanged |
| `WebUtils.CleanAddressIdempotent` | apps/web/src/lib/utils.ts:41-56 | cleanAddress is idempotent |
| `WebUtils.JoinQuotedFragmentsPrefix` | apps/web/src/lib/utils.ts:50 | a quote-free prefix passes through the rewrite unchanged |
| `WebUtils.QuotePairBetween` | apps/web/src/lib/utils.ts:50 | a quote pair between two fragments becomes one space |
| `WebUtils.SpaceJoined` | apps/web/src/lib/utils.ts:54 | two trimmed single-spaced strings joined by a space are trimmed and single-spaced |
| `WebUtils.OuterQuotesDropped` | apps/web/src/lib/utils.ts:46-48 | unwrapping `"a" "b"` leaves `a" "b` |
| `WebUtils.QuotedFragmentsJoined` | apps/web/src/lib/utils.ts:49-55 | `"416" "Conant Rd"`-style input comes out as the fragments joined by one space |
| `WebUtils.TitleWord` | apps/web/src/lib/utils.ts:104-107 | an all-digit word is kept; any other word gets its first character upper-cased |
| `WebUtils.TitleWords` | apps/web/src/lib/utils.ts:104-107 | each word is title-cased, position by position |
| `WebUtils.SplitWithoutSeparator` | apps/web/src/lib/utils.ts:103 | a string without the separator splits into itself |
| `WebUtils.SplitAfterPiece` | apps/web/src/lib/utils.ts:103 | a leading piece without the separator splits off first |
| `WebUtils.SplitJoin` | apps/web/src/lib/utils.ts:103-108 | splitting undoes joining when no piece holds the separator |
| `WebUtils.TitleCaseWords` | apps/web/src/lib/utils.ts:101-108 | the title-cased string has the lower-cased string's words, each title-cased, with no upper-case letter after the first |
| `WebUtils.NoUpperInLowered` | apps/web/src/lib/utils.ts:102-103 | no word of a lower-cased string holds an upper-case letter |
| `WebUtils.SplitKeepsCharacters` | apps/web/src/lib/utils.ts:103 | every character of a piece comes from the string |
| `WebUtils.CommaThenSpace` | apps/web/src/lib/utils.ts:66 | after `/,\s*/g` every comma is followed by a space |
| `WebUtils.SpacedCommas` | apps/web/src/lib/utils.ts:67-112 | after `/\s*,\s*/g` every comma is followed by a space |
| `WebUtils.CollapseKeepsCommaSpace` | apps/web/src/lib/utils.ts:113 | collapsing white space keeps a space after every comma |
| `WebUtils.TrimKeepsCommaSpace` | apps/web/src/lib/utils.ts:114 | trimming keeps a space after every comma but a final one |
| `WebUtils.FinishSeparators` | apps/web/src/lib/utils.ts:111-114 | the final clean-up leaves a trimmed, single-spaced string with a space after every inner comma |
| `WebUtils.RemoveCurlyQuotes` | apps/web/src/lib/utils.ts:65 | no typographic quote is left |
| `WebUtils.NormalizeAddress` | apps/web/src/lib/utils.ts:59-117 | "" for null and ""; otherwise trimmed, single-spaced, with a space after every inner comma, and the title-casing of the expanded cleaned address |
| `WebUtils.GetSignalLabel` | apps/web/src/lib/utils.ts:19-28 | the label of a known type, the type itself otherwise |
| `WebUtils.GetSignalColor` | apps/web/src/lib/utils.ts:30-39 | the class of a known type, grey otherwise |
| `WebUtils.LabelsCoverSignalTypes` | apps/web/src/lib/utils.ts:19-28 | a type has a label exactly when it is one of the engine's five, and only then differs from its label |
| `WebUtils.GreyBadges` | apps/web/src/lib/utils.ts:30-39 | a badge is grey exactly for stale and for unknown types |
| `Dedupe.TownText` | scripts/dedupe-listings.js:93 | `(r.town \|\| '')` |
| `Dedupe.GroupKey` | scripts/dedupe-listings.js:93 | the grouping key ends in a bar followed by the lower-cased town (`''` for a null town) |
| `Dedupe.KeyOf` | scripts/dedupe-listings.js:93 | the key function gives every row its grouping key |
| `Dedupe.LowerKeepsBar` | scripts/dedupe-listings.js:93 | lower-casing neither adds nor removes a '\|' |
| `Dedupe.BarIndex` | scripts/dedupe-listings.js:93 | the position of the first '\|', with none before it |
| `Dedupe.BarIndexOfJoined` | scripts/dedupe-listings.js:93 | in `x\|y` with no '\|' in x, the first '\|' is right after x |
| `Dedupe.SeparatorSplits` | scripts/dedupe-listings.js:93 | with no '\|' in the left parts, two keys are equal exactly when both parts are |
| `Dedupe.SameGroup` | scripts/dedupe-listings.js:93 | equal lower-cased addresses and towns share a group; when the addresses hold no '\|', that is the only way to share one |
| `Dedupe.RowsWithKey` | scripts/dedupe-listings.js:92-96 | the rows with a key, in order: exactly the rows whose key it is |
| `Dedupe.KeysMeaning` | scripts/dedupe-listings.js:91-96 | the Map's iteration order lists each key once, exactly the Map's keys, and no entry is empty |
| `Dedupe.GroupsMeaning` | scripts/dedupe-listings.js:91-96 | the Map has an entry exactly for the keys of the rows, and the entry is the rows with that key in order |
| `Dedupe.GroupsOf` | scripts/dedupe-listings.js:91-96 | the Map after the loop: no entry is empty, and an entry holds only rows with its key; GroupsMeaning gives the exact entries |
| `Dedupe.KeysOf` | scripts/dedupe-listings.js:91-96 | the Map's iteration order has no more keys than rows, each a key of the Map; KeysMeaning adds that each appears once |
| `Dedupe.TotalSizeFrame` | scripts/dedupe-listings.js:94-95 | updating an unlisted entry changes no total |
| `Dedupe.TotalSizeGrow` | scripts/dedupe-listings.js:95 | growing a listed entry grows the total by as much |
| `Dedupe.TotalSizeNewKey` | scripts/dedupe-listings.js:94-95 | a new key adds its entry's size |
| `Dedupe.EveryRowGrouped` | scripts/dedupe-listings.js:91-96 | the group sizes add up to the number of rows |
| `Dedupe.GroupRows` | scripts/dedupe-listings.js:91-96 | the loop builds the Map of the rows and its insertion order |
| `Dedupe.Completeness` | scripts/dedupe-listings.js:106-107 | at most 2; 2 exactly with truthy area and price, 0 exactly with neither |
| `Dedupe.Compare` | scripts/dedupe-listings.js:105-111 | more complete rows go first; at equal completeness, two priced rows are ordered dearer first, all others newer first |
| `Dedupe.InOrderTransitive` | scripts/dedupe-listings.js:105-111 | the order the comparator guarantees is transitive |
| `Dedupe.SortGroup` | scripts/dedupe-listings.js:105 | the sort rearranges the group |
| `Dedupe.InsertAtHead` | scripts/dedupe-listings.js:105-111 | a row the comparator puts first may stand before an ordered group |
| `Dedupe.KeepHead` | scripts/dedupe-listings.js:105-111 | a head the comparator keeps may stand before the row and the rest |
| `Dedupe.InsertKeepsOrder` | scripts/dedupe-listings.js:105-111 | inserting into an ordered group keeps it ordered |
| `Dedupe.SortGroupOrdered` | scripts/dedupe-listings.js:104-111 | the sorted group is ordered by completeness, then by price among complete rows and by date among rows with neither |
| `Dedupe.CanonicalIsMostComplete` | scripts/dedupe-listings.js:104-112 | the canonical row is a member of the group with the highest completeness, and the dearest if any row has both area and price |
| `Dedupe.DuplicatesOf` | scripts/dedupe-listings.js:112-117 | one duplicate per row after the canonical one, pairing the canonical id with that row's id |
| `Dedupe.DuplicatesCoverGroup` | scripts/dedupe-listings.js:112-117 | the recorded rows and the canonical row make up the group |
| `Dedupe.GroupCount` | scripts/dedupe-listings.js:101-103 | at most one per group |
| `Dedupe.DuplicateCount` | scripts/dedupe-listings.js:98-118 | one duplicate per row beyond the first of each group; none exactly when no group is reported |
| `Dedupe.DuplicatesPerRun` | scripts/dedupe-listings.js:89-118 | a run records rows minus groups duplicates, and none when the keys are pairwise different |
| `Dedupe.SingleRowPerKey` | scripts/dedupe-listings.js:92-96 | with pairwise different keys, no key collects two rows |
| `Dedupe.NoDuplicatesNoGroups` | scripts/dedupe-listings.js:101-103 | with single-row groups no group is counted |
| `Dedupe.RecordGroup` | scripts/dedupe-listings.js:112-117 | the inner loop inserts the group's duplicates in order |
| `Dedupe.RecordGroups` | scripts/dedupe-listings.js:98-118 | the counting loop counts the groups of more than one row and inserts their duplicates; dupCount is the number inserted |
| `Dedupe.Dedupe` | scripts/dedupe-listings.js:89-121 | the whole script after its SELECT: the inserted rows, and dupCount equal to rows minus distinct keys |
| `HomePage.ParsePriceBucket` | apps/web/src/app/page.tsx:80-90 | the range of a known bucket, null exactly otherwise |
| `HomePage.BucketsNamed` | apps/web/src/app/page.tsx:81-88 | the table's buckets are exactly the six names of the filter bar, and each name parses |
| `HomePage.BucketsTile` | apps/web/src/app/page.tsx:81-88 | the six named buckets are non-empty and contiguous, from 0 to 999999999 |
| `HomePage.PriceInSomeBucket` | apps/web/src/app/page.tsx:81-88 | every price from 0 to 999999999 lies in some bucket |
| `HomePage.ParsePriceBucketExamples` | apps/web/src/lib/__tests__/filters.test.ts:17-35 | the bucket examples of the filter tests |
| `HomePage.GetSignalInfo` | apps/web/src/app/page.tsx:43-69 | the known badge, otherwise the type under a chart icon in grey |
| `HomePage.LabelShowsUnknownType` | apps/web/src/app/page.tsx:43-69 | a badge is labelled with the raw type exactly when the type is unknown, and unknown types are grey |
| `HomePage.EngineTypesOnPage` | apps/web/src/app/page.tsx:43-69 | of the engine's five types only underpriced has a badge; the others show their raw names |
| `HomePage.Placeholder` | apps/web/src/app/page.tsx:110 | a condition is its left-hand side, " $" and the decimal placeholder number |
| `HomePage.PropertyTypeClauses` | apps/web/src/app/page.tsx:109-112 | a condition exactly when the type is set and not 'all' |
| `HomePage.PriceClauses` | apps/web/src/app/page.tsx:114-123 | two conditions, min and max of the bucket, exactly for a known bucket |
| `HomePage.NumberClause` | apps/web/src/app/page.tsx:125-139 | a condition exactly when the number is truthy |
| `HomePage.TownClauses` | apps/web/src/app/page.tsx:141-145 | a case-insensitive substring condition exactly when a town is given |
| `HomePage.SignalTypeClauses` | apps/web/src/app/page.tsx:147-151 | a condition exactly when the type is set and not 'all' |
| `HomePage.Clauses` | apps/web/src/app/page.tsx:105-151 | at most eight conditions |
| `HomePage.NoFilterNoClause` | apps/web/src/app/page.tsx:105-151 | no condition exactly when no filter applies |
| `HomePage.OrderOf` | apps/web/src/app/page.tsx:157-172 | "price-low", "price-high" and "newest" choose their orders, anything else the default |
| `HomePage.SignalRank` | apps/web/src/app/page.tsx:159-162 | rank 0 exactly for the three price types listed first |
| `HomePage.BuildTopOpportunitiesQuery` | apps/web/src/app/page.tsx:103-228 | the conditions and values are the filters' clauses numbered $1 to $n in push order; without values the default order, with values the sort option's |
| `HomePage.NumberedPush` | apps/web/src/app/page.tsx:110-111 | pushing a condition with placeholder `params.length + 1` before its value keeps the numbering |
| `HomePage.BuildConditions` | apps/web/src/app/page.tsx:105-151 | the conditions and values are the filters' clauses, numbered from $1 |
| `HomePage.PushPropertyType` | apps/web/src/app/page.tsx:109-112 | adds the property type clause, keeping the numbering |
| `HomePage.PushPrice` | apps/web/src/app/page.tsx:115-123 | adds the price clauses, keeping the numbering |
| `HomePage.PushNumber` | apps/web/src/app/page.tsx:126-139 | adds one bed or bath clause, keeping the numbering |
| `HomePage.PushTown` | apps/web/src/app/page.tsx:142-145 | adds the town clause, keeping the numbering |
| `HomePage.PushSignalType` | apps/web/src/app/page.tsx:148-151 | adds the signal type clause, keeping the numbering |

## Left out

- Database access, connections, `console` logging, process exits and the `try`/`catch` around database errors are left out. Each query is a function over the table values.
- The clock and timestamps are parameters. This covers the cutoff of computeBaselines, the 14-day window of checkRecentPriceDrop, `NOW()`/`computed_at`, and `today` of extractDOM.
- Signals.SignalComputer.LookupBaseline: `LIMIT 1` without `ORDER BY` returns an unspecified row. The model proves the result is some matching row, not which one.
- Medians.InterpolatedMedian: `percentile_cont` over values the cohort filters already make non-null. Rows with a null column are all excluded by the queries.
- Store.Snapshot: a present snapshot price is taken to be non-negative. Negative list prices are not modelled, so a drop is never measured against an earlier price of 0 or below.
- Signals.ActiveRows: `LIMIT 1000` without `ORDER BY` returns an unspecified set of active rows when there are more than 1000. The model takes the first 1000 in table order; its contract states only what holds for any choice, except that the computation that follows is stated for this one.
- The fetch/retry loop of fetchFeed (packages/ingest/src/fetcher.ts:20-47, 76-96) is left out: the network, the timeout, `sleep` and the retry back-off. Only the decoding of one attempt is modelled.
- The MLSFetcher constructor's option defaults are left out, because they only configure the retry loop.
- Records: feed values that are JSON numbers or booleans rather than text are not modelled. Every field is text or null.
- Strings.ToUpper and Strings.ToLower map ASCII letters only. They do not model JavaScript's full Unicode case mapping.
- TownMapping.TownNumMap: the table is transcribed, but no lookup of a particular code is proved. The module's hard-coded examples are left unstated.
- The extractDOM of packages/ingest/src/utils.ts (lines 22-45) reads the clock, so the day count is a parameter of IngestUtils.NormalizeMLSListing. The clock-free extractDOM of town-mapping.ts is modelled as TownMapping.ExtractDom.
- Medians.MedianOfFour: stated for four values already in ascending order. Unordered samples are covered by Medians.UpperMedian and Medians.MedianRank.
- Baselines.GetPriceBand: NaN and infinite prices are not modelled. Listing prices are finite numbers.
- WebUtils.NormalizeAddress: the directional and street-type regexes (apps/web/src/lib/utils.ts:70-98) are the `expand` parameter. The model does not define `\b` or case-insensitive whole-word matching. So the normalised address is proved equal to the later steps applied to `expand` of the cleaned text, not to a concrete expansion.
- WebUtils.TitleCaseWords: title-casing is stated for that step alone. A later separator clean-up may merge or split words.
- The duplicate `cleanAddress`/`normalizeAddress` of scripts/dedupe-listings.js (lines 21-77) is modelled by the WebUtils functions it copies. scripts/normalize-addresses.js, another copy, is not part of this model.
- formatPrice and getMLSPhotoUrl of the web utilities, and formatPrice of page.tsx, are left out: number formatting through `Intl`, and URL text.
- HomePage: getTopTownsByOpportunities, the React rendering and the parsing of `searchParams` are left out. So is executing the SQL, including ORDER BY and the `LIMIT 20`. The query is modelled as its conditions, parameters and order.
- HomePage.Filters: an undefined text filter is "", and an undefined or NaN number filter is `None`.
- JavaScript object-literal lookups of inherited names (such as `"toString"`) are not modelled. The label, colour, badge, bucket and field tables are exact maps.
- Dedupe.SortGroup: `Array.prototype.sort` is modelled as a stable insertion sort. The comparator is not a consistent order on rows that have exactly one of area and price, and JavaScript leaves the result open for such comparators. So Dedupe.SortGroupOrdered and Dedupe.CanonicalIsMostComplete claim only the completeness order, the price order among complete rows and the date order among rows with neither.
- Dedupe: `ON CONFLICT DO NOTHING` never fires, since `listing_duplicates` has no unique key. Every insert is recorded.
- Backfill: the database driver returns `numeric` columns as text. The model reads them as numbers, so a stored 0 is falsy in the model although the text "0" is truthy in the script.
- Scoring.ScoreStore.ComputeAndPersistScore: the `CREATE TABLE IF NOT EXISTS` and getPersistedScore are left out. The table always exists in the model, and getPersistedScore is a plain read.
- Signals.SignalComputer.ComputeSignals: the statistics query at the top of computeSignals is left out, since it is only logged.
