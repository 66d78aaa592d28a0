# OLAP cube over wine samples, modelled in Dafny

This project models the `OLAPCube` class of `DM_Ass3.py`. The class is an
in-memory aggregation engine over wine samples. The model covers:

- **The record store.** It is built once from parsed samples. Each record
  gets three derived range labels (alcohol, pH, density) from three
  threshold classifiers. The store is never changed afterwards, so the
  class holds it as a `const` field.
- **Rollup.** For each dimension of a hierarchy, the whole store is grouped
  by that one dimension. Each group gets one row with the `avg`, `sum`,
  `max` or `min` of a measure and the group's size. Rows are in ascending
  key order.
- **Drilldown.** The same, but level k groups by the first k dimensions of
  `[start] + drill`. Keys are tuples, compared lexicographically.
- **Slice.** Keeps the records whose field equals a value, in store order.
  No match gives a "no data" outcome. Otherwise it returns a statistics
  row per measure (count, average, min, max, sum) and the first five
  matched records as sample rows.
- **Dice.** Keeps the records that meet every condition of a dictionary.
  A two-element list or tuple is an inclusive range and anything else is
  an exact match. Conditions are tested in dictionary order and stop at
  the first failure. Dice returns the statistics rows and a per-quality
  distribution (count and percentage, ascending quality).

Each operation returns its result tables instead of printing them. A
Python exception becomes an error value:
- `UnboundAggValue`: an unknown `agg_func` leaves `agg_value` unassigned at
  the first group.
- `ComparisonTypeError`: a range compares a number with a string.

The modules follow the program's structure:

| module | what it holds |
|---|---|
| `Wrappers` | `Option`, `Result` |
| `Classifiers` | the three bucketing functions |
| `Records` | samples, records, dimensions, values, Python's ordering and `<=` on values |
| `Ordering` | strict total orders, lexicographic order, sorting |
| `Counting` | occurrence counts and the partition arithmetic |
| `Aggregation` | the four aggregation kinds and their bounds |
| `Grouping` | group-by, the level tables and their partition and refinement lemmas |
| `Filters` | slice and dice predicates |
| `Reports` | statistics rows, sample rows, the quality distribution |
| `Cube` | the `OLAPCube` class and the loops of its operations |

Each loop of the source that updates variables step by step is a method
with loop invariants, proved against a specification function:
- the `groups` dictionary against `Grouping.GroupMap`;
- the row loop against `Grouping.TableRows`;
- the dice scan against `Filters.DiceFilter`;
- the quality counter against `Counting.Tally`.

The list comprehensions of the source are recursive functions instead:
- the slice filter (`DM_Ass3.py:173`) is `Filters.SliceFilter`;
- the measure columns (`DM_Ass3.py:184` and `DM_Ass3.py:251`) are `Grouping.Project`.

The lemmas then connect those functions to what the source promises:
- the groups partition the store;
- rows are strictly sorted, one per distinct key;
- drilldown levels refine one another;
- min <= avg <= max;
- the distribution counts add up to the number of matched records.

Some behaviour of the code is easy to miss:
- **The early exit in dice is observable.** A later range condition that
  would compare a number with a string is never evaluated once an earlier
  condition fails. So the same record raises or not depending on the order
  of the conditions (`Filters.FirstFailureDecides`).
- **An unknown `agg_func` raises `UnboundLocalError` at the first group.**
  The program lists 'avg', 'sum', 'max' and 'min' as the supported names
  (`DM_Ass3.py:342`). Any other name succeeds only when there is nothing
  to aggregate: an empty store, or an empty hierarchy.
- **Repeated dimensions are accepted.** Nothing checks that a drilldown's
  dimensions are distinct, and the model accepts them too.
- **Groups are never empty, and nothing guards against it.** Every group
  comes from at least one record. The model states non-emptiness as a
  precondition of `Aggregation.Aggregate` and proves it at every call.

## Model

| member | source | states |
|---|---|---|
| Classifiers.Band | DM_Ass3.py:39-64 | the three half-open intervals shared by the classifiers: 0, 1 or 2, each iff the value lies in that interval |
| Classifiers.CategorizeAlcohol | DM_Ass3.py:39-46 | "Low" iff alcohol < 9.5, "Medium" iff 9.5 <= alcohol < 11.5, "High" iff alcohol >= 11.5 |
| Classifiers.CategorizePH | DM_Ass3.py:48-55 | "Very Acidic" iff pH < 3.2, "Acidic" iff 3.2 <= pH < 3.4, "Less Acidic" iff pH >= 3.4 |
| Classifiers.CategorizeDensity | DM_Ass3.py:57-64 | "Light" iff density < 0.996, "Medium" iff 0.996 <= density < 0.998, "Heavy" iff density >= 0.998 |
| Classifiers.AlcoholBoundaries | DM_Ass3.py:41-46 | 9.5 is Medium and 11.5 is High: a value on a threshold goes to the upper bucket |
| Classifiers.PHBoundaries | DM_Ass3.py:50-55 | 3.2 is Acidic and 3.4 is Less Acidic |
| Classifiers.DensityBoundaries | DM_Ass3.py:59-64 | 0.996 is Medium and 0.998 is Heavy |
| Cube.OLAPCube.constructor | DM_Ass3.py:9-37 | the store has one record per sample, in order, each carrying its sample and the labels the three classifiers give it |
| Records.KindOfDimension | DM_Ass3.py:30-33 | a dimension's values are all numbers (the measures and quality) or all labels |
| Records.KeyOf | DM_Ass3.py:138 | the key tuple of a record has one entry per grouping dimension, and entry i is a number exactly when dimension i is a numeric column (so two keys compare position by position on values of one kind) |
| Records.KeyOfPrefix | DM_Ass3.py:132-138 | the key for a longer dimension list starts with the key for its prefix |
| Records.ValueOrder | DM_Ass3.py:109 | Python's `<` on dimension values is a strict total order |
| Records.KeyOrder | DM_Ass3.py:145 | Python's `<` on key tuples is a strict total order |
| Records.AtMost | DM_Ass3.py:228 | Python's `<=` on two values raises exactly when one is a number and the other a string |
| Records.AtMostIsLessOrEqual | DM_Ass3.py:228 | on values of one kind, `<=` is "equal or less" in the sorting order |
| Records.AlcoholLabelOrder | DM_Ass3.py:42-46 | string order puts "High" before "Low" before "Medium" in a rollup on the alcohol range |
| Ordering.Sort | DM_Ass3.py:271 | the result is strictly ascending and has exactly the input's elements |
| Ordering.SortedUnique | DM_Ass3.py:109 | two strictly sorted sequences with the same elements are equal, so the sorted keys do not depend on the order in which groups were first met |
| Aggregation.ParseAggFunc | DM_Ass3.py:110-117 | Avg iff "avg", Sum iff "sum", Max iff "max", Min iff "min", no kind otherwise |
| Aggregation.Maximum | DM_Ass3.py:115 | the maximum is one of the values and bounds all of them from above |
| Aggregation.Minimum | DM_Ass3.py:117 | the minimum is one of the values and bounds all of them from below |
| Aggregation.Total | DM_Ass3.py:113 | Python's `sum` of the group's values, computed exactly; its contract is carried by `TotalBounds` and `MeanTimesCount` |
| Aggregation.Mean | DM_Ass3.py:111 | `statistics.mean` of a non-empty group; its contract is carried by `MeanTimesCount`, `MeanBounds` and `MeanWithinBounds` |
| Aggregation.TotalBounds | DM_Ass3.py:113 | a sum of n values lying in [lo, hi] lies in [n*lo, n*hi] |
| Aggregation.MeanBounds | DM_Ass3.py:111 | the mean of values lying in [lo, hi] lies in [lo, hi] |
| Aggregation.MeanWithinBounds | DM_Ass3.py:111-117 | min <= avg <= max on every non-empty group |
| Aggregation.Aggregate | DM_Ass3.py:110-117 | the if/elif chain on `agg_func`: the mean, sum, maximum or minimum of a non-empty group by kind, with avg, max and min lying between the group's minimum and maximum (the sum's bounds are `TotalBounds`) |
| Aggregation.MeanTimesCount | DM_Ass3.py:111-113 | avg times the group size gives back sum |
| Aggregation.AggregateExample | DM_Ass3.py:110-117 | on [10, 20, 30]: avg 20, sum 60, max 30, min 10 |
| Grouping.Group | DM_Ass3.py:101-103 | a group has exactly the records with that key, and as many as the key occurs among the records' keys |
| Grouping.Project | DM_Ass3.py:103 | the measure column, one value per record in order |
| Grouping.GroupMapSnoc | DM_Ass3.py:102-103 | appending a record's value extends its own key's list (creating it if absent) and leaves every other key alone |
| Grouping.SortKeys | DM_Ass3.py:145 | the dictionary's keys in strictly ascending order, no key lost or added |
| Grouping.TableRowsAt | DM_Ass3.py:109-119 | the table has one row per key, in order, with the aggregate and size of that key's values |
| Grouping.TableIsLevel | DM_Ass3.py:101-119 | the table built from the groups dictionary over its sorted keys is the level table: sorted strictly by key, one row per key present, each row describing its group |
| Grouping.RowOfGroup | DM_Ass3.py:109-119 | a present key's group is non-empty and its row carries the group's aggregate and size |
| Grouping.LevelCountsSum | DM_Ass3.py:101-119 | the Count column of a level adds up to the number of records |
| Grouping.LevelRowPerRecord | DM_Ass3.py:136-139 | every record's key is the key of exactly one row |
| Grouping.LevelRowCount | DM_Ass3.py:109 | a level has as many rows as there are distinct key values |
| Grouping.SortedKeysCount | DM_Ass3.py:145 | strictly sorted keys that are exactly the data's keys number as many as its distinct keys |
| Grouping.LevelRowCounts | DM_Ass3.py:119 | each row's Count is the number of records carrying its key |
| Grouping.QualityLevelExample | DM_Ass3.py:101-119 | a rollup by quality over records of qualities 5, 5, 6, 7, 7 has exactly the rows keyed 5, 6, 7, in that order, with counts 2, 1, 2 |
| Grouping.LevelUnique | DM_Ass3.py:109-119 | a level is determined by the store, the dimensions, the measure and the kind |
| Grouping.GroupRefines | DM_Ass3.py:131-139 | every group of a longer dimension list lies inside the group of its truncated key |
| Grouping.CoarseKeysAreTruncations | DM_Ass3.py:131-139 | every key of the coarser grouping is the truncation of a key of the finer one |
| Grouping.LevelRefines | DM_Ass3.py:131-145 | a finer level never has fewer rows than a coarser one |
| Grouping.SortedKeysRefine | DM_Ass3.py:131-145 | the sorted keys of a grouping are at most as many as those of a finer grouping |
| Grouping.OutcomeRefines | DM_Ass3.py:131-145 | the refinement bound for two levels computed with the same aggregation name |
| Grouping.DrilldownPrefixSnoc | DM_Ass3.py:131-161 | appending the next drilldown level keeps every level grouped by its prefix and the row counts non-decreasing |
| Filters.SliceFilter | DM_Ass3.py:173 | the slice has exactly the records whose field equals the value, and no more records than the store |
| Filters.SliceFilterAppend | DM_Ass3.py:173 | slicing distributes over concatenation, so the kept records stay in store order |
| Filters.SliceIsGroup | DM_Ass3.py:173 | a slice is the group of its value when grouping by that one dimension |
| Filters.Holds | DM_Ass3.py:226-235 | a condition raises exactly when it is a two-element range whose lower bound differs in kind from the field, or whose lower test passes and whose upper bound differs in kind |
| Filters.RangeHolds | DM_Ass3.py:226-230 | on values of one kind, a range condition is the inclusive interval test lo <= v <= hi |
| Filters.Matches | DM_Ass3.py:224-236 | a record matches iff every condition holds |
| Filters.FirstFailureDecides | DM_Ass3.py:225-236 | the first condition that does not hold decides the outcome, whatever the later ones would do |
| Filters.DiceFilter | DM_Ass3.py:222-238 | the dice raises iff some record's test raises; otherwise it keeps exactly the records that match, and no more than the store has |
| Filters.DiceFilterCount | DM_Ass3.py:222-238 | each record occurs among the kept records exactly as often as in the store when it matches, and not at all otherwise, so duplicate records are all kept |
| Filters.DiceFilterAppend | DM_Ass3.py:222-238 | dicing distributes over concatenation: the kept records of a + b are those of a followed by those of b, so the matches stay in store order, and the dice raises iff either part raises |
| Filters.SliceIsDice | DM_Ass3.py:222-238 | a dice with the single exact condition dim = value is the slice on dim |
| Filters.QualityRangeExample | DM_Ass3.py:226-230 | the range [6, 8] on quality admits 7 and rejects 9 |
| Reports.Stats | DM_Ass3.py:185-192 | the statistics row of a measure over a non-empty record list: it names the measure, counts every record, and its min and max bound every record's value (`StatsConsistent` adds that they are attained and bound the average) |
| Reports.StatsConsistent | DM_Ass3.py:250-259 | a statistics row counts every record, min and max are values some record has and bound all others, min <= avg <= max, and avg * count == sum |
| Reports.StatsTotal | DM_Ass3.py:188-191 | a statistics row's average times its count is its sum |
| Reports.DistributionFromTally | DM_Ass3.py:264-274 | rows built from the qualities in ascending order and the counter form the quality distribution |
| Reports.DistributionCountsSum | DM_Ass3.py:264-274 | the distribution's counts add up to the number of matched records |
| Reports.Percentage | DM_Ass3.py:273 | a count's share of the total in percent, exactly: percentage * total == count * 100, a part of the total lies in [0, 100], and the whole total is 100 |
| Reports.PercentagesScale | DM_Ass3.py:270-273 | the percentages of rows over one total add up to the percentage of their summed count |
| Reports.DistributionPercentagesSum | DM_Ass3.py:264-274 | the exact percentages of a non-empty match add up to 100 |
| Counting.TallyContents | DM_Ass3.py:264-266 | the counter has exactly the elements met, each with its number of occurrences |
| Counting.CountsPartition | DM_Ass3.py:101-119 | over distinct keys that cover a sequence, the occurrence counts add up to its length |
| Cube.StatsTable | DM_Ass3.py:183-192 | one statistics row per measure, in order, each the count, mean, min, max and sum of that measure over the records |
| Cube.SampleRows | DM_Ass3.py:198-207 | the first min(5, n) records as sample rows (quality, alcohol, pH, fixed acidity, volatile acidity), in order |
| Cube.DistributionRows | DM_Ass3.py:270-274 | one row per quality, in the given order, with its count and its exact share of the total in percent |
| Cube.TallyQualities | DM_Ass3.py:264-266 | the counter loop computes the counter of the records' qualities |
| Cube.QualityDistribution | DM_Ass3.py:264-274 | the result is the quality distribution of the records: ascending qualities, one per quality present, each with its count and percentage |
| Cube.LevelRows | DM_Ass3.py:109-119 | for a known aggregation, the rows for the keys in order; for an unknown one, the first key raises and only no keys gets through |
| Cube.MatchRecord | DM_Ass3.py:224-236 | the condition loop with its early exit computes Matches |
| Cube.OLAPCube.GroupBy | DM_Ass3.py:101-103 | the dictionary has exactly the keys of the records, each mapped to its group's measure values in store order; the list of keys met has exactly the dictionary's keys |
| Cube.OLAPCube.AggregateLevel | DM_Ass3.py:101-119 | a known aggregation gives the level table, with counts summing to the store size; an unknown one succeeds (with no rows) exactly when the store is empty |
| Cube.OLAPCube.Rollup | DM_Ass3.py:90-121 | one level per hierarchy entry, level i grouping the whole store by that dimension alone; an unknown aggregation raises iff there is a record and a level |
| Cube.OLAPCube.RollupLevels | DM_Ass3.py:97-121 | with the aggregation kind already resolved: one level per hierarchy entry, each the level table of the whole store grouped by that one dimension (no rows with an unknown kind); an unknown kind raises iff the store and the hierarchy are both non-empty |
| Cube.OLAPCube.Drilldown | DM_Ass3.py:123-161 | 1 + len(drill) levels, level k grouping the whole store by the first k dimensions, row counts non-decreasing; an unknown aggregation raises iff the store is non-empty |
| Cube.OLAPCube.DrilldownLevels | DM_Ass3.py:129-161 | with the aggregation kind already resolved: one level per prefix of the dimension list, level k grouping the whole store by its first k dimensions, row counts non-decreasing; an unknown kind raises iff the store is non-empty |
| Cube.OLAPCube.SliceMediumAlcohol | DM_Ass3.py:30-46 | on a store built by the constructor, slicing on the medium alcohol label keeps exactly the records with 9.5 <= alcohol < 11.5 |
| Cube.OLAPCube.Slice | DM_Ass3.py:163-209 | "no data" iff nothing matches; otherwise the statistics of each measure (default fixed acidity, volatile acidity, alcohol) over the slice, and its first min(5, n) records |
| Cube.OLAPCube.Dice | DM_Ass3.py:211-276 | raises iff some record's test raises; "no data" iff nothing matches; otherwise the match count, the statistics of each measure over the matched records and their quality distribution |

## Left out

- Parsing: splitting the delimited text and converting values with `float`, with the text fallback (`DM_Ass3.py:13-37`). The constructor takes samples that are already parsed.
- Table rendering and all console output (`DM_Ass3.py:66-88`, and every `print`). The operations return their tables. The headers built from titled names are display only.
- The CSV reader and the script driver (`DM_Ass3.py:278` onward): file I/O.
- Display rounding: `round(..., 2)` on aggregates and statistics, and `round(..., 1)` with the `%` text on percentages. The model keeps exact values.
- Floating point: measures are exact reals, so the model does not capture float rounding in sums and means.
- Unknown dimension or measure names: in the source these raise `KeyError`. Here dimensions and measures are enumerations, so such a name cannot be written.
- Rows as flat lists: drilldown rows are `list(key) + [value, count]`. The model keeps the key as one tuple field. The scalar-key branch of drilldown's row building is never taken, because drilldown keys are always tuples.
- Rollup keys are scalars in the source and one-element tuples in the model. They sort the same.
- Numbers against labels: the sort treats numbers as less than labels to make the order total. By `Records.KindOfDimension` no sort of group keys ever compares the two.
- Partial output: the printing that happens before an operation raises is left out with the printing.
- `DM_Ass2.py`, `DM_Ass4.py`, `DM_Ass5.py` are not part of this model. They are normalisation formulas, a loop of divisions, and plotting wrappers.
- Dice statistics: the number of matched records is reported as a count and not as the printed sentence.
- Loop structure: the source writes each operation as one method with nested loops. The model lifts each inner loop into a method of its own, proved against its specification function: `Cube.LevelRows`, `Cube.MatchRecord`, `Cube.StatsTable`, `Cube.SampleRows`, `Cube.TallyQualities` and `Cube.DistributionRows`, plus `Cube.OLAPCube.RollupLevels` and `Cube.OLAPCube.DrilldownLevels` once the aggregation name is resolved. The order of evaluation and the results are unchanged.
- Label fields as measures: `Records.Measure` lists only the numeric columns, so a label field such as the alcohol range cannot be passed as a measure. The program offers only the numeric columns as measures (`DM_Ass3.py:346`). Passed anyway, every aggregation kind raises `TypeError` at the first group of a non-empty store, because `round` rejects a string even after `max` or `min` (`DM_Ass3.py:115-117`). Slice and dice raise at `statistics.mean` (`DM_Ass3.py:188`). The model has no such error.
- The `dimensions` and `measures` lists set in the constructor (`DM_Ass3.py:10-11`): no operation reads them.
