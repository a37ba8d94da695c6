# Colombian air-quality batch: a Dafny model of the cleansing and hourly-mean core

The batch reads raw OpenAQ readings, keeps the PM2.5 rows, and gives each row
a station, a timestamp and a numeric concentration. It drops rows with a
missing timestamp, a missing station, or a concentration outside [0, 1000].
It adds the hour of day and the day of week, writes the cleansed table, and
averages the concentration per `(station_id, hour)`.

This project models that core as pure Dafny functions over sequences of rows,
with lemmas about them. It has five modules:

- `Nullable` (nullable.dfy): a NULL-able cell, `Option`.
- `Sql` (sql.dfy): the Spark SQL semantics the batch relies on. Booleans are
  three-valued (`Bool3`: TRUE, FALSE, NULL). `AND` follows Kleene logic.
  `isin`, `>=` and `<=` give NULL when their argument is NULL. `filter` keeps
  only the rows whose condition is TRUE. `coalesce` takes the first non-NULL
  argument.
- `Timestamps` (timestamps.dfy): the `coalesce` of the four `to_timestamp`
  attempts, in source order. Each pattern is a parser of type
  `string -> Option<Instant>`. An `Instant` is Spark's microseconds since the
  epoch. How Spark parses a pattern is not visible, so the parsers are
  parameters.
- `Cleansing` (cleansing.dfy): the filter and `withColumn` chain, written
  step by step as the source chains it (`Cleanse`). Beside it is a per-row
  reference, `Normalize`, which gives the reading one raw row becomes, or
  NULL. The lemmas prove the chain equals normalising each row alone and
  keeping the accepted ones. From that they derive what every surviving row
  satisfies, that exactly the accepted rows survive, and that the result does
  not depend on row order. `cast("double")`, `hour` and `dayofweek` are also
  parameters, bundled with the parsers in a `Library` value. Only their
  ranges are fixed: `Hour` is 0..23 and `DayOfWeek` is 1..7, with 1 = Sunday.
- `Hourly` (hourly.dfy): `groupBy("station_id", "hour")` with `avg(pm25)`.
  The lemmas prove there is one entry per distinct key, that each average
  lies within its group's bounds (so within [0, 1000]), and that the table
  does not depend on row order. Spark computes `avg` from a running sum and
  count per group, which can be built one row at a time or per shard and
  then merged. The model has these running aggregates (`Running`, `Merge`,
  `Accumulate`, `Fold`). The lemmas prove that finishing them gives the same
  table as the grouped mean.

Concentrations are mathematical reals, not IEEE doubles.

Three behaviours of the code that a reader might not expect:

- The parameter test is exact membership in {"pm25", "PM2.5", "pm2.5"}. It
  is not case- or punctuation-insensitive, so "Pm25" or "PM25" drops the row.
- `station_id` is checked with `isNotNull` only, so an empty-string location
  that reaches the batch as a string survives.
- The first attempt is `to_timestamp` with no pattern. Then come the
  `'Z'`-literal pattern, the dash pattern and the slash pattern.

## Model

| member | source | states |
|---|---|---|
| `Sql.Coalesce` | datosAireCol.py:15-20 | the result is NULL exactly when every argument is NULL; otherwise it is the first non-NULL argument in order |
| `Timestamps.ResolveTimestamp` | datosAireCol.py:15-20 | a NULL `datetime` gives NULL; otherwise the default parse wins when it succeeds, then the `yyyy-MM-dd'T'HH:mm:ss'Z'` pattern, then `yyyy-MM-dd HH:mm:ss`, then `yyyy/MM/dd HH:mm:ss`; NULL exactly when all four fail |
| `Timestamps.PrecedenceIrrelevantWhenPatternsAgree` | datosAireCol.py:15-20 | if every pattern that parses the string gives the same instant, the resolved timestamp is that instant, whichever pattern matched first |
| `Sql.Filter` | datosAireCol.py:23-28 | `filter` keeps exactly the rows whose condition is TRUE (no FALSE-or-NULL row, nothing added) and never lengthens the table |
| `Sql.FilterCount` | datosAireCol.py:23-28 | each row whose condition is TRUE is kept as many times as it occurs; every other row occurs zero times |
| `Sql.FilterConcat` | datosAireCol.py:23-28 | filtering a concatenation is filtering each part, so `filter` runs per partition |
| `Cleansing.Validated` | datosAireCol.py:22-28 | every row that passes the three filters has a non-NULL station, timestamp and pm25, with 0 <= pm25 <= 1000 |
| `Cleansing.Cleanse` | datosAireCol.py:22-31 | the cleansed table is no longer than the input, and every row has 0 <= pm25 <= 1000 |
| `Cleansing.Normalize` | datosAireCol.py:22-31 | a raw row yields a reading exactly when it is accepted: parameter in the exact set, location non-NULL, timestamp resolved, cast non-NULL and within [0, 1000]. The reading keeps the raw row, `station_id` is `location` unchanged, `timestamp` is the resolved one, `pm25` is the cast value, and `hour` and `dow` are those of that timestamp |
| `Cleansing.CleanseSingleton` | datosAireCol.py:22-31 | the chain applied to a one-row table gives that row's `Normalize` result |
| `Cleansing.CleanseConcat` | datosAireCol.py:22-31 | cleansing a concatenation is cleansing each part, so the chain runs per partition |
| `Cleansing.CleanseIsCollect` | datosAireCol.py:22-31 | the chain, step by step as written with SQL three-valued filters, equals normalising each raw row alone and keeping the accepted ones, in order |
| `Cleansing.CleanseSound` | datosAireCol.py:22-31 | every cleansed row is its own raw row normalised, so it satisfies every property `Normalize` states |
| `Cleansing.CleanseKeepsAccepted` | datosAireCol.py:22-31 | the raw rows behind the cleansed table are exactly the accepted input rows, each as often as in the input: nothing added, none lost |
| `Cleansing.CleansePermutation` | datosAireCol.py:22-31 | permuting the raw rows permutes the cleansed table (the same multiset of rows) |
| `Cleansing.OtherSpellingDropped` | datosAireCol.py:23 | a row whose parameter is "Pm25" is dropped: the match is exact |
| `Cleansing.FailedCastDropped` | datosAireCol.py:26-28 | a row whose value does not cast to a number (NULL) is dropped |
| `Cleansing.OutOfRangeDropped` | datosAireCol.py:28 | a row whose value is 1500 is dropped, not clamped |
| `Cleansing.ExampleBatchCleansed` | datosAireCol.py:22-31 | with two PM2.5 rows and one ozone row, the ozone row is dropped and the two readings remain, in order |
| `Hourly.HourlyAverages` | datosAireCol.py:36 | the hourly table has an entry for a key exactly when some cleansed row has that `(station_id, hour)`, and that entry is the sum of pm25 over the key's rows divided by their (non-zero) count |
| `Hourly.AverageWithinGroupBounds` | datosAireCol.py:36 | if every row of a group lies in [lo, hi], that group's average lies in [lo, hi]; taking lo and hi as the group's minimum and maximum puts the average between them |
| `Hourly.HourlyWithinPhysicalRange` | datosAireCol.py:28-36 | every average of the hourly table of a cleansed batch lies in [0, 1000] |
| `Hourly.SumPermutation` | datosAireCol.py:36 | the sum of pm25 does not depend on row order |
| `Hourly.HourlyPermutation` | datosAireCol.py:36 | the hourly table of a permuted table is the same map |
| `Hourly.HourlyOrderIndependent` | datosAireCol.py:22-36 | the hourly table of a batch does not depend on the order of the raw rows |
| `Hourly.MergeOfShards` | datosAireCol.py:36 | the running sums and counts of a concatenation are the merge of those of its two parts |
| `Hourly.HourlyFromShards` | datosAireCol.py:36 | merging the aggregates of two shards and dividing sum by count gives the hourly table of the whole |
| `Hourly.AccumulateIsMerge` | datosAireCol.py:36 | adding one reading to the running aggregates (count + 1, sum + value for its key only) is merging in a one-row table |
| `Hourly.FoldIsPartial` | datosAireCol.py:36 | feeding the rows in one at a time builds exactly the aggregates of the whole table |
| `Hourly.HourlyFromFold` | datosAireCol.py:36 | the running-mean computation, row by row, gives the grouped mean |
| `Hourly.TwoReadingsOneGroup` | datosAireCol.py:36 | two readings with one key give a one-entry table holding the midpoint of their values |
| `Hourly.ExampleBatchAverages` | datosAireCol.py:22-36 | with both PM2.5 rows (values 10 and 20) in hour 0, the hourly table is exactly (S1, 0) -> 15 |

## Left out

- Spark session creation, the log level and `spark.stop()` (datosAireCol.py:4-5, 43) are process plumbing.
- The CSV read and the three parquet writes (datosAireCol.py:8-10, 34, 37, 41) are I/O. The model starts from a sequence of rows and ends at in-memory tables.
- A raw row holds only the four columns the chain reads: `parameter`, `location`, `datetime` and `value`. The source's cleansed table also carries every other CSV column unchanged. Here that is the `raw` field, limited to those four.
- A CSV without one of those columns makes Spark fail the whole batch. The model always has all four columns, each one nullable.
- The per-station 90th percentile (`percentile_approx`, datosAireCol.py:39-41) is left out. It is a library approximation over doubles, and the code fixes no accuracy that could be stated.
- How `to_timestamp` parses each pattern, what `cast("double")` accepts, and how `hour` and `dayofweek` split an instant are Spark's rules. They are parameters of the model (`Library`), constrained only by their types.
- The session time zone, which decides `hour` and `dayofweek`, is part of those parameters and is not modelled.
- Spark's error-raising settings are not modelled. The model assumes ANSI mode is off and `spark.sql.legacy.timeParserPolicy` is `CORRECTED` or `LEGACY`, so every failed parse or cast is NULL. Under Spark 3.x's default `EXCEPTION` policy, a pattern string that only the legacy parser accepts raises `SparkUpgradeException`. Under Spark 4.x's default ANSI mode, a failed `cast("double")` or `to_timestamp` raises. Either one aborts the whole batch, which the model does not capture.
- IEEE-754 doubles, NaN and infinities are not modelled. Values are reals, and sums and averages are exact.
- Distributed partitioning, shuffling and concurrency are not modelled. Tables are sequences in input order. Spark promises no row order, and the permutation lemmas show the results do not depend on it.
