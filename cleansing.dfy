/** The normalise-and-validate chain that builds the cleansed table `df`:
    filter on the parameter, add `station_id`, `timestamp` and `pm25`,
    drop NULL timestamps and stations, drop out-of-range values, then add
    `hour` and `dow`. */
module Cleansing {
  import opened Nullable
  import opened Sql
  import opened Timestamps

  /** A CSV row: every column is read as a nullable string. */
  datatype RawRow = RawRow(
    parameter: Option<string>,
    location: Option<string>,
    datetime: Option<string>,
    value: Option<string>
  )

  /** The Spark functions the chain calls, whose semantics are Spark's. */
  datatype Library = Library(
    parsers: Parsers,                    // the four `to_timestamp` patterns
    toDouble: string -> Option<real>,    // `cast("double")` of a non-NULL string
    hourOf: Instant -> Hour,             // `hour`
    dayOfWeekOf: Instant -> DayOfWeek    // `dayofweek`
  )

  /** The exact spellings that `isin` accepts for the parameter. */
  const Pm25Spellings: set<string> := {"pm25", "PM2.5", "pm2.5"}

  /** A row after the `withColumn` steps for `station_id`, `timestamp` and
      `pm25`: the raw columns stay, the new ones may still be NULL. */
  datatype Typed = Typed(
    raw: RawRow,
    stationId: Option<string>,
    timestamp: Option<Instant>,
    pm25: Option<real>
  )

  /** A row of the cleansed table: the raw columns and the five derived ones,
      none of which is NULL. */
  datatype Reading = Reading(
    raw: RawRow,
    stationId: string,
    timestamp: Instant,
    pm25: real,
    hour: Hour,
    dow: DayOfWeek
  )

  /** `cast("double")`: NULL for a NULL cell. */
  function CastDouble(lib: Library, cell: Option<string>): Option<real> {
    match cell
    case None => None
    case Some(s) => lib.toDouble(s)
  }

  /** The first filter: `parameter` is one of the accepted spellings. */
  function IsPm25(row: RawRow): Bool3 {
    IsIn(row.parameter, Pm25Spellings)
  }

  /** The three `withColumn` steps that add `station_id`, `timestamp`, `pm25`. */
  function AddColumns(lib: Library, rows: seq<RawRow>): seq<Typed> {
    seq(|rows|, i requires 0 <= i < |rows| =>
      Typed(rows[i], rows[i].location, ResolveTimestamp(lib.parsers, rows[i].datetime), CastDouble(lib, rows[i].value)))
  }

  /** The second filter: `timestamp` and `station_id` are not NULL. */
  function HasTimeAndStation(t: Typed): Bool3 {
    And(IsNotNull(t.timestamp), IsNotNull(t.stationId))
  }

  /** The third filter: `0 <= pm25 <= 1000`, NULL when `pm25` is NULL. */
  function Pm25InRange(t: Typed): Bool3 {
    And(AtLeast(t.pm25, 0.0), AtMost(t.pm25, 1000.0))
  }

  /** A typed row whose new columns are all present. */
  predicate Complete(t: Typed) {
    t.stationId.Some? && t.timestamp.Some? && t.pm25.Some?
  }

  /** The last two `withColumn` steps, `hour` and `dow`. */
  function AddTimeParts(lib: Library, ts: seq<Typed>): (r: seq<Reading>)
    requires forall i :: 0 <= i < |ts| ==> Complete(ts[i])
  {
    seq(|ts|, i requires 0 <= i < |ts| && Complete(ts[i]) =>
      var t := ts[i];
      Reading(t.raw, t.stationId.value, t.timestamp.value, t.pm25.value,
              lib.hourOf(t.timestamp.value), lib.dayOfWeekOf(t.timestamp.value)))
  }

  /** The chain up to the last filter: typed rows that passed all three filters. */
  function Validated(lib: Library, rows: seq<RawRow>): (ts: seq<Typed>)
    ensures |ts| <= |rows|
    ensures forall i :: 0 <= i < |ts| ==> Complete(ts[i]) && 0.0 <= ts[i].pm25.value <= 1000.0
  {
    var withPm25 := Filter(rows, IsPm25);
    var typed := AddColumns(lib, withPm25);
    var present := Filter(typed, HasTimeAndStation);
    var inRange := Filter(present, Pm25InRange);
    assert forall i :: 0 <= i < |inRange| ==> inRange[i] in present;
    inRange
  }

  /** The whole chain, step by step as written: the cleansed table. */
  function Cleanse(lib: Library, rows: seq<RawRow>): (out: seq<Reading>)
    ensures |out| <= |rows|
    ensures forall i :: 0 <= i < |out| ==> 0.0 <= out[i].pm25 <= 1000.0
  {
    AddTimeParts(lib, Validated(lib, rows))
  }

  /** The acceptance rule in plain booleans: which raw rows are kept. */
  predicate Accepted(lib: Library, row: RawRow) {
    && row.parameter.Some? && row.parameter.value in Pm25Spellings
    && row.location.Some?
    && ResolveTimestamp(lib.parsers, row.datetime).Some?
    && CastDouble(lib, row.value).Some?
    && 0.0 <= CastDouble(lib, row.value).value <= 1000.0
  }

  /** One raw row on its own: the reading it becomes, or NULL when it is
      dropped. With ANSI mode off and a CORRECTED or LEGACY parser policy,
      dropping is never an error, only an absent reading. */
  function Normalize(lib: Library, row: RawRow): (r: Option<Reading>)
    ensures r.Some? <==> Accepted(lib, row)
    ensures r.Some? ==>
      && r.value.raw == row
      && Some(r.value.stationId) == row.location
      && Some(r.value.timestamp) == ResolveTimestamp(lib.parsers, row.datetime)
      && Some(r.value.pm25) == CastDouble(lib, row.value)
      && 0.0 <= r.value.pm25 <= 1000.0
      && r.value.hour == lib.hourOf(r.value.timestamp)
      && r.value.dow == lib.dayOfWeekOf(r.value.timestamp)
  {
    match (row.parameter, row.location, ResolveTimestamp(lib.parsers, row.datetime), CastDouble(lib, row.value))
    case (Some(p), Some(station), Some(t), Some(v)) =>
      if p in Pm25Spellings && 0.0 <= v <= 1000.0
      then Some(Reading(row, station, t, v, lib.hourOf(t), lib.dayOfWeekOf(t)))
      else None
    case _ => None
  }

  /** A reading, or nothing, as a table of at most one row. */
  function AsRows(r: Option<Reading>): seq<Reading> {
    match r
    case None => []
    case Some(rd) => [rd]
  }

  /** The reference table: each raw row normalised on its own, in order,
      keeping the ones that are accepted. */
  function Collect(lib: Library, rows: seq<RawRow>): seq<Reading> {
    if rows == [] then [] else AsRows(Normalize(lib, rows[0])) + Collect(lib, rows[1..])
  }

  /** The raw columns of a table of readings. */
  function RawsOf(table: seq<Reading>): seq<RawRow> {
    seq(|table|, i requires 0 <= i < |table| => table[i].raw)
  }

  /** The chain on one row is that row normalised on its own. */
  lemma CleanseSingleton(lib: Library, row: RawRow)
    ensures Cleanse(lib, [row]) == AsRows(Normalize(lib, row))
  {
    var typed := AddColumns(lib, Filter([row], IsPm25));
    assert [row][1..] == [];
    if IsPm25(row) == True {
      assert typed == [Typed(row, row.location, ResolveTimestamp(lib.parsers, row.datetime), CastDouble(lib, row.value))];
      assert typed[1..] == [];
    } else {
      assert typed == [];
    }
  }

  lemma AddColumnsConcat(lib: Library, a: seq<RawRow>, b: seq<RawRow>)
    ensures AddColumns(lib, a + b) == AddColumns(lib, a) + AddColumns(lib, b)
  {
  }

  lemma AddTimePartsConcat(lib: Library, a: seq<Typed>, b: seq<Typed>)
    requires forall i :: 0 <= i < |a| ==> Complete(a[i])
    requires forall i :: 0 <= i < |b| ==> Complete(b[i])
    ensures forall i :: 0 <= i < |a + b| ==> Complete((a + b)[i])
    ensures AddTimeParts(lib, a + b) == AddTimeParts(lib, a) + AddTimeParts(lib, b)
  {
  }

  lemma ValidatedConcat(lib: Library, a: seq<RawRow>, b: seq<RawRow>)
    ensures Validated(lib, a + b) == Validated(lib, a) + Validated(lib, b)
  {
    FilterConcat(a, b, IsPm25);
    var pa, pb := Filter(a, IsPm25), Filter(b, IsPm25);
    AddColumnsConcat(lib, pa, pb);
    var ta, tb := AddColumns(lib, pa), AddColumns(lib, pb);
    FilterConcat(ta, tb, HasTimeAndStation);
    var sa, sb := Filter(ta, HasTimeAndStation), Filter(tb, HasTimeAndStation);
    FilterConcat(sa, sb, Pm25InRange);
  }

  /** The chain runs per partition: cleansing a concatenation cleanses each part. */
  lemma CleanseConcat(lib: Library, a: seq<RawRow>, b: seq<RawRow>)
    ensures Cleanse(lib, a + b) == Cleanse(lib, a) + Cleanse(lib, b)
  {
    ValidatedConcat(lib, a, b);
    AddTimePartsConcat(lib, Validated(lib, a), Validated(lib, b));
  }

  /** The step-by-step chain equals the per-row reference: filtering and
      adding columns in the order written is the same as normalising
      each row alone and keeping the accepted ones. */
  lemma {:induction false} CleanseIsCollect(lib: Library, rows: seq<RawRow>)
    ensures Cleanse(lib, rows) == Collect(lib, rows)
  {
    if rows == [] {
      assert Filter(rows, IsPm25) == [];
    } else {
      assert rows == [rows[0]] + rows[1..];
      CleanseConcat(lib, [rows[0]], rows[1..]);
      CleanseSingleton(lib, rows[0]);
      CleanseIsCollect(lib, rows[1..]);
    }
  }

  /** Every reading of the reference table is its own raw row normalised. */
  lemma {:induction false} CollectSound(lib: Library, rows: seq<RawRow>)
    ensures forall i :: 0 <= i < |Collect(lib, rows)| ==>
      Normalize(lib, Collect(lib, rows)[i].raw) == Some(Collect(lib, rows)[i])
  {
    if rows != [] {
      CollectSound(lib, rows[1..]);
    }
  }

  /** Every cleansed row is its own raw row normalised: the parameter is an
      accepted spelling, `station_id` is `location` unchanged, `timestamp`
      is the resolved one, `pm25` is the cast value within [0, 1000], and
      `hour` and `dow` are those of the row's own timestamp. */
  lemma CleanseSound(lib: Library, rows: seq<RawRow>)
    ensures forall i :: 0 <= i < |Cleanse(lib, rows)| ==>
      Normalize(lib, Cleanse(lib, rows)[i].raw) == Some(Cleanse(lib, rows)[i])
  {
    CleanseIsCollect(lib, rows);
    CollectSound(lib, rows);
  }

  lemma RawsOfConcat(x: seq<Reading>, y: seq<Reading>)
    ensures RawsOf(x + y) == RawsOf(x) + RawsOf(y)
  {
  }

  lemma RawsOfOne(lib: Library, row: RawRow)
    ensures RawsOf(AsRows(Normalize(lib, row))) == if Accepted(lib, row) then [row] else []
  {
  }

  /** The raw rows behind the reference table are exactly the accepted
      input rows, each as often as it occurs in the input. */
  lemma {:induction false} CollectKeepsAccepted(lib: Library, rows: seq<RawRow>)
    ensures forall row :: multiset(RawsOf(Collect(lib, rows)))[row] ==
                         (if Accepted(lib, row) then multiset(rows)[row] else 0)
  {
    if rows != [] {
      CollectKeepsAccepted(lib, rows[1..]);
      var head := AsRows(Normalize(lib, rows[0]));
      var rest := Collect(lib, rows[1..]);
      RawsOfConcat(head, rest);
      RawsOfOne(lib, rows[0]);
      assert rows == [rows[0]] + rows[1..];
      assert multiset(rows) == multiset{rows[0]} + multiset(rows[1..]);
      var kept := if Accepted(lib, rows[0]) then [rows[0]] else [];
      assert multiset(RawsOf(Collect(lib, rows))) == multiset(kept) + multiset(RawsOf(rest));
    }
  }

  /** The cleansed table holds exactly the accepted input rows: nothing is
      added, each output row comes from one input row, and no accepted
      row is lost (counting repeated rows). */
  lemma CleanseKeepsAccepted(lib: Library, rows: seq<RawRow>)
    ensures forall row :: multiset(RawsOf(Cleanse(lib, rows)))[row] ==
                         (if Accepted(lib, row) then multiset(rows)[row] else 0)
  {
    CleanseIsCollect(lib, rows);
    CollectKeepsAccepted(lib, rows);
  }

  lemma CleanseSplit(lib: Library, b: seq<RawRow>, j: nat)
    requires j < |b|
    ensures Cleanse(lib, b) == Cleanse(lib, b[..j]) + Cleanse(lib, [b[j]]) + Cleanse(lib, b[j + 1..])
  {
    assert b == b[..j] + ([b[j]] + b[j + 1..]);
    CleanseConcat(lib, b[..j], [b[j]] + b[j + 1..]);
    CleanseConcat(lib, [b[j]], b[j + 1..]);
  }

  /** Cleansing does not depend on the order of the input rows. */
  lemma {:induction false} CleansePermutation(lib: Library, a: seq<RawRow>, b: seq<RawRow>)
    requires multiset(a) == multiset(b)
    ensures multiset(Cleanse(lib, a)) == multiset(Cleanse(lib, b))
    decreases |a|
  {
    if a == [] {
      assert b == [];
    } else {
      assert a[0] in multiset(b);
      var j :| 0 <= j < |b| && b[j] == a[0];
      SplitAt(b, j);
      var rest := b[..j] + b[j + 1..];
      assert a == [a[0]] + a[1..];
      assert multiset(a[1..]) == multiset(rest);
      CleansePermutation(lib, a[1..], rest);
      CleanseConcat(lib, [a[0]], a[1..]);
      CleanseSplit(lib, b, j);
      CleanseConcat(lib, b[..j], b[j + 1..]);
    }
  }

  /** A parameter spelled in any other way, such as "Pm25", drops the row. */
  lemma OtherSpellingDropped(lib: Library, row: RawRow)
    requires row.parameter == Some("Pm25")
    ensures Normalize(lib, row) == None
  {
  }

  /** A value whose cast fails (NULL), such as "abc", drops the row. */
  lemma FailedCastDropped(lib: Library, row: RawRow)
    requires row.value.Some? && lib.toDouble(row.value.value) == None
    ensures Normalize(lib, row) == None
  {
  }

  /** An out-of-range value, such as 1500, drops the row: it is not clamped. */
  lemma OutOfRangeDropped(lib: Library, row: RawRow)
    requires row.value.Some? && lib.toDouble(row.value.value) == Some(1500.0)
    ensures Normalize(lib, row) == None
  {
  }

  /** Three raw rows at station S1: two PM2.5 readings in hour 0 and an
      ozone reading. */
  function ExampleBatch(): seq<RawRow> {
    [RawRow(Some("pm25"), Some("S1"), Some("2024-01-01T00:00:00Z"), Some("10")),
     RawRow(Some("pm25"), Some("S1"), Some("2024-01-01T00:30:00Z"), Some("20")),
     RawRow(Some("o3"), Some("S1"), Some("2024-01-01T01:00:00Z"), Some("5"))]
  }

  /** Whatever the library does otherwise, if the two PM2.5 rows parse to
      instants and their values cast to 10 and 20, the ozone row is dropped
      and the cleansed table holds those two readings. */
  lemma ExampleBatchCleansed(lib: Library, t1: Instant, t2: Instant)
    requires lib.parsers.lenient("2024-01-01T00:00:00Z") == Some(t1)
    requires lib.parsers.lenient("2024-01-01T00:30:00Z") == Some(t2)
    requires lib.toDouble("10") == Some(10.0) && lib.toDouble("20") == Some(20.0)
    ensures Cleanse(lib, ExampleBatch()) ==
      [Reading(ExampleBatch()[0], "S1", t1, 10.0, lib.hourOf(t1), lib.dayOfWeekOf(t1)),
       Reading(ExampleBatch()[1], "S1", t2, 20.0, lib.hourOf(t2), lib.dayOfWeekOf(t2))]
  {
    var rows := ExampleBatch();
    CleanseIsCollect(lib, rows);
    assert rows[1..][1..][1..] == [];
    assert Normalize(lib, rows[2]) == None;
  }
}
