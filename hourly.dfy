/** The `hourly` table: `groupBy("station_id", "hour")` with the average
    of `pm25` per group, and the partial sums and counts through which
    such an average is accumulated and merged. */
module Hourly {
  import opened Nullable
  import opened Sql
  import opened Timestamps
  import opened Cleansing

  /** A group key of the hourly table. */
  type Key = (string, Hour)

  function KeyOf(r: Reading): Key {
    (r.stationId, r.hour)
  }

  /** Group membership as a SQL condition (keys are never NULL here). */
  function KeyIs(k: Key): Reading -> Bool3 {
    r => if KeyOf(r) == k then True else False
  }

  /** The rows of one group. */
  function Group(rows: seq<Reading>, k: Key): seq<Reading> {
    Filter(rows, KeyIs(k))
  }

  /** The distinct keys present in a table. */
  function Keys(rows: seq<Reading>): set<Key> {
    set i | 0 <= i < |rows| :: KeyOf(rows[i])
  }

  /** The sum of `pm25` over a table. */
  function SumPm25(rows: seq<Reading>): real {
    if rows == [] then 0.0 else rows[0].pm25 + SumPm25(rows[1..])
  }

  /** A key that is present has a non-empty group. */
  lemma GroupNonEmpty(rows: seq<Reading>, k: Key)
    requires k in Keys(rows)
    ensures |Group(rows, k)| > 0
  {
    var i :| 0 <= i < |rows| && KeyOf(rows[i]) == k;
    assert rows[i] in Group(rows, k);
  }

  /** `avg(pm25)` of one group: its sum divided by its count. */
  function Average(rows: seq<Reading>, k: Key): real
    requires k in Keys(rows)
  {
    GroupNonEmpty(rows, k);
    SumPm25(Group(rows, k)) / (|Group(rows, k)| as real)
  }

  /** The hourly table: exactly one entry per distinct (station, hour)
      present in the rows, holding that group's average. */
  function HourlyAverages(rows: seq<Reading>): (m: map<Key, real>)
    ensures forall k :: k in m <==> exists i :: 0 <= i < |rows| && KeyOf(rows[i]) == k
    ensures forall k :: k in m ==>
      |Group(rows, k)| > 0 && m[k] == SumPm25(Group(rows, k)) / (|Group(rows, k)| as real)
  {
    assert forall k :: k in Keys(rows) ==> |Group(rows, k)| > 0 by {
      forall k | k in Keys(rows) { GroupNonEmpty(rows, k); }
    }
    map k | k in Keys(rows) :: Average(rows, k)
  }

  lemma {:induction false} SumConcat(a: seq<Reading>, b: seq<Reading>)
    ensures SumPm25(a + b) == SumPm25(a) + SumPm25(b)
  {
    if a == [] {
      assert a + b == b;
    } else {
      assert (a + b)[1..] == a[1..] + b;
      SumConcat(a[1..], b);
    }
  }

  lemma SumSplit(b: seq<Reading>, j: nat)
    requires j < |b|
    ensures SumPm25(b) == SumPm25(b[..j]) + b[j].pm25 + SumPm25(b[j + 1..])
  {
    assert b == b[..j] + ([b[j]] + b[j + 1..]);
    SumConcat(b[..j], [b[j]] + b[j + 1..]);
    assert ([b[j]] + b[j + 1..])[1..] == b[j + 1..];
  }

  /** A sum of values within [lo, hi] lies within count * [lo, hi]. */
  lemma {:induction false} SumBounds(rows: seq<Reading>, lo: real, hi: real)
    requires forall i :: 0 <= i < |rows| ==> lo <= rows[i].pm25 <= hi
    ensures lo * (|rows| as real) <= SumPm25(rows) <= hi * (|rows| as real)
  {
    if rows != [] {
      SumBounds(rows[1..], lo, hi);
    }
  }

  /** The sum does not depend on the order of the rows. */
  lemma {:induction false} SumPermutation(a: seq<Reading>, b: seq<Reading>)
    requires multiset(a) == multiset(b)
    ensures SumPm25(a) == SumPm25(b)
    decreases |a|
  {
    if a == [] {
      assert b == [];
    } else {
      assert a[0] in multiset(b);
      var j :| 0 <= j < |b| && b[j] == a[0];
      SplitAt(b, j);
      var rest := b[..j] + b[j + 1..];
      assert a == [a[0]] + a[1..];
      assert multiset(a[1..]) == multiset(rest);
      SumPermutation(a[1..], rest);
      SumSplit(b, j);
      SumConcat(b[..j], b[j + 1..]);
    }
  }

  /** Each hourly average lies between any bounds of its group's values,
      in particular between the group's minimum and maximum. */
  lemma AverageWithinGroupBounds(rows: seq<Reading>, k: Key, lo: real, hi: real)
    requires k in Keys(rows)
    requires forall i :: 0 <= i < |rows| && KeyOf(rows[i]) == k ==> lo <= rows[i].pm25 <= hi
    ensures k in HourlyAverages(rows)
    ensures lo <= HourlyAverages(rows)[k] <= hi
  {
    AverageWithin(rows, k, lo, hi);
  }

  lemma AverageWithin(rows: seq<Reading>, k: Key, lo: real, hi: real)
    requires k in Keys(rows)
    requires forall i :: 0 <= i < |rows| && KeyOf(rows[i]) == k ==> lo <= rows[i].pm25 <= hi
    ensures lo <= Average(rows, k) <= hi
  {
    GroupWithinBounds(rows, k, lo, hi);
    GroupNonEmpty(rows, k);
    MeanBounds(Group(rows, k), lo, hi);
  }

  /** The mean of values within [lo, hi] lies within [lo, hi]. */
  lemma MeanBounds(g: seq<Reading>, lo: real, hi: real)
    requires |g| > 0
    requires forall i :: 0 <= i < |g| ==> lo <= g[i].pm25 <= hi
    ensures lo <= SumPm25(g) / (|g| as real) <= hi
  {
    SumBounds(g, lo, hi);
    BetweenByDivision(SumPm25(g), |g| as real, lo, hi);
  }

  /** Bounds on a group's rows in the table hold of the group itself. */
  lemma GroupWithinBounds(rows: seq<Reading>, k: Key, lo: real, hi: real)
    requires forall i :: 0 <= i < |rows| && KeyOf(rows[i]) == k ==> lo <= rows[i].pm25 <= hi
    ensures forall i :: 0 <= i < |Group(rows, k)| ==> lo <= Group(rows, k)[i].pm25 <= hi
  {
    var g := Group(rows, k);
    forall i | 0 <= i < |g| ensures lo <= g[i].pm25 <= hi {
      assert g[i] in rows;
      var j :| 0 <= j < |rows| && rows[j] == g[i];
    }
  }

  /** lo * n <= s <= hi * n with n > 0 gives lo <= s / n <= hi. */
  lemma BetweenByDivision(s: real, n: real, lo: real, hi: real)
    requires n > 0.0
    requires lo * n <= s <= hi * n
    ensures lo <= s / n <= hi
  {
  }

  /** Every hourly average of a cleansed table lies in [0, 1000]. */
  lemma HourlyWithinPhysicalRange(lib: Library, raws: seq<RawRow>)
    ensures forall k :: k in HourlyAverages(Cleanse(lib, raws)) ==>
      0.0 <= HourlyAverages(Cleanse(lib, raws))[k] <= 1000.0
  {
    var rows := Cleanse(lib, raws);
    assert forall i :: 0 <= i < |rows| ==> 0.0 <= rows[i].pm25 <= 1000.0;
    var m := HourlyAverages(rows);
    assert m.Keys == Keys(rows);
    forall k | k in m ensures 0.0 <= m[k] <= 1000.0 {
      AverageWithinGroupBounds(rows, k, 0.0, 1000.0);
    }
  }

  /** The hourly table does not depend on the order of its input rows. */
  lemma HourlyPermutation(a: seq<Reading>, b: seq<Reading>)
    requires multiset(a) == multiset(b)
    ensures HourlyAverages(a) == HourlyAverages(b)
  {
    forall k ensures k in Keys(a) <==> k in Keys(b) {
      if k in Keys(a) {
        var i :| 0 <= i < |a| && KeyOf(a[i]) == k;
        assert a[i] in multiset(b);
      }
      if k in Keys(b) {
        var i :| 0 <= i < |b| && KeyOf(b[i]) == k;
        assert b[i] in multiset(a);
      }
    }
    forall k | k in Keys(a) ensures Average(a, k) == Average(b, k) {
      FilterCount(a, KeyIs(k));
      FilterCount(b, KeyIs(k));
      assert multiset(Group(a, k)) == multiset(Group(b, k));
      SumPermutation(Group(a, k), Group(b, k));
      assert |Group(a, k)| == |multiset(Group(a, k))|;
    }
  }

  /** The hourly table of a batch does not depend on the order of the raw rows. */
  lemma HourlyOrderIndependent(lib: Library, a: seq<RawRow>, b: seq<RawRow>)
    requires multiset(a) == multiset(b)
    ensures HourlyAverages(Cleanse(lib, a)) == HourlyAverages(Cleanse(lib, b))
  {
    CleansePermutation(lib, a, b);
    HourlyPermutation(Cleanse(lib, a), Cleanse(lib, b));
  }

  /** A running aggregate of one group: sum and count of `pm25`. */
  datatype Running = Running(sum: real, count: nat)

  /** Two running aggregates of one group, combined: sums and counts add. */
  function Combine(x: Running, y: Running): Running {
    Running(x.sum + y.sum, x.count + y.count)
  }

  /** The running aggregate of one group of a table. */
  function Summary(rows: seq<Reading>, k: Key): Running {
    Running(SumPm25(Group(rows, k)), |Group(rows, k)|)
  }

  /** The running aggregates of a table, one per present key. */
  function Partial(rows: seq<Reading>): map<Key, Running> {
    map k | k in Keys(rows) :: Summary(rows, k)
  }

  /** Merging the aggregates of two disjoint shards: counts and sums add. */
  function Merge(p: map<Key, Running>, q: map<Key, Running>): (m: map<Key, Running>)
    ensures m.Keys == p.Keys + q.Keys
  {
    map k | k in p.Keys + q.Keys ::
      if k in p && k in q then Combine(p[k], q[k])
      else if k in p then p[k]
      else q[k]
  }

  /** Adding one reading to the aggregates: its group's count goes up by one
      and its sum by the reading's value; other groups are untouched. */
  function Accumulate(acc: map<Key, Running>, r: Reading): map<Key, Running> {
    var k := KeyOf(r);
    acc[k := if k in acc then Running(acc[k].sum + r.pm25, acc[k].count + 1) else Running(r.pm25, 1)]
  }

  /** Feeding the rows into the aggregates one at a time, in order. */
  function Fold(rows: seq<Reading>): map<Key, Running> {
    if rows == [] then map[] else Accumulate(Fold(rows[..|rows| - 1]), rows[|rows| - 1])
  }

  /** Aggregates in which every group has been seen at least once. */
  ghost predicate Counted(p: map<Key, Running>) {
    forall k :: k in p ==> p[k].count > 0
  }

  /** The final step: each group's average is its sum over its count. */
  function Finish(p: map<Key, Running>): map<Key, real>
    requires Counted(p)
  {
    map k | k in p :: p[k].sum / (p[k].count as real)
  }

  lemma GroupConcat(a: seq<Reading>, b: seq<Reading>, k: Key)
    ensures Group(a + b, k) == Group(a, k) + Group(b, k)
  {
    FilterConcat(a, b, KeyIs(k));
  }

  lemma KeysConcat(a: seq<Reading>, b: seq<Reading>)
    ensures Keys(a + b) == Keys(a) + Keys(b)
  {
    forall k | k in Keys(a) ensures k in Keys(a + b) {
      var i :| 0 <= i < |a| && KeyOf(a[i]) == k;
      assert (a + b)[i] == a[i];
    }
    forall k | k in Keys(a + b) ensures k in Keys(a) + Keys(b) {
      var i :| 0 <= i < |a + b| && KeyOf((a + b)[i]) == k;
      if i >= |a| {
        assert KeyOf(b[i - |a|]) == k;
      }
    }
    forall k | k in Keys(b) ensures k in Keys(a + b) {
      var i :| 0 <= i < |b| && KeyOf(b[i]) == k;
      assert (a + b)[|a| + i] == b[i];
    }
  }

  /** A non-empty group belongs to a present key. */
  lemma GroupHasKey(rows: seq<Reading>, k: Key)
    ensures |Group(rows, k)| > 0 ==> k in Keys(rows)
  {
    var g := Group(rows, k);
    if |g| > 0 {
      assert g[0] in rows && KeyOf(g[0]) == k;
      var i :| 0 <= i < |rows| && rows[i] == g[0];
      assert KeyOf(rows[i]) == k;
    }
  }

  /** A key absent from a table has an empty group there. */
  lemma GroupOfAbsentKey(rows: seq<Reading>, k: Key)
    requires k !in Keys(rows)
    ensures Group(rows, k) == []
  {
    GroupHasKey(rows, k);
  }

  /** The aggregates of a table are every group seen at least once. */
  lemma PartialCounted(rows: seq<Reading>)
    ensures Counted(Partial(rows))
  {
    forall k | k in Partial(rows) ensures Partial(rows)[k].count > 0 {
      GroupNonEmpty(rows, k);
    }
  }

  lemma PartialAt(rows: seq<Reading>, k: Key)
    ensures k in Partial(rows) <==> k in Keys(rows)
    ensures k in Keys(rows) ==> Partial(rows)[k] == Summary(rows, k)
  {
  }

  lemma MergeAt(p: map<Key, Running>, q: map<Key, Running>, k: Key)
    requires k in p || k in q
    ensures k in Merge(p, q)
    ensures k in p && k in q ==> Merge(p, q)[k] == Combine(p[k], q[k])
    ensures k in p && k !in q ==> Merge(p, q)[k] == p[k]
    ensures k !in p && k in q ==> Merge(p, q)[k] == q[k]
  {
  }

  /** The aggregate of a group over a concatenation combines the parts'. */
  lemma SummaryConcat(a: seq<Reading>, b: seq<Reading>, k: Key)
    ensures Summary(a + b, k) == Combine(Summary(a, k), Summary(b, k))
  {
    GroupConcat(a, b, k);
    SumConcat(Group(a, k), Group(b, k));
  }

  /** A key absent from a table has an empty aggregate there. */
  lemma SummaryOfAbsentKey(rows: seq<Reading>, k: Key)
    requires k !in Keys(rows)
    ensures Summary(rows, k) == Running(0.0, 0)
  {
    GroupOfAbsentKey(rows, k);
  }

  lemma MergeOfShardsAt(a: seq<Reading>, b: seq<Reading>, k: Key)
    requires k in Keys(a) + Keys(b)
    ensures k in Keys(a + b)
    ensures Partial(a + b)[k] == Merge(Partial(a), Partial(b))[k]
  {
    KeysConcat(a, b);
    SummaryConcat(a, b, k);
    PartialAt(a + b, k);
    PartialAt(a, k);
    PartialAt(b, k);
    MergeAt(Partial(a), Partial(b), k);
    if k !in Keys(a) {
      SummaryOfAbsentKey(a, k);
    } else if k !in Keys(b) {
      SummaryOfAbsentKey(b, k);
    }
  }

  /** Sharding law: the aggregates of a concatenation are the merge of the
      aggregates of its two parts. */
  lemma MergeOfShards(a: seq<Reading>, b: seq<Reading>)
    ensures Partial(a + b) == Merge(Partial(a), Partial(b))
  {
    var whole, merged := Partial(a + b), Merge(Partial(a), Partial(b));
    KeysConcat(a, b);
    assert whole.Keys == Keys(a + b);
    assert merged.Keys == Keys(a) + Keys(b);
    forall k | k in whole.Keys ensures whole[k] == merged[k] {
      MergeOfShardsAt(a, b, k);
    }
    SameEntries(whole, merged);
  }

  /** Two maps with the same keys and the same value at each key are equal. */
  lemma SameEntries(m: map<Key, Running>, n: map<Key, Running>)
    requires m.Keys == n.Keys
    requires forall k :: k in m ==> m[k] == n[k]
    ensures m == n
  {
  }

  /** Finishing the aggregates gives the hourly table. */
  lemma FinishPartial(rows: seq<Reading>)
    ensures Counted(Partial(rows))
    ensures Finish(Partial(rows)) == HourlyAverages(rows)
  {
    PartialCounted(rows);
  }

  /** Adding one reading equals merging in the aggregates of a one-row table. */
  lemma AccumulateIsMerge(acc: map<Key, Running>, r: Reading)
    ensures Accumulate(acc, r) == Merge(acc, Partial([r]))
  {
    var k := KeyOf(r);
    assert Keys([r]) == {k};
    assert [r][1..] == [];
    assert Group([r], k) == [r];
    assert SumPm25([r]) == r.pm25;
  }

  /** Streaming law: feeding the rows in one at a time builds exactly the
      aggregates of the whole table. */
  lemma {:induction false} FoldIsPartial(rows: seq<Reading>)
    ensures Fold(rows) == Partial(rows)
  {
    if rows == [] {
      assert Keys(rows) == {};
    } else {
      var init, last := rows[..|rows| - 1], rows[|rows| - 1];
      assert rows == init + [last];
      FoldIsPartial(init);
      AccumulateIsMerge(Partial(init), last);
      MergeOfShards(init, [last]);
    }
  }

  /** A pipeline that computes the hourly table on shards and merges their
      aggregates gets the same table as one that sees all rows at once. */
  lemma HourlyFromShards(a: seq<Reading>, b: seq<Reading>)
    ensures Counted(Merge(Partial(a), Partial(b)))
    ensures HourlyAverages(a + b) == Finish(Merge(Partial(a), Partial(b)))
  {
    MergeOfShards(a, b);
    FinishPartial(a + b);
  }

  /** The running-mean implementation, fed row by row, gives the hourly table. */
  lemma HourlyFromFold(rows: seq<Reading>)
    ensures Counted(Fold(rows))
    ensures HourlyAverages(rows) == Finish(Fold(rows))
  {
    FoldIsPartial(rows);
    FinishPartial(rows);
  }

  lemma GroupOfTwo(r1: Reading, r2: Reading)
    requires KeyOf(r1) == KeyOf(r2)
    ensures Keys([r1, r2]) == {KeyOf(r1)}
    ensures Group([r1, r2], KeyOf(r1)) == [r1, r2]
  {
    var k := KeyOf(r1);
    assert [r1, r2][1..] == [r2];
    assert [r2][1..] == [];
    assert KeyIs(k)(r1) == True && KeyIs(k)(r2) == True;
    assert Filter([r2], KeyIs(k)) == [r2];
  }

  lemma SumOfTwo(r1: Reading, r2: Reading)
    ensures SumPm25([r1, r2]) == r1.pm25 + r2.pm25
  {
    assert [r1, r2][1..] == [r2];
    assert [r2][1..] == [];
    assert SumPm25([r2]) == r2.pm25 + SumPm25([]);
  }

  /** Two readings of one group average to the midpoint of their values. */
  lemma TwoReadingsOneGroup(r1: Reading, r2: Reading)
    requires KeyOf(r1) == KeyOf(r2)
    ensures HourlyAverages([r1, r2]) == map[KeyOf(r1) := (r1.pm25 + r2.pm25) / 2.0]
  {
    GroupOfTwo(r1, r2);
    SumOfTwo(r1, r2);
    var k := KeyOf(r1);
    var m := HourlyAverages([r1, r2]);
    assert m.Keys == {k};
    assert m[k] == Average([r1, r2], k);
  }

  /** With both instants in hour 0, the hourly table is (S1, 0) -> 15. */
  lemma ExampleBatchAverages(lib: Library, t1: Instant, t2: Instant)
    requires lib.parsers.lenient("2024-01-01T00:00:00Z") == Some(t1)
    requires lib.parsers.lenient("2024-01-01T00:30:00Z") == Some(t2)
    requires lib.toDouble("10") == Some(10.0) && lib.toDouble("20") == Some(20.0)
    requires lib.hourOf(t1) == 0 && lib.hourOf(t2) == 0
    ensures HourlyAverages(Cleanse(lib, ExampleBatch())) == map[("S1", 0) := 15.0]
  {
    ExampleBatchCleansed(lib, t1, t2);
    var out := Cleanse(lib, ExampleBatch());
    TwoReadingsOneGroup(out[0], out[1]);
    assert out == [out[0], out[1]];
  }
}
