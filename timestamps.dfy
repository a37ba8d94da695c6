/** Timestamp resolution by first success: the `coalesce` of four
    `to_timestamp` attempts over the `datetime` column. */
module Timestamps {
  import opened Nullable
  import opened Sql

  /** Spark's TimestampType: microseconds since 1970-01-01T00:00:00Z. */
  type Instant = int

  /** Hour of day, as Spark's `hour` returns it. */
  type Hour = h: int | 0 <= h <= 23

  /** Day of week, as Spark's `dayofweek` returns it (1 = Sunday, 7 = Saturday). */
  type DayOfWeek = d: int | 1 <= d <= 7 witness 1

  /** One pattern of `to_timestamp` applied to a non-NULL string. How a
      pattern parses is Spark's business, so each one is a parameter. */
  type Parser = string -> Option<Instant>

  /** The four attempts, named after their patterns, in source order. */
  datatype Parsers = Parsers(
    lenient: Parser,   // to_timestamp(col) with no pattern
    isoZulu: Parser,   // yyyy-MM-dd'T'HH:mm:ss'Z'
    dashed: Parser,    // yyyy-MM-dd HH:mm:ss
    slashed: Parser    // yyyy/MM/dd HH:mm:ss
  )

  /** `to_timestamp(col, pattern)`: NULL for a NULL cell. */
  function ToTimestamp(parse: Parser, cell: Option<string>): Option<Instant> {
    match cell
    case None => None
    case Some(s) => parse(s)
  }

  /** The arguments of the `coalesce`, in the order they are written. */
  function Attempts(p: Parsers, cell: Option<string>): seq<Option<Instant>> {
    [ToTimestamp(p.lenient, cell), ToTimestamp(p.isoZulu, cell),
     ToTimestamp(p.dashed, cell), ToTimestamp(p.slashed, cell)]
  }

  /** The resolved `timestamp` column: the first pattern that parses wins;
      NULL for a NULL cell or when no pattern parses. With ANSI mode off and
      a CORRECTED or LEGACY parser policy, a failed attempt is never an
      error, only a reason to try the next pattern. */
  function ResolveTimestamp(p: Parsers, cell: Option<string>): (r: Option<Instant>)
    ensures cell.None? ==> r.None?
    ensures cell.Some? ==>
      var s := cell.value;
      && (r.None? <==> p.lenient(s).None? && p.isoZulu(s).None? && p.dashed(s).None? && p.slashed(s).None?)
      && (p.lenient(s).Some? ==> r == p.lenient(s))
      && (p.lenient(s).None? && p.isoZulu(s).Some? ==> r == p.isoZulu(s))
      && (p.lenient(s).None? && p.isoZulu(s).None? && p.dashed(s).Some? ==> r == p.dashed(s))
      && (p.lenient(s).None? && p.isoZulu(s).None? && p.dashed(s).None? ==> r == p.slashed(s))
  {
    var args := Attempts(p, cell);
    assert |args| == 4;
    assert (forall j :: 0 <= j < 4 ==> args[j].None?) <==> args[0].None? && args[1].None? && args[2].None? && args[3].None?;
    assert args[0].None? && args[1].None? && args[2].None? ==> (forall j :: 0 <= j < 3 ==> args[j].None?);
    Coalesce(args)
  }

  /** When every pattern that parses a string yields the same instant, the
      precedence order does not matter: the result is that instant. */
  lemma PrecedenceIrrelevantWhenPatternsAgree(p: Parsers, cell: Option<string>, t: Instant)
    requires Some(t) in Attempts(p, cell)
    requires forall i :: 0 <= i < 4 && Attempts(p, cell)[i].Some? ==> Attempts(p, cell)[i] == Some(t)
    ensures ResolveTimestamp(p, cell) == Some(t)
  {
  }
}
