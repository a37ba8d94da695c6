/** The parts of Spark SQL's column semantics that the batch relies on:
    three-valued booleans, NULL-propagating predicates, `filter` and
    `coalesce`. */
module Sql {
  import opened Nullable

  /** A SQL boolean: TRUE, FALSE or NULL (here `Unknown`). */
  datatype Bool3 = True | False | Unknown

  /** SQL `AND` (Kleene logic): FALSE beats NULL, NULL beats TRUE. */
  function And(a: Bool3, b: Bool3): Bool3 {
    if a == False || b == False then False
    else if a == True && b == True then True
    else Unknown
  }

  /** `isNotNull()`: itself never NULL. */
  function IsNotNull<T>(x: Option<T>): Bool3 {
    if x.Some? then True else False
  }

  /** `x >= bound` for a literal bound: NULL when `x` is NULL. */
  function AtLeast(x: Option<real>, bound: real): Bool3 {
    match x
    case None => Unknown
    case Some(v) => if v >= bound then True else False
  }

  /** `x <= bound` for a literal bound: NULL when `x` is NULL. */
  function AtMost(x: Option<real>, bound: real): Bool3 {
    match x
    case None => Unknown
    case Some(v) => if v <= bound then True else False
  }

  /** `isin(c1, ..., cn)` over non-NULL literals: NULL when `x` is NULL. */
  function IsIn<T(==)>(x: Option<T>, candidates: set<T>): Bool3 {
    match x
    case None => Unknown
    case Some(v) => if v in candidates then True else False
  }

  /** `filter(cond)`: keeps, in order, the rows whose condition is TRUE;
      rows where it is FALSE or NULL are dropped, and nothing is added. */
  function Filter<T(==,!new)>(rows: seq<T>, cond: T -> Bool3): (kept: seq<T>)
    ensures |kept| <= |rows|
    ensures forall i :: 0 <= i < |kept| ==> cond(kept[i]) == True
    ensures forall x :: x in kept <==> x in rows && cond(x) == True
  {
    if rows == [] then []
    else (if cond(rows[0]) == True then [rows[0]] else []) + Filter(rows[1..], cond)
  }

  /** `filter` keeps each TRUE row as often as it occurs, and no other row. */
  lemma {:induction false} FilterCount<T(!new)>(rows: seq<T>, cond: T -> Bool3)
    ensures forall x :: multiset(Filter(rows, cond))[x] == if cond(x) == True then multiset(rows)[x] else 0
  {
    if rows != [] {
      assert rows == [rows[0]] + rows[1..];
      FilterCount(rows[1..], cond);
    }
  }

  /** Filtering a concatenation filters each part: a filter can run per partition. */
  lemma {:induction false} FilterConcat<T(!new)>(xs: seq<T>, ys: seq<T>, cond: T -> Bool3)
    ensures Filter(xs + ys, cond) == Filter(xs, cond) + Filter(ys, cond)
  {
    if xs == [] {
      assert xs + ys == ys;
    } else {
      assert (xs + ys)[0] == xs[0];
      assert (xs + ys)[1..] == xs[1..] + ys;
      FilterConcat(xs[1..], ys, cond);
    }
  }

  /** `coalesce(e1, ..., en)`: the first non-NULL argument, in argument
      order; NULL exactly when every argument is NULL. */
  function Coalesce<T>(args: seq<Option<T>>): (r: Option<T>)
    ensures r.None? <==> forall i :: 0 <= i < |args| ==> args[i].None?
    ensures forall i :: 0 <= i < |args| && args[i].Some? && (forall j :: 0 <= j < i ==> args[j].None?) ==> r == args[i]
  {
    if |args| == 0 then None
    else if args[0].Some? then args[0]
    else
      assert forall i :: 1 <= i < |args| ==> args[i] == args[1..][i - 1];
      Coalesce(args[1..])
  }

  /** Taking one element out of a sequence leaves the rest as a multiset. */
  lemma SplitAt<T>(s: seq<T>, j: nat)
    requires j < |s|
    ensures multiset(s[..j] + s[j + 1..]) == multiset(s) - multiset{s[j]}
  {
    assert s == s[..j] + [s[j]] + s[j + 1..];
  }
}
