/**
 * The row predicates of a cohort: one `Filter` per column condition, all of
 * them combined by AND, and the selection of the rows of the joint dataset
 * that pass them (`Cohort.applyFilters`).
 */
module Filters {
  import opened Wrappers

  /** A row of the joint dataset: column key to numeric value. */
  type Row = map<string, int>

  /** The filter methods the cohort knows; `Other` is any method name outside that set. */
  datatype FilterMethod = Equal | GreaterThan | LessThan | Includes | Other(name: string)

  /** A filter argument is a number or, for `Includes`, a list of numbers. */
  datatype FilterArg = Scalar(value: int) | List(values: seq<int>)

  datatype Filter = Filter(column: string, op: FilterMethod, arg: FilterArg)

  /** Every row carries the column `key`. */
  predicate HasColumn(rows: seq<Row>, key: string)
  {
    forall i :: 0 <= i < |rows| ==> key in rows[i]
  }

  /** `row[key]`: a missing column reads as undefined. */
  function Lookup(row: Row, key: string): Option<int>
  {
    if key in row then Some(row[key]) else None
  }

  /**
   * The number a relational comparison sees for the argument: a list is
   * compared through its string form, so `[]` reads as 0, `[x]` as x and a
   * longer list as NaN, which no comparison satisfies.
   */
  function ArgAsNumber(arg: FilterArg): (r: Option<int>)
    ensures r.None? <==> arg.List? && |arg.values| > 1
    ensures arg.Scalar? ==> r == Some(arg.value)
  {
    match arg
    case Scalar(x) => Some(x)
    case List(xs) => if |xs| == 0 then Some(0) else if |xs| == 1 then Some(xs[0]) else None
  }

  /** An `Includes` filter must carry a list: calling `includes` on a number throws. */
  predicate WellFormed(f: Filter)
  {
    f.op.Includes? ==> f.arg.List?
  }

  predicate AllWellFormed(fs: seq<Filter>)
  {
    forall i :: 0 <= i < |fs| ==> WellFormed(fs[i])
  }

  /**
   * One filter on one row. An undefined cell fails every method, and an
   * unknown method yields undefined, which `every` reads as false.
   */
  predicate Holds(f: Filter, row: Row)
    ensures Holds(f, row) ==> f.column in row && !f.op.Other?
  {
    match Lookup(row, f.column)
    case None => false
    case Some(v) =>
      match f.op
      case Equal => f.arg == Scalar(v)
      case GreaterThan => ArgAsNumber(f.arg).Some? && v > ArgAsNumber(f.arg).value
      case LessThan => ArgAsNumber(f.arg).Some? && v < ArgAsNumber(f.arg).value
      case Includes => f.arg.List? && v in f.arg.values
      case Other(_) => false
  }

  /**
   * The four filter methods on a present cell with a numeric argument, and
   * `Includes` with a list: plain equality, the two strict comparisons and
   * membership.
   */
  lemma HoldsSemantics(f: Filter, row: Row)
    requires f.column in row
    ensures f.op == Equal && f.arg.Scalar? ==> (Holds(f, row) <==> row[f.column] == f.arg.value)
    ensures f.op == GreaterThan && f.arg.Scalar? ==> (Holds(f, row) <==> row[f.column] > f.arg.value)
    ensures f.op == LessThan && f.arg.Scalar? ==> (Holds(f, row) <==> row[f.column] < f.arg.value)
    ensures f.op == Includes && f.arg.List? ==> (Holds(f, row) <==> row[f.column] in f.arg.values)
    ensures f.op.Other? ==> !Holds(f, row)
  {
  }

  /**
   * A list argument to `greaterThan` or `lessThan` compares as 0 when empty
   * and as its element when it has one; a longer list satisfies neither.
   */
  lemma HoldsListComparison(f: Filter, row: Row)
    requires f.column in row && f.arg.List? && (f.op == GreaterThan || f.op == LessThan)
    ensures var v, xs := row[f.column], f.arg.values;
      Holds(f, row) <==>
        (|xs| == 0 && (if f.op == GreaterThan then v > 0 else v < 0)) ||
        (|xs| == 1 && (if f.op == GreaterThan then v > xs[0] else v < xs[0]))
  {
  }

  /** A row without the filtered column fails the filter, whatever the method. */
  lemma HoldsMissingColumn(f: Filter, row: Row)
    requires f.column !in row
    ensures !Holds(f, row)
  {
  }

  /** `filters.every(...)`: the row passes every filter (vacuously with no filters). */
  predicate PassesAll(fs: seq<Filter>, row: Row)
    ensures fs == [] ==> PassesAll(fs, row)
  {
    forall i :: 0 <= i < |fs| ==> Holds(fs[i], row)
  }

  /** A row that passes carries every filtered column, and no filter has an unknown method. */
  lemma PassesAllColumns(fs: seq<Filter>, row: Row)
    requires PassesAll(fs, row)
    ensures forall i :: 0 <= i < |fs| ==> fs[i].column in row && !fs[i].op.Other?
  {
    forall i | 0 <= i < |fs| ensures fs[i].column in row && !fs[i].op.Other? {
      assert Holds(fs[i], row);
    }
  }

  /**
   * `dataDict.filter(row => PassesAll(filters, row))`: the rows that pass,
   * in their original order, each as often as it occurs in `rows`.
   */
  function FilterRows(rows: seq<Row>, fs: seq<Filter>): (r: seq<Row>)
    ensures |r| <= |rows|
    ensures forall x :: x in r <==> x in rows && PassesAll(fs, x)
    ensures forall x :: multiset(r)[x] == if PassesAll(fs, x) then multiset(rows)[x] else 0
  {
    if rows == [] then []
    else
      assert rows == [rows[0]] + rows[1..];
      (if PassesAll(fs, rows[0]) then [rows[0]] else []) + FilterRows(rows[1..], fs)
  }

  /** Filtering keeps the store order: it distributes over concatenation. */
  lemma {:induction false} FilterRowsAppend(a: seq<Row>, b: seq<Row>, fs: seq<Filter>)
    ensures FilterRows(a + b, fs) == FilterRows(a, fs) + FilterRows(b, fs)
  {
    if a == [] {
      assert a + b == b;
    } else {
      assert (a + b)[1..] == a[1..] + b;
      FilterRowsAppend(a[1..], b, fs);
    }
  }

  /** With no filters the cohort is the whole store. */
  lemma {:induction false} FilterRowsNoFilters(rows: seq<Row>)
    ensures FilterRows(rows, []) == rows
  {
    if rows != [] {
      FilterRowsNoFilters(rows[1..]);
      assert rows == [rows[0]] + rows[1..];
    }
  }

  /** AND semantics: filtering by `f1 + f2` is filtering by `f1`, then by `f2`. */
  lemma {:induction false} FilterRowsCompose(rows: seq<Row>, f1: seq<Filter>, f2: seq<Filter>)
    ensures FilterRows(rows, f1 + f2) == FilterRows(FilterRows(rows, f1), f2)
  {
    if rows != [] {
      var x := rows[0];
      assert PassesAll(f1 + f2, x) <==> PassesAll(f1, x) && PassesAll(f2, x) by {
        if PassesAll(f1, x) && PassesAll(f2, x) {
          forall i | 0 <= i < |f1 + f2| ensures Holds((f1 + f2)[i], x) {
            if i >= |f1| { assert (f1 + f2)[i] == f2[i - |f1|]; }
          }
        }
        if PassesAll(f1 + f2, x) {
          forall i | 0 <= i < |f1| ensures Holds(f1[i], x) {
            assert (f1 + f2)[i] == f1[i];
          }
          forall i | 0 <= i < |f2| ensures Holds(f2[i], x) {
            assert (f1 + f2)[|f1| + i] == f2[i];
          }
        }
      }
      FilterRowsCompose(rows[1..], f1, f2);
      var head := if PassesAll(f1, x) then [x] else [];
      FilterRowsAppend(head, FilterRows(rows[1..], f1), f2);
      if PassesAll(f1, x) {
        assert FilterRows([x], f2) == (if PassesAll(f2, x) then [x] else []) + FilterRows([], f2) by {
          assert [x][1..] == [];
        }
      }
    }
  }

  /** A filter with an unknown method rejects every row. */
  lemma FilterRowsUnknownMethod(rows: seq<Row>, fs: seq<Filter>, k: nat)
    requires k < |fs| && fs[k].op.Other?
    ensures FilterRows(rows, fs) == []
  {
  }
}
