/**
 * Column projection of a cohort's view (`Cohort.unwrap`): the raw values of
 * one column, or, for a binned numeric column, the index of each value's bin.
 * A bin vector holds the upper bounds of the bins; a value's bin is the
 * first bound at or above it, and a value above every bound has no bin (-1).
 */
module Unwrapping {
  import opened Wrappers
  import opened Filters

  /** `bins.findIndex(upper => upper >= x)`. */
  function FirstAtLeast(bins: seq<int>, x: int): (r: int)
    ensures -1 <= r < |bins|
    ensures r >= 0 ==> bins[r] >= x && forall j :: 0 <= j < r ==> bins[j] < x
    ensures r == -1 ==> forall j :: 0 <= j < |bins| ==> bins[j] < x
  {
    if bins == [] then -1
    else if bins[0] >= x then 0
    else
      var k := FirstAtLeast(bins[1..], x);
      if k < 0 then -1 else k + 1
  }

  /** The bin of one cell; an undefined cell compares false with every bound. */
  function BinIndex(bins: seq<int>, cell: Option<int>): (r: int)
    ensures -1 <= r < |bins|
    ensures cell.None? ==> r == -1
    ensures cell.Some? && r >= 0 ==> cell.value <= bins[r] && forall j :: 0 <= j < r ==> bins[j] < cell.value
    ensures cell.Some? && r == -1 ==> forall j :: 0 <= j < |bins| ==> bins[j] < cell.value
  {
    match cell
    case None => -1
    case Some(x) => FirstAtLeast(bins, x)
  }

  /** With ascending bounds a found bin is the right-closed interval (bins[r-1], bins[r]]. */
  lemma BinIndexInterval(bins: seq<int>, x: int)
    requires forall i, j :: 0 <= i < j < |bins| ==> bins[i] <= bins[j]
    ensures var r := BinIndex(bins, Some(x));
      (r > 0 ==> bins[r - 1] < x <= bins[r]) &&
      (r == 0 ==> x <= bins[0]) &&
      (r == -1 ==> |bins| == 0 || bins[|bins| - 1] < x)
  {
  }

  /** Binning is monotone: a larger value never falls in an earlier bin. */
  lemma BinIndexMonotone(bins: seq<int>, x: int, y: int)
    requires x <= y && BinIndex(bins, Some(y)) >= 0
    ensures 0 <= BinIndex(bins, Some(x)) <= BinIndex(bins, Some(y))
  {
  }

  /** `rows.map(row => row[key])`. */
  function Project(rows: seq<Row>, key: string): (r: seq<Option<int>>)
    ensures |r| == |rows|
    ensures forall i :: 0 <= i < |rows| ==> r[i] == Lookup(rows[i], key)
  {
    if rows == [] then [] else [Lookup(rows[0], key)] + Project(rows[1..], key)
  }

  /** `rows.map(row => binVector.findIndex(upper => upper >= row[key]))`. */
  function BinProject(rows: seq<Row>, key: string, bins: seq<int>): (r: seq<int>)
    ensures |r| == |rows|
    ensures forall i :: 0 <= i < |rows| ==> r[i] == BinIndex(bins, Lookup(rows[i], key))
  {
    if rows == [] then [] else [BinIndex(bins, Lookup(rows[0], key))] + BinProject(rows[1..], key, bins)
  }

  /** Bins [10, 20, 30]: 15 falls in bin 1, 10 in bin 0 (right-closed), 35 in none. */
  lemma BinIndexExamples()
    ensures BinIndex([10, 20, 30], Some(15)) == 1
    ensures BinIndex([10, 20, 30], Some(10)) == 0
    ensures BinIndex([10, 20, 30], Some(35)) == -1
  {
    assert [10, 20, 30][1..] == [20, 30];
    assert [20, 30][1..] == [30];
  }
}
