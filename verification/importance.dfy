/**
 * The two importance aggregates of a cohort: the feature-by-row matrix of
 * local importance values (`transposedLocalFeatureImportances`) and the mean
 * absolute importance of each feature (`calculateAverageImportance`).
 */
module Importance {
  import opened Wrappers
  import opened Filters

  /** Every row carries every local-importance column. */
  predicate HasKeys(rows: seq<Row>, keys: seq<string>)
  {
    forall j :: 0 <= j < |keys| ==> HasColumn(rows, keys[j])
  }

  /** A view made of rows of a store that has the columns has them too. */
  lemma HasKeysOfMembers(a: seq<Row>, b: seq<Row>, keys: seq<string>)
    requires HasKeys(b, keys)
    requires forall x :: x in a ==> x in b
    ensures HasKeys(a, keys)
  {
    forall j, i | 0 <= j < |keys| && 0 <= i < |a| ensures keys[j] in a[i] {
      assert a[i] in b;
    }
  }

  /** The filtered view of a store that has the columns has them too. */
  lemma FilterRowsHasKeys(rows: seq<Row>, fs: seq<Filter>, keys: seq<string>)
    requires HasKeys(rows, keys)
    ensures HasKeys(FilterRows(rows, fs), keys)
  {
    HasKeysOfMembers(FilterRows(rows, fs), rows, keys);
  }

  /** A reordering of a view that has the columns has them too. */
  lemma HasKeysOfPermutation(a: seq<Row>, b: seq<Row>, keys: seq<string>)
    requires HasKeys(b, keys)
    requires multiset(a) == multiset(b)
    ensures HasKeys(a, keys)
  {
    forall x | x in a ensures x in b {
      assert x in multiset(a);
    }
    HasKeysOfMembers(a, b, keys);
  }

  /** The first `|keys|` local importance values of a row, in feature order. */
  function Slice(row: Row, keys: seq<string>): (r: seq<int>)
    requires forall j :: 0 <= j < |keys| ==> keys[j] in row
    ensures |r| == |keys|
    ensures forall j :: 0 <= j < |keys| ==> r[j] == row[keys[j]]
  {
    if keys == [] then [] else [row[keys[0]]] + Slice(row, keys[1..])
  }

  /** `rows.map(row => localExplanationSlice(row, |keys|))`: the row-by-feature matrix. */
  function Slices(rows: seq<Row>, keys: seq<string>): (m: seq<seq<int>>)
    requires HasKeys(rows, keys)
    ensures |m| == |rows|
    ensures forall i :: 0 <= i < |rows| ==> m[i] == Slice(rows[i], keys)
  {
    if rows == [] then [] else [Slice(rows[0], keys)] + Slices(rows[1..], keys)
  }

  predicate Rectangular(m: seq<seq<int>>, width: nat)
  {
    forall i :: 0 <= i < |m| ==> |m[i]| == width
  }

  /** Puts `col[j]` in front of row `j` of `t`. */
  function PrependColumn(col: seq<int>, t: seq<seq<int>>): (r: seq<seq<int>>)
    requires |col| == |t|
    ensures |r| == |t|
    ensures forall j :: 0 <= j < |t| ==> r[j] == [col[j]] + t[j]
  {
    if t == [] then [] else [[col[0]] + t[0]] + PrependColumn(col[1..], t[1..])
  }

  /**
   * Transpose of a matrix whose rows all have `width` entries. The width is
   * explicit, so a matrix with no rows transposes to `width` empty rows.
   */
  function Transpose(m: seq<seq<int>>, width: nat): (t: seq<seq<int>>)
    requires Rectangular(m, width)
    ensures |t| == width && Rectangular(t, |m|)
    ensures forall i, j :: 0 <= i < |m| && 0 <= j < width ==> t[j][i] == m[i][j]
  {
    if m == [] then seq(width, j => [])
    else PrependColumn(m[0], Transpose(m[1..], width))
  }

  /** Transposing twice gives the matrix back. */
  lemma TransposeTwice(m: seq<seq<int>>, width: nat)
    requires Rectangular(m, width)
    ensures Transpose(Transpose(m, width), |m|) == m
  {
    var t := Transpose(m, width);
    var back := Transpose(t, |m|);
    forall i | 0 <= i < |m| ensures back[i] == m[i] {
      assert |back[i]| == width == |m[i]|;
      forall j | 0 <= j < width ensures back[i][j] == m[i][j] {
        assert back[i][j] == t[j][i];
      }
    }
  }

  /** The values of one column across `rows`. */
  function Column(rows: seq<Row>, key: string): seq<int>
    requires HasColumn(rows, key)
  {
    seq(|rows|, i requires 0 <= i < |rows| => rows[i][key])
  }

  /**
   * `transpose2DArray(rows.map(localExplanationSlice))`: row `j` holds feature
   * `j`'s importance in every row of the view, in the view's order.
   */
  function ImportanceMatrix(rows: seq<Row>, keys: seq<string>): (m: seq<seq<int>>)
    requires HasKeys(rows, keys)
    ensures |m| == |keys|
    ensures forall j :: 0 <= j < |keys| ==> m[j] == Column(rows, keys[j])
  {
    var t := Transpose(Slices(rows, keys), |keys|);
    assert forall j :: 0 <= j < |keys| ==> t[j] == Column(rows, keys[j]) by {
      forall j | 0 <= j < |keys| ensures t[j] == Column(rows, keys[j]) {
        forall i | 0 <= i < |rows| ensures t[j][i] == Column(rows, keys[j])[i] {
          assert t[j][i] == Slices(rows, keys)[i][j];
        }
      }
    }
    t
  }

  function Abs(x: int): int
  {
    if x < 0 then -x else x
  }

  /** `values.reduce((prev, cur) => prev + Math.abs(cur), 0)`, folded from the left. */
  function SumAbs(xs: seq<int>): (r: int)
    ensures r >= 0
  {
    if xs == [] then 0 else SumAbs(xs[..|xs| - 1]) + Abs(xs[|xs| - 1])
  }

  /** The absolute sum is zero exactly when every value is zero. */
  lemma {:induction false} SumAbsZero(xs: seq<int>)
    ensures SumAbs(xs) == 0 <==> forall i :: 0 <= i < |xs| ==> xs[i] == 0
  {
    if xs != [] {
      var n := |xs| - 1;
      SumAbsZero(xs[..n]);
      assert forall i :: 0 <= i < n ==> xs[..n][i] == xs[i];
    }
  }

  lemma {:induction false} SumAbsAppend(a: seq<int>, b: seq<int>)
    ensures SumAbs(a + b) == SumAbs(a) + SumAbs(b)
    decreases |b|
  {
    if b == [] {
      assert a + b == a;
    } else {
      assert (a + b)[..|a + b| - 1] == a + b[..|b| - 1];
      SumAbsAppend(a, b[..|b| - 1]);
    }
  }

  /**
   * The mean absolute value, or `None` (the source's NaN) for no values.
   */
  function MeanAbs(xs: seq<int>): (r: Option<real>)
    ensures r.Some? <==> |xs| > 0
    ensures r.Some? ==> r.value >= 0.0 && r.value * (|xs| as real) == SumAbs(xs) as real
  {
    if |xs| == 0 then None else Some(SumAbs(xs) as real / |xs| as real)
  }

  /** `matrix.map(MeanAbs)`. */
  function Means(m: seq<seq<int>>): (r: seq<Option<real>>)
    ensures |r| == |m|
    ensures forall j :: 0 <= j < |m| ==> r[j] == MeanAbs(m[j])
  {
    if m == [] then [] else [MeanAbs(m[0])] + Means(m[1..])
  }

  /** The average absolute importance of each feature over `rows`. */
  function AverageImportance(rows: seq<Row>, keys: seq<string>): (r: seq<Option<real>>)
    requires HasKeys(rows, keys)
    ensures |r| == |keys|
    ensures forall j :: 0 <= j < |keys| ==> r[j] == MeanAbs(Column(rows, keys[j]))
  {
    Means(ImportanceMatrix(rows, keys))
  }

  lemma ColumnAppend(a: seq<Row>, b: seq<Row>, key: string)
    requires HasColumn(a, key)
    requires HasColumn(b, key)
    ensures HasColumn(a + b, key)
    ensures Column(a + b, key) == Column(a, key) + Column(b, key)
  {
  }

  lemma MultisetRemove<T>(b: seq<T>, i: nat)
    requires i < |b|
    ensures multiset(b[..i] + b[i + 1..]) == multiset(b) - multiset{b[i]}
  {
    assert b == b[..i] + [b[i]] + b[i + 1..];
  }

  /** Taking value `i` out takes its absolute value out of the sum. */
  lemma SumAbsRemove(ys: seq<int>, i: nat)
    requires i < |ys|
    ensures SumAbs(ys) == SumAbs(ys[..i] + ys[i + 1..]) + Abs(ys[i])
  {
    var x := ys[i];
    assert ys == ys[..i] + [x] + ys[i + 1..];
    SumAbsAppend(ys[..i], [x]);
    SumAbsAppend(ys[..i] + [x], ys[i + 1..]);
    SumAbsAppend(ys[..i], ys[i + 1..]);
    assert SumAbs([x]) == Abs(x) by { assert [x][..0] == []; }
  }

  /** The absolute sum does not depend on the order of the values. */
  lemma {:induction false} SumAbsPermutation(xs: seq<int>, ys: seq<int>)
    requires multiset(xs) == multiset(ys)
    ensures SumAbs(xs) == SumAbs(ys)
    decreases |xs|
  {
    if xs == [] {
      assert |ys| == |multiset(ys)| == 0;
    } else {
      var n := |xs| - 1;
      assert xs[n] in multiset(ys);
      var i :| 0 <= i < |ys| && ys[i] == xs[n];
      MultisetRemove(ys, i);
      MultisetRemove(xs, n);
      assert xs[..n] + xs[n + 1..] == xs[..n];
      SumAbsPermutation(xs[..n], ys[..i] + ys[i + 1..]);
      SumAbsRemove(ys, i);
    }
  }

  /** Taking row `i` out of the view takes its cell out of every column. */
  lemma ColumnRemove(b: seq<Row>, i: nat, key: string)
    requires i < |b| && HasColumn(b, key)
    ensures HasColumn(b[..i] + b[i + 1..], key)
    ensures multiset(Column(b, key)) == multiset(Column(b[..i] + b[i + 1..], key)) + multiset{b[i][key]}
  {
    var x := b[i];
    assert b == b[..i] + [x] + b[i + 1..];
    ColumnAppend(b[..i], [x], key);
    ColumnAppend(b[..i] + [x], b[i + 1..], key);
    ColumnAppend(b[..i], b[i + 1..], key);
    assert Column([x], key) == [x[key]];
  }

  /** Reordering the rows reorders each column the same way. */
  lemma {:induction false} ColumnPermutation(a: seq<Row>, b: seq<Row>, key: string)
    requires multiset(a) == multiset(b)
    requires HasColumn(a, key) && HasColumn(b, key)
    ensures multiset(Column(a, key)) == multiset(Column(b, key))
    decreases |a|
  {
    if a == [] {
      assert |b| == |multiset(b)| == 0;
    } else {
      var n := |a| - 1;
      assert a[n] in multiset(b);
      var i :| 0 <= i < |b| && b[i] == a[n];
      MultisetRemove(b, i);
      MultisetRemove(a, n);
      assert a[..n] + a[n + 1..] == a[..n];
      ColumnRemove(b, i, key);
      ColumnRemove(a, n, key);
      ColumnPermutation(a[..n], b[..i] + b[i + 1..], key);
    }
  }

  /**
   * Reordering the view does not change the averages: the average cache
   * stays correct across `sort`.
   */
  lemma AverageImportancePermutation(a: seq<Row>, b: seq<Row>, keys: seq<string>)
    requires multiset(a) == multiset(b)
    requires HasKeys(a, keys) && HasKeys(b, keys)
    ensures AverageImportance(a, keys) == AverageImportance(b, keys)
  {
    assert |a| == |multiset(a)| == |b|;
    forall j | 0 <= j < |keys|
      ensures MeanAbs(Column(a, keys[j])) == MeanAbs(Column(b, keys[j]))
    {
      ColumnPermutation(a, b, keys[j]);
      SumAbsPermutation(Column(a, keys[j]), Column(b, keys[j]));
    }
  }
}
