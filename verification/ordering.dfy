/**
 * Ordering of a cohort's filtered view (`Cohort.sort`): the platform's stable
 * ascending sort on one numeric column, the in-place reversal, and the
 * "skip the re-sort when the key is unchanged, maybe reverse" step.
 */
module Ordering {
  import opened Wrappers
  import opened Filters

  predicate Ascending(rows: seq<Row>, key: string)
    requires HasColumn(rows, key)
  {
    forall i, j :: 0 <= i < j < |rows| ==> rows[i][key] <= rows[j][key]
  }

  predicate Descending(rows: seq<Row>, key: string)
    requires HasColumn(rows, key)
  {
    forall i, j :: 0 <= i < j < |rows| ==> rows[i][key] >= rows[j][key]
  }

  /** The rows whose sort column equals `v`, in their order in `rows`. */
  function WithValue(rows: seq<Row>, key: string, v: int): seq<Row>
    requires HasColumn(rows, key)
  {
    if rows == [] then []
    else (if rows[0][key] == v then [rows[0]] else []) + WithValue(rows[1..], key, v)
  }

  /** Inserts `x` before the first row whose key is not smaller: `x` stays ahead of its equals. */
  function Insert(x: Row, s: seq<Row>, key: string): (r: seq<Row>)
    requires key in x && HasColumn(s, key)
    ensures HasColumn(r, key) && |r| == |s| + 1
    ensures r[0] == x || (|s| > 0 && r[0] == s[0])
    ensures Ascending(s, key) ==> Ascending(r, key)
  {
    if s == [] || s[0][key] >= x[key] then [x] + s
    else
      assert s == [s[0]] + s[1..];
      var t := Insert(x, s[1..], key);
      assert Ascending(s, key) ==> Ascending([s[0]] + t, key) by {
        if Ascending(s, key) {
          assert s[0][key] <= t[0][key];
          forall i, j | 0 <= i < j < |t| + 1 ensures ([s[0]] + t)[i][key] <= ([s[0]] + t)[j][key] {
            if i == 0 && j > 1 {
              assert t[0][key] <= t[j - 1][key];
            }
          }
        }
      }
      [s[0]] + t
  }

  lemma {:induction false} InsertMultiset(x: Row, s: seq<Row>, key: string)
    requires key in x && HasColumn(s, key)
    ensures multiset(Insert(x, s, key)) == multiset(s) + multiset{x}
  {
    if s != [] && s[0][key] < x[key] {
      InsertMultiset(x, s[1..], key);
      assert s == [s[0]] + s[1..];
    }
  }

  /**
   * `rows.sort((a, b) => a[key] - b[key])` with a stable sort. Every row
   * must carry `key`, so that the comparator always yields a number.
   */
  function SortByKey(rows: seq<Row>, key: string): (r: seq<Row>)
    requires HasColumn(rows, key)
    ensures HasColumn(r, key) && |r| == |rows|
    ensures multiset(r) == multiset(rows)
    ensures Ascending(r, key)
  {
    if rows == [] then []
    else
      assert rows == [rows[0]] + rows[1..];
      InsertMultiset(rows[0], SortByKey(rows[1..], key), key);
      Insert(rows[0], SortByKey(rows[1..], key), key)
  }

  lemma {:induction false} InsertStable(x: Row, s: seq<Row>, key: string, v: int)
    requires key in x && HasColumn(s, key) && Ascending(s, key)
    ensures WithValue(Insert(x, s, key), key, v) == WithValue([x] + s, key, v)
  {
    if s == [] || s[0][key] >= x[key] {
    } else {
      InsertStable(x, s[1..], key, v);
      // every row ahead of x in the result has a key below x's
      assert s[0][key] < x[key];
      var t := Insert(x, s[1..], key);
      assert [s[0]] + t == Insert(x, s, key);
      assert ([s[0]] + t)[1..] == t;
      assert ([x] + s)[1..] == s;
      assert s == [s[0]] + s[1..];
      assert ([x] + s[1..])[1..] == s[1..];
      if x[key] == v {
        assert s[0][key] != v;
        assert WithValue(s, key, v) == WithValue(s[1..], key, v);
      } else {
        assert WithValue([x] + s, key, v) == WithValue(s, key, v);
        assert WithValue([x] + s[1..], key, v) == WithValue(s[1..], key, v);
      }
    }
  }

  /** The sort is stable: rows with equal keys keep their relative order. */
  lemma {:induction false} SortByKeyStable(rows: seq<Row>, key: string, v: int)
    requires HasColumn(rows, key)
    ensures WithValue(SortByKey(rows, key), key, v) == WithValue(rows, key, v)
  {
    if rows != [] {
      var rest := SortByKey(rows[1..], key);
      SortByKeyStable(rows[1..], key, v);
      InsertStable(rows[0], rest, key, v);
      assert ([rows[0]] + rest)[1..] == rest;
    }
  }

  /** `Array.prototype.reverse`. */
  function Reversed<T>(s: seq<T>): (r: seq<T>)
    ensures |r| == |s|
    ensures forall i :: 0 <= i < |s| ==> r[i] == s[|s| - 1 - i]
  {
    if s == [] then [] else Reversed(s[1..]) + [s[0]]
  }

  lemma {:induction false} ReversedMultiset<T>(s: seq<T>)
    ensures multiset(Reversed(s)) == multiset(s)
  {
    if s != [] {
      ReversedMultiset(s[1..]);
      assert s == [s[0]] + s[1..];
    }
  }

  lemma ReversedTwice<T>(s: seq<T>)
    ensures Reversed(Reversed(s)) == s
  {
  }

  /** Reversing an ascending view gives a descending one. */
  lemma ReversedAscending(rows: seq<Row>, key: string)
    requires HasColumn(rows, key) && Ascending(rows, key)
    ensures HasColumn(Reversed(rows), key) && Descending(Reversed(rows), key)
  {
  }

  /**
   * The filtered view after `sort(key, reverse)`: re-sort only when `key` is
   * not the current sort key (which also resets the reversed flag), then
   * reverse when the flag differs from `reverse`. An omitted `reverse`
   * (`None`) differs from every flag, so it reverses on every call.
   */
  function SortStep(data: seq<Row>, currentKey: Option<string>, currentReversed: bool,
                    key: string, reverse: Option<bool>): (r: seq<Row>)
    requires currentKey != Some(key) ==> HasColumn(data, key)
    ensures multiset(r) == multiset(data)
  {
    var sorted := if currentKey != Some(key) then SortByKey(data, key) else data;
    var flag := if currentKey != Some(key) then false else currentReversed;
    ReversedMultiset(sorted);
    if reverse != Some(flag) then Reversed(sorted) else sorted
  }

  /**
   * A new key sorts ascending by it, and the view is then reversed unless
   * `reverse` is exactly `false`.
   */
  lemma SortStepNewKey(data: seq<Row>, currentKey: Option<string>, currentReversed: bool,
                       key: string, reverse: Option<bool>)
    requires currentKey != Some(key) && HasColumn(data, key)
    ensures var r := SortStep(data, currentKey, currentReversed, key, reverse);
      HasColumn(r, key) && multiset(r) == multiset(data) &&
      (reverse == Some(false) ==> Ascending(r, key)) &&
      (reverse != Some(false) ==> Descending(r, key))
  {
    ReversedAscending(SortByKey(data, key), key);
  }

  /** The same key and direction leave the view as it is. */
  lemma SortStepSameKeyKeeps(data: seq<Row>, key: string, currentReversed: bool)
    ensures SortStep(data, Some(key), currentReversed, key, Some(currentReversed)) == data
  {
  }

  /** `sort(k, true)` right after `sort(k, false)` yields exactly the reverse view. */
  lemma SortStepFlip(data: seq<Row>, currentKey: Option<string>, key: string)
    requires currentKey != Some(key) ==> HasColumn(data, key)
    ensures var once := SortStep(data, currentKey, false, key, Some(false));
      SortStep(once, Some(key), false, key, Some(true)) == Reversed(once)
  {
  }

  /**
   * Since the reversed flag stays false, two calls `sort(k)` with `reverse`
   * omitted undo each other: the second one restores the first one's input order.
   */
  lemma SortStepOmittedTwice(data: seq<Row>, key: string)
    ensures SortStep(SortStep(data, Some(key), false, key, None), Some(key), false, key, None) == data
  {
  }
}
