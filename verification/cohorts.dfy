/**
 * A cohort: a named, filtered view over the shared joint dataset, with the
 * filter list that defines it, the materialised view and its row count, a
 * mutation counter, two memoised importance aggregates and the current sort
 * key of the view.
 */
module Cohorts {
  import opened Wrappers
  import opened Filters
  import opened Ordering
  import opened Unwrapping
  import opened Importance

  /** Issues cohort identifiers; stands for the process-wide static counter. */
  class CohortIdAllocator {
    var next: nat

    constructor()
      ensures next == 0
    {
      next := 0;
    }

    /** Hands out the current value of the counter and advances it. */
    method Issue() returns (id: nat)
      modifies this
      ensures id == old(next) && next == old(next) + 1
    {
      id := next;
      next := next + 1;
    }
  }

  /**
   * The joint dataset as a cohort sees it: the rows (never changed), the
   * categorical flag of each column, the local-importance columns in feature
   * order, and the bin vectors computed so far.
   */
  class JointDataset {
    const dataDict: seq<Row>
    const isCategorical: map<string, bool>
    const importanceKeys: seq<string>
    var binDict: map<string, seq<int>>

    /** Every row carries every local-importance column. */
    ghost predicate Valid()
    {
      HasKeys(dataDict, importanceKeys)
    }

    constructor(dataDict: seq<Row>, isCategorical: map<string, bool>, importanceKeys: seq<string>,
                binDict: map<string, seq<int>>)
      requires HasKeys(dataDict, importanceKeys)
      ensures Valid()
      ensures this.dataDict == dataDict && this.isCategorical == isCategorical
      ensures this.importanceKeys == importanceKeys && this.binDict == binDict
    {
      this.dataDict := dataDict;
      this.isCategorical := isCategorical;
      this.importanceKeys := importanceKeys;
      this.binDict := binDict;
    }

    /**
     * Records the bin vector of a column. How the vector is derived from the
     * data is not part of this model, so it is passed in.
     */
    method AddBin(key: string, bins: seq<int>)
      modifies this`binDict
      ensures binDict == old(binDict)[key := bins]
    {
      binDict := binDict[key := bins];
    }
  }

  /** What `unwrap` returns: raw cells, or bin indices for a binned numeric column. */
  datatype UnwrappedColumn = Raw(values: seq<Option<int>>) | Binned(indices: seq<int>)
  {
    function Length(): nat
    {
      match this
      case Raw(values) => |values|
      case Binned(indices) => |indices|
    }
  }

  /**
   * The view holds exactly the rows of the store passing every filter, in
   * some order, and the row count is its length.
   */
  ghost predicate ViewAgrees(store: seq<Row>, keys: seq<string>, filters: seq<Filter>, view: seq<Row>,
                             rowCount: nat)
  {
    && AllWellFormed(filters)
    && multiset(view) == multiset(FilterRows(store, filters))
    && HasKeys(view, keys)
    && rowCount == |view|
  }

  /**
   * The two caches agree with the view: the averages exactly, the
   * transposed matrix up to the order of the rows (`order` is the view's
   * order when it was filled).
   */
  ghost predicate CachesAgree(view: seq<Row>, keys: seq<string>, transposed: Option<seq<seq<int>>>,
                              order: seq<Row>, averages: Option<seq<Option<real>>>)
  {
    && (transposed.Some? ==>
          && HasKeys(order, keys)
          && multiset(order) == multiset(view)
          && transposed.value == ImportanceMatrix(order, keys))
    && (averages.Some? ==> HasKeys(view, keys) && averages.value == AverageImportance(view, keys))
  }

  /** Reordering the view keeps it in agreement with the filters. */
  lemma ViewAgreesReorder(store: seq<Row>, keys: seq<string>, filters: seq<Filter>, view: seq<Row>,
                          view': seq<Row>, rowCount: nat)
    requires ViewAgrees(store, keys, filters, view, rowCount)
    requires multiset(view') == multiset(view)
    ensures ViewAgrees(store, keys, filters, view', rowCount)
  {
    HasKeysOfPermutation(view', view, keys);
    assert |view'| == |multiset(view')| == |view|;
  }

  /** Reordering the view keeps both caches valid. */
  lemma CachesAgreeReorder(view: seq<Row>, view': seq<Row>, keys: seq<string>,
                           transposed: Option<seq<seq<int>>>, order: seq<Row>,
                           averages: Option<seq<Option<real>>>)
    requires CachesAgree(view, keys, transposed, order, averages)
    requires multiset(view') == multiset(view) && HasKeys(view, keys) && HasKeys(view', keys)
    ensures CachesAgree(view', keys, transposed, order, averages)
  {
    if averages.Some? {
      AverageImportancePermutation(view, view', keys);
    }
  }

  /**
   * The means of a cached transposed matrix are the averages of the current
   * view, whatever order the matrix was filled in.
   */
  lemma MeansOfCachedMatrix(view: seq<Row>, keys: seq<string>, matrix: seq<seq<int>>, order: seq<Row>,
                            averages: Option<seq<Option<real>>>)
    requires CachesAgree(view, keys, Some(matrix), order, averages) && HasKeys(view, keys)
    ensures Means(matrix) == AverageImportance(view, keys)
    ensures CachesAgree(view, keys, Some(matrix), order, Some(Means(matrix)))
  {
    AverageImportancePermutation(order, view, keys);
  }

  /**
   * A cached transposed matrix holds, feature by feature, the current view's
   * column up to the order of its cells.
   */
  lemma CachedColumns(view: seq<Row>, keys: seq<string>, matrix: seq<seq<int>>, order: seq<Row>,
                      averages: Option<seq<Option<real>>>)
    requires CachesAgree(view, keys, Some(matrix), order, averages) && HasKeys(view, keys)
    ensures |matrix| == |keys|
    ensures forall j :: 0 <= j < |matrix| ==>
              |matrix[j]| == |view| && multiset(matrix[j]) == multiset(Column(view, keys[j]))
  {
    assert |order| == |multiset(order)| == |view|;
    forall j | 0 <= j < |matrix|
      ensures multiset(matrix[j]) == multiset(Column(view, keys[j]))
    {
      ColumnPermutation(order, view, keys[j]);
    }
  }

  class Cohort {
    const name: string
    const jointDataset: JointDataset
    const cohortIndex: nat
    var filters: seq<Filter>
    var filteredData: seq<Row>
    var rowCount: nat
    var mutateCount: nat
    var cachedAverageImportance: Option<seq<Option<real>>>
    var cachedTransposed: Option<seq<seq<int>>>
    var currentSortKey: Option<string>
    var currentSortReversed: bool
    /** The order of the view when the transposed cache was filled. */
    ghost var transposedOrder: seq<Row>

    /**
     * The view agrees with the filters, the reversed flag is never set, and
     * both caches agree with the view.
     */
    ghost predicate Valid()
      reads this
    {
      && jointDataset.Valid()
      && !currentSortReversed
      && ViewAgrees(jointDataset.dataDict, jointDataset.importanceKeys, filters, filteredData, rowCount)
      && CachesAgree(filteredData, jointDataset.importanceKeys, cachedTransposed, transposedOrder,
                     cachedAverageImportance)
    }

    /** The state `applyFilters` leaves: the view in store order and both caches empty. */
    ghost predicate FreshlyFiltered()
      reads this
    {
      && filteredData == FilterRows(jointDataset.dataDict, filters)
      && rowCount == |filteredData|
      && cachedAverageImportance.None?
      && cachedTransposed.None?
    }

    constructor(name: string, jointDataset: JointDataset, filters: seq<Filter>, ids: CohortIdAllocator)
      requires jointDataset.Valid() && AllWellFormed(filters)
      modifies ids
      ensures Valid() && FreshlyFiltered()
      ensures this.name == name && this.jointDataset == jointDataset && this.filters == filters
      ensures cohortIndex == old(ids.next) && ids.next == old(ids.next) + 1
      ensures mutateCount == 1
      ensures currentSortKey == None && !currentSortReversed
    {
      this.name := name;
      this.jointDataset := jointDataset;
      this.filters := filters;
      var id := ids.Issue();
      cohortIndex := id;
      var view := FilterRows(jointDataset.dataDict, filters);
      filteredData := view;
      rowCount := |view|;
      mutateCount := 1;
      cachedAverageImportance := None;
      cachedTransposed := None;
      currentSortKey := None;
      currentSortReversed := false;
      transposedOrder := [];
      new;
      FilterRowsHasKeys(jointDataset.dataDict, filters, jointDataset.importanceKeys);
    }

    /** Recomputes the view from the store and clears both caches. */
    method ApplyFilters()
      requires jointDataset.Valid() && AllWellFormed(filters) && !currentSortReversed
      modifies this
      ensures Valid() && FreshlyFiltered()
      ensures mutateCount == old(mutateCount) + 1
      ensures filters == old(filters)
      ensures currentSortKey == old(currentSortKey) && currentSortReversed == old(currentSortReversed)
    {
      var view := FilterRows(jointDataset.dataDict, filters);
      FilterRowsHasKeys(jointDataset.dataDict, filters, jointDataset.importanceKeys);
      cachedAverageImportance := None;
      cachedTransposed := None;
      mutateCount := mutateCount + 1;
      filteredData := view;
      rowCount := |view|;
      assert Valid() by {
        assert ViewAgrees(jointDataset.dataDict, jointDataset.importanceKeys, filters, view, rowCount);
        assert CachesAgree(view, jointDataset.importanceKeys, None, transposedOrder, None);
      }
    }

    /**
     * Appends `filter` (no index, or the index one past the end) or replaces
     * the filter at `index`, then re-applies the filters.
     */
    method UpdateFilter(filter: Filter, index: Option<nat>)
      requires Valid() && WellFormed(filter)
      requires index.Some? ==> index.value <= |filters|
      modifies this
      ensures Valid() && FreshlyFiltered()
      ensures filters == if index.None? || index.value == |old(filters)|
                         then old(filters) + [filter]
                         else old(filters)[index.value := filter]
      ensures mutateCount == old(mutateCount) + 1
      ensures currentSortKey == old(currentSortKey) && currentSortReversed == old(currentSortReversed)
    {
      var i := if index.None? then |filters| else index.value;
      if i == |filters| {
        filters := filters + [filter];
      } else {
        filters := filters[i := filter];
      }
      ApplyFilters();
    }

    /** The identifier issued to this cohort when it was built. */
    function GetCohortID(): (id: nat)
      ensures id == cohortIndex
    {
      cohortIndex
    }

    /**
     * `filters.splice(index, 1)`: removes the filter at `index`, or nothing
     * when `index` is past the end; the filters are re-applied either way.
     */
    method DeleteFilter(index: nat)
      requires Valid()
      modifies this
      ensures Valid() && FreshlyFiltered()
      ensures filters == if index < |old(filters)|
                         then old(filters)[..index] + old(filters)[index + 1..]
                         else old(filters)
      ensures mutateCount == old(mutateCount) + 1
      ensures currentSortKey == old(currentSortKey) && currentSortReversed == old(currentSortReversed)
    {
      if index < |filters| {
        filters := filters[..index] + filters[index + 1..];
      }
      ApplyFilters();
    }

    /**
     * A copy of the store's row at `index`, whether or not it passes the
     * filters; spreading a missing row gives the empty row. It reads no
     * mutable state of the cohort.
     */
    function GetRow(index: int): (row: Row)
      ensures 0 <= index < |jointDataset.dataDict| ==> row == jointDataset.dataDict[index]
      ensures !(0 <= index < |jointDataset.dataDict|) ==> row == map[]
    {
      if 0 <= index < |jointDataset.dataDict| then jointDataset.dataDict[index] else map[]
    }

    /**
     * Re-sorts the view ascending by `columnName` unless it is already the
     * sort key, then reverses it unless `reverse` is exactly the reversed flag.
     */
    method Sort(columnName: string, reverse: Option<bool>)
      requires Valid()
      requires currentSortKey != Some(columnName) ==> HasColumn(filteredData, columnName)
      modifies this`filteredData, this`currentSortKey, this`currentSortReversed
      ensures Valid()
      ensures filteredData == SortStep(old(filteredData), old(currentSortKey), old(currentSortReversed),
                                       columnName, reverse)
      ensures currentSortKey == Some(columnName) && !currentSortReversed
    {
      ghost var key0, reversed0 := currentSortKey, currentSortReversed;
      var view := filteredData;
      if currentSortKey != Some(columnName) {
        view := SortByKey(view, columnName);
        currentSortKey := Some(columnName);
        currentSortReversed := false;
      }
      if reverse != Some(currentSortReversed) {
        view := Reversed(view);
      }
      assert view == SortStep(filteredData, key0, reversed0, columnName, reverse);
      ViewAgreesReorder(jointDataset.dataDict, jointDataset.importanceKeys, filters, filteredData, view, rowCount);
      CachesAgreeReorder(filteredData, view, jointDataset.importanceKeys, cachedTransposed,
                         transposedOrder, cachedAverageImportance);
      filteredData := view;
    }

    /**
     * The column `key` across the view, in its current order; for a binned
     * numeric column, each cell's bin index instead, computing the column's
     * bin vector (given as `defaultBins`) on first use.
     */
    method Unwrap(key: string, applyBin: bool, defaultBins: seq<int>) returns (column: UnwrappedColumn)
      requires Valid()
      requires applyBin ==> key in jointDataset.isCategorical
      modifies jointDataset`binDict
      ensures Valid()
      ensures if applyBin && !jointDataset.isCategorical[key] then
                && jointDataset.binDict == (if key in old(jointDataset.binDict) then old(jointDataset.binDict)
                                            else old(jointDataset.binDict)[key := defaultBins])
                && column == Binned(BinProject(filteredData, key, jointDataset.binDict[key]))
              else
                && jointDataset.binDict == old(jointDataset.binDict)
                && column == Raw(Project(filteredData, key))
      ensures column.Length() == rowCount
    {
      if applyBin && !jointDataset.isCategorical[key] {
        if key !in jointDataset.binDict {
          jointDataset.AddBin(key, defaultBins);
        }
        var binVector := jointDataset.binDict[key];
        column := Binned(BinProject(filteredData, key, binVector));
      } else {
        column := Raw(Project(filteredData, key));
      }
    }

    /**
     * The feature-by-row matrix of local importance values, from the cache
     * when it is filled. The cache is not cleared by `Sort`, so the matrix
     * holds the current rows in the order they had when it was filled.
     */
    method TransposedLocalFeatureImportances() returns (matrix: seq<seq<int>>)
      requires Valid()
      modifies this`cachedTransposed, this`transposedOrder
      ensures Valid()
      ensures cachedTransposed == Some(matrix)
      ensures old(cachedTransposed).Some? ==> matrix == old(cachedTransposed).value
      ensures old(cachedTransposed).None? ==> matrix == ImportanceMatrix(filteredData, jointDataset.importanceKeys)
      ensures |matrix| == |jointDataset.importanceKeys|
      ensures forall j :: 0 <= j < |matrix| ==>
                |matrix[j]| == rowCount &&
                multiset(matrix[j]) == multiset(Column(filteredData, jointDataset.importanceKeys[j]))
    {
      if cachedTransposed.Some? {
        matrix := cachedTransposed.value;
      } else {
        var keys, view := jointDataset.importanceKeys, filteredData;
        matrix := ImportanceMatrix(view, keys);
        cachedTransposed := Some(matrix);
        transposedOrder := view;
        assert Valid() by {
          assert ViewAgrees(jointDataset.dataDict, keys, filters, view, rowCount);
          assert CachesAgree(view, keys, cachedTransposed, view, cachedAverageImportance);
        }
      }
      CachedColumns(filteredData, jointDataset.importanceKeys, matrix, transposedOrder, cachedAverageImportance);
    }

    /**
     * The mean absolute importance of each feature over the view (`None`
     * where the view is empty), from the cache when it is filled.
     */
    method CalculateAverageImportance() returns (averages: seq<Option<real>>)
      requires Valid()
      modifies this`cachedAverageImportance, this`cachedTransposed, this`transposedOrder
      ensures Valid()
      ensures averages == AverageImportance(filteredData, jointDataset.importanceKeys)
      ensures cachedAverageImportance == Some(averages)
      ensures old(cachedAverageImportance).Some? ==>
                averages == old(cachedAverageImportance).value && cachedTransposed == old(cachedTransposed)
      ensures old(cachedAverageImportance).None? ==>
                cachedTransposed == if old(cachedTransposed).Some? then old(cachedTransposed)
                                    else Some(ImportanceMatrix(filteredData, jointDataset.importanceKeys))
    {
      if cachedAverageImportance.Some? {
        averages := cachedAverageImportance.value;
      } else {
        var matrix := TransposedLocalFeatureImportances();
        averages := StoreMeans(matrix);
      }
    }

    /** Fills the averages cache with the row means of the cached transposed matrix. */
    method StoreMeans(matrix: seq<seq<int>>) returns (averages: seq<Option<real>>)
      requires Valid() && cachedTransposed == Some(matrix) && cachedAverageImportance.None?
      modifies this`cachedAverageImportance
      ensures Valid()
      ensures averages == AverageImportance(filteredData, jointDataset.importanceKeys)
      ensures cachedAverageImportance == Some(averages)
    {
      averages := Means(matrix);
      ghost var keys, view, order := jointDataset.importanceKeys, filteredData, transposedOrder;
      MeansOfCachedMatrix(view, keys, matrix, order, None);
      cachedAverageImportance := Some(averages);
      assert Valid() by {
        assert ViewAgrees(jointDataset.dataDict, keys, filters, filteredData, rowCount);
        assert CachesAgree(view, keys, cachedTransposed, order, cachedAverageImportance);
      }
    }
  }

  /** Two cohorts built one after the other get increasing, hence distinct, identifiers. */
  method BuildTwoCohorts(store: JointDataset, ids: CohortIdAllocator) returns (first: Cohort, second: Cohort)
    requires store.Valid()
    modifies ids
    ensures first.GetCohortID() < second.GetCohortID()
    ensures second.GetCohortID() == old(ids.next) + 1 && ids.next == old(ids.next) + 2
  {
    first := new Cohort("first", store, [], ids);
    second := new Cohort("second", store, [], ids);
  }

  /**
   * A filter change keeps the sort key, so sorting again by the same key
   * skips the re-sort: the view stays in store order.
   */
  method SortAfterRefilter(c: Cohort, key: string, f: Filter)
    requires c.Valid() && WellFormed(f) && HasColumn(c.filteredData, key)
    modifies c
    ensures c.filteredData == FilterRows(c.jointDataset.dataDict, c.filters)
    ensures c.currentSortKey == Some(key)
  {
    c.Sort(key, Some(false));
    c.UpdateFilter(f, None);
    c.Sort(key, Some(false));
  }

  /** With no change in between, a second request is answered from the caches. */
  method AskTwice(c: Cohort) returns (first: seq<Option<real>>, second: seq<Option<real>>)
    requires c.Valid()
    modifies c
    ensures c.Valid()
    ensures first == second == AverageImportance(c.filteredData, c.jointDataset.importanceKeys)
  {
    first := c.CalculateAverageImportance();
    second := c.CalculateAverageImportance();
  }

  /**
   * The averages fill the matrix cache as a side effect, and `sort` clears
   * neither cache: a matrix asked for after the sort still lists the rows in
   * the order they had before it.
   */
  method AveragesThenSort(c: Cohort, key: string, reverse: Option<bool>) returns (matrix: seq<seq<int>>)
    requires c.Valid() && c.cachedAverageImportance.None? && c.cachedTransposed.None?
    requires c.currentSortKey != Some(key) ==> HasColumn(c.filteredData, key)
    modifies c
    ensures matrix == ImportanceMatrix(old(c.filteredData), c.jointDataset.importanceKeys)
  {
    ghost var before := ImportanceMatrix(c.filteredData, c.jointDataset.importanceKeys);
    var averages := c.CalculateAverageImportance();
    assert c.cachedTransposed == Some(before);
    c.Sort(key, reverse);
    assert c.cachedTransposed == Some(before);
    matrix := c.TransposedLocalFeatureImportances();
  }
}
