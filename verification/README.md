# Cohort engine of the interpretability dashboard

A model of the `Cohort` class of the explanation dashboard
(`visualization/dashboard/src/MLIDashboard/Cohort.ts`). A cohort is a
named, filtered view over the rows of a shared joint dataset. It keeps:

- an ordered list of filters, each on one column with one method (`equal`, `greaterThan`, `lessThan`, `includes`); the filters combine by AND;
- the materialised view (`_filteredData`) and its `rowCount`;
- a mutation counter;
- two memoised aggregates: the feature-by-row matrix of local importance values and the mean absolute importance of each feature;
- the current sort key of the view.

The model has six modules:

- `Wrappers`: the `Option` type.
- `Filters`: rows, filters, the per-row predicate and the selection of the rows that pass every filter.
- `Ordering`: the stable sort by one column, `reverse`, and `SortStep`, the value the view takes after one `sort` call.
- `Unwrapping`: the column projection and the bin lookup (`findIndex` of the first upper bound at or above a value, otherwise -1).
- `Importance`: the slice of importance values per row, a rectangular transpose, the importance matrix, the mean absolute value and its invariance under reordering of the rows.
- `Cohorts`: the `Cohort` class with its fields, methods and class invariant `Valid()`. Also the `JointDataset` state a cohort touches (rows, categorical flags, importance columns, bin vectors) and the allocator of cohort identifiers.

The class invariant says four things:

- The view holds exactly the rows of the store that pass every filter, in some order.
- `rowCount` is the view's length.
- The reversed flag is never set.
- Each filled cache agrees with the view.
  - The average cache holds exactly the averages of the view.
  - The transposed cache holds the view's columns in the row order the view had when the cache was filled. `sort` does not clear the caches, so that order can be stale; the ghost field `transposedOrder` records it.

The model reproduces these behaviours of the code as written:

- A filter whose method is none of the four rejects every row. The `switch` falls through to `undefined`, which `every` reads as false.
- A cell that is missing (`undefined`) fails every filter method.
- `equal` is strict equality, so a list argument never matches.
- `greaterThan` and `lessThan` coerce a list argument to a number: `[]` reads as 0, `[x]` reads as `x`, and a longer list reads as NaN, which fails every comparison.
- `sort` sets the reversed flag only ever to `false`. So an omitted `reverse` (`None` in the model) reverses the view on every call, just as `true` does. Two calls that omit it give back the original order (`SortStepOmittedTwice`).
- `applyFilters` keeps `currentSortKey`. After a filter change the view is in store order, but `sort` with the previous key skips the re-sort (`SortAfterRefilter`).
- `deleteFilter` with an index past the end removes nothing, since that is what `splice` does, but it still re-applies the filters and bumps the counter.
- `getRow` with an index outside the store returns the empty row, since that is what spreading `undefined` gives.
- The mean of an empty column is NaN in the code and `None` in the model.

## Model

| member | source | states |
|---|---|---|
| Filters.ArgAsNumber | visualization/dashboard/src/MLIDashboard/Cohort.ts:117-119 | The number a comparison sees: a numeric argument itself, and a list reads as NaN (`None`) exactly when it has more than one element |
| Filters.Holds | visualization/dashboard/src/MLIDashboard/Cohort.ts:112-122 | A row that passes a filter carries the filtered column, and the filter's method is one of the four |
| Filters.PassesAll | visualization/dashboard/src/MLIDashboard/Cohort.ts:111-123 | With no filters every row passes |
| Filters.PassesAllColumns | visualization/dashboard/src/MLIDashboard/Cohort.ts:111-123 | A row that passes every filter carries every filtered column, and no filter has an unknown method |
| Filters.HoldsListComparison | visualization/dashboard/src/MLIDashboard/Cohort.ts:117-119 | `greaterThan` or `lessThan` with a list compares against 0 for `[]` and against `x` for `[x]`, and fails for a longer list |
| Filters.HoldsSemantics | visualization/dashboard/src/MLIDashboard/Cohort.ts:112-122 | On a present cell, `equal`, `greaterThan` and `lessThan` with a number mean `==`, `>` and `<`, `includes` with a list means membership, and any other method rejects the row |
| Filters.HoldsMissingColumn | visualization/dashboard/src/MLIDashboard/Cohort.ts:112-122 | A row without the filtered column fails the filter, whatever the method |
| Filters.FilterRows | visualization/dashboard/src/MLIDashboard/Cohort.ts:110-124 | The result is at most as long as the store, and a row is in it iff it is in the store and passes every filter. Each passing row occurs as often as in the store; every other row does not occur |
| Filters.FilterRowsAppend | visualization/dashboard/src/MLIDashboard/Cohort.ts:110-124 | Filtering distributes over concatenation of stores, so the store order is kept |
| Filters.FilterRowsNoFilters | visualization/dashboard/src/MLIDashboard/Cohort.ts:110-124 | With no filters the view is the whole store |
| Filters.FilterRowsCompose | visualization/dashboard/src/MLIDashboard/Cohort.ts:111 | AND semantics: filtering by `f1 + f2` equals filtering by `f1`, then by `f2` |
| Filters.FilterRowsUnknownMethod | visualization/dashboard/src/MLIDashboard/Cohort.ts:113-122 | One filter with an unknown method empties the view |
| Ordering.Insert | visualization/dashboard/src/MLIDashboard/Cohort.ts:48-50 | Inserting into an ascending view keeps it ascending and adds one row, placed first or after the old first row |
| Ordering.InsertMultiset | visualization/dashboard/src/MLIDashboard/Cohort.ts:48-50 | Insertion adds exactly the one row |
| Ordering.SortByKey | visualization/dashboard/src/MLIDashboard/Cohort.ts:48-50 | The sorted view is a permutation of the view and ascending by the key |
| Ordering.SortByKeyStable | visualization/dashboard/src/MLIDashboard/Cohort.ts:48-50 | The sort is stable: for every key value, the rows carrying it keep their relative order |
| Ordering.Reversed | visualization/dashboard/src/MLIDashboard/Cohort.ts:55 | Row `i` of the result is row `n-1-i` of the input |
| Ordering.ReversedMultiset | visualization/dashboard/src/MLIDashboard/Cohort.ts:55 | Reversing only reorders |
| Ordering.ReversedTwice | visualization/dashboard/src/MLIDashboard/Cohort.ts:55 | Reversing twice restores the view |
| Ordering.ReversedAscending | visualization/dashboard/src/MLIDashboard/Cohort.ts:55 | An ascending view reversed is descending |
| Ordering.SortStep | visualization/dashboard/src/MLIDashboard/Cohort.ts:46-57 | The view after one `sort` call is a permutation of the view before it |
| Ordering.SortStepNewKey | visualization/dashboard/src/MLIDashboard/Cohort.ts:47-56 | A new key leaves the view ascending by it when `reverse` is exactly `false`, and descending otherwise (also when omitted) |
| Ordering.SortStepSameKeyKeeps | visualization/dashboard/src/MLIDashboard/Cohort.ts:46-57 | The same key with `reverse` equal to the reversed flag leaves the view unchanged |
| Ordering.SortStepFlip | visualization/dashboard/src/MLIDashboard/Cohort.ts:46-57 | `sort(k, true)` right after `sort(k, false)` gives exactly the reverse of the view |
| Ordering.SortStepOmittedTwice | visualization/dashboard/src/MLIDashboard/Cohort.ts:52-56 | Two calls `sort(k)` with `reverse` omitted give back the original order |
| Unwrapping.FirstAtLeast | visualization/dashboard/src/MLIDashboard/Cohort.ts:73 | `findIndex`: the least index whose bound is at or above the value, or -1 when every bound is below it |
| Unwrapping.BinIndex | visualization/dashboard/src/MLIDashboard/Cohort.ts:72-73 | The bin of a cell: a missing cell gets -1, a present one the least bound at or above it, or -1 |
| Unwrapping.BinIndexInterval | visualization/dashboard/src/MLIDashboard/Cohort.ts:62-73 | With ascending bounds, bin `r` is the right-closed interval between bound `r-1` and bound `r`; -1 means the value is above the last bound |
| Unwrapping.BinIndexMonotone | visualization/dashboard/src/MLIDashboard/Cohort.ts:73 | A larger value never falls in an earlier bin |
| Unwrapping.BinIndexExamples | visualization/dashboard/src/MLIDashboard/Cohort.ts:73 | With bounds [10, 20, 30]: 15 falls in bin 1, 10 in bin 0 and 35 in no bin |
| Unwrapping.Project | visualization/dashboard/src/MLIDashboard/Cohort.ts:76 | One entry per row; entry `i` is row `i`'s cell, or undefined |
| Unwrapping.BinProject | visualization/dashboard/src/MLIDashboard/Cohort.ts:71-74 | One entry per row; entry `i` is the bin of row `i`'s cell |
| Importance.Slice | visualization/dashboard/src/MLIDashboard/Cohort.ts:98-100 | A row's importance values, one per feature, in feature order |
| Importance.Slices | visualization/dashboard/src/MLIDashboard/Cohort.ts:99-101 | One slice per row of the view, in the view's order |
| Importance.Transpose | visualization/dashboard/src/MLIDashboard/Cohort.ts:102 | The transpose has one row per feature and one column per view row, with entry `(j, i)` equal to entry `(i, j)` of the input |
| Importance.TransposeTwice | visualization/dashboard/src/MLIDashboard/Cohort.ts:102 | Transposing twice restores the matrix |
| Importance.ImportanceMatrix | visualization/dashboard/src/MLIDashboard/Cohort.ts:98-102 | Row `j` of the matrix is feature `j`'s column across the view |
| Importance.MeanAbs | visualization/dashboard/src/MLIDashboard/Cohort.ts:84-90 | The mean exists iff the column is not empty. It is non-negative, and multiplied by the length it gives the sum of absolute values |
| Importance.Means | visualization/dashboard/src/MLIDashboard/Cohort.ts:84 | One mean per matrix row |
| Importance.AverageImportance | visualization/dashboard/src/MLIDashboard/Cohort.ts:79-92 | Entry `j` is the mean absolute value of feature `j` over the view |
| Importance.SumAbs | visualization/dashboard/src/MLIDashboard/Cohort.ts:88 | The sum of absolute values is never negative |
| Importance.SumAbsZero | visualization/dashboard/src/MLIDashboard/Cohort.ts:88 | The sum of absolute values is zero exactly when every value is zero |
| Importance.SumAbsAppend | visualization/dashboard/src/MLIDashboard/Cohort.ts:88 | The absolute sum of a concatenation is the sum of the absolute sums |
| Importance.SumAbsPermutation | visualization/dashboard/src/MLIDashboard/Cohort.ts:88 | The absolute sum does not depend on the order of the values |
| Importance.FilterRowsHasKeys | visualization/dashboard/src/MLIDashboard/Cohort.ts:110-124 | The filtered view of a store whose rows carry the importance columns carries them too |
| Importance.ColumnPermutation | visualization/dashboard/src/MLIDashboard/Cohort.ts:99-102 | Reordering the rows reorders each feature column in the same way |
| Importance.AverageImportancePermutation | visualization/dashboard/src/MLIDashboard/Cohort.ts:79-92 | The averages do not depend on the order of the view's rows |
| Cohorts.ViewAgreesReorder | visualization/dashboard/src/MLIDashboard/Cohort.ts:46-57 | A reordered view still holds exactly the rows that pass the filters |
| Cohorts.CachesAgreeReorder | visualization/dashboard/src/MLIDashboard/Cohort.ts:46-57 | Reordering the view keeps both caches in agreement with it |
| Cohorts.MeansOfCachedMatrix | visualization/dashboard/src/MLIDashboard/Cohort.ts:84 | The means of the cached matrix are the averages of the current view, even after a sort |
| Cohorts.CachedColumns | visualization/dashboard/src/MLIDashboard/Cohort.ts:94-97 | A cached matrix holds each feature's column of the current view up to order |
| Cohorts.CohortIdAllocator.constructor | visualization/dashboard/src/MLIDashboard/Cohort.ts:7 | The counter starts at 0 |
| Cohorts.CohortIdAllocator.Issue | visualization/dashboard/src/MLIDashboard/Cohort.ts:18-19 | Returns the current counter value and advances the counter by one |
| Cohorts.JointDataset.AddBin | visualization/dashboard/src/MLIDashboard/Cohort.ts:68-69 | The bin vector of the key is recorded; the other bin vectors are unchanged |
| Cohorts.Cohort.constructor | visualization/dashboard/src/MLIDashboard/Cohort.ts:17-21 | The new cohort takes the next identifier and the allocator advances by one. It then holds the filtered view in store order, the row count and empty caches, with the counter at 1 and no sort key |
| Cohorts.Cohort.ApplyFilters | visualization/dashboard/src/MLIDashboard/Cohort.ts:106-126 | The view becomes the filtered store in store order and the row count its length. Both caches are cleared and the counter goes up by one. The filters and the sort key are kept |
| Cohorts.Cohort.UpdateFilter | visualization/dashboard/src/MLIDashboard/Cohort.ts:23-30 | With no index, or the index one past the end, the filter is appended; otherwise only that position is replaced. The filters are then re-applied |
| Cohorts.Cohort.DeleteFilter | visualization/dashboard/src/MLIDashboard/Cohort.ts:37-40 | The filter at a valid index is removed and the others keep their order; a larger index removes nothing. The filters are re-applied either way |
| Cohorts.Cohort.GetCohortID | visualization/dashboard/src/MLIDashboard/Cohort.ts:33-35 | The identifier issued when the cohort was built; it is a constant field, so no later call changes it |
| Cohorts.Cohort.GetRow | visualization/dashboard/src/MLIDashboard/Cohort.ts:42-44 | The store's row at the index, whether or not it passes the filters; the empty row outside the store |
| Cohorts.Cohort.Sort | visualization/dashboard/src/MLIDashboard/Cohort.ts:46-57 | The new view is `SortStep` of the old view, flag and key. The key becomes the sort key, the flag stays false, and the invariant and caches survive |
| Cohorts.Cohort.Unwrap | visualization/dashboard/src/MLIDashboard/Cohort.ts:64-77 | A binned numeric column gives each row's bin, adding the bin vector on first use; otherwise the raw cells. The length equals the row count either way |
| Cohorts.Cohort.TransposedLocalFeatureImportances | visualization/dashboard/src/MLIDashboard/Cohort.ts:94-104 | A filled cache is returned unchanged; otherwise the matrix of the current view is computed and cached. Either way each row is a feature column of the view up to order |
| Cohorts.Cohort.CalculateAverageImportance | visualization/dashboard/src/MLIDashboard/Cohort.ts:79-104 | Returns the averages of the current view and caches them. A filled averages cache is returned unchanged, and the matrix cache is left alone. Otherwise the matrix cache keeps its filled value, or is filled with the matrix of the current view |
| Cohorts.Cohort.StoreMeans | visualization/dashboard/src/MLIDashboard/Cohort.ts:84-91 | The means of the cached matrix are the averages of the view, and they are stored in the cache |
| Cohorts.BuildTwoCohorts | visualization/dashboard/src/MLIDashboard/Cohort.ts:17-21 | Cohorts built one after another get strictly increasing, hence distinct, identifiers |
| Cohorts.SortAfterRefilter | visualization/dashboard/src/MLIDashboard/Cohort.ts:106-126 | After a filter change, sorting by the previous key leaves the view in store order |
| Cohorts.AveragesThenSort | visualization/dashboard/src/MLIDashboard/Cohort.ts:46-57 | Asking for the averages fills the matrix cache. A later `sort` clears neither cache, so the matrix asked for after the sort lists the rows in their order before it |
| Cohorts.AskTwice | visualization/dashboard/src/MLIDashboard/Cohort.ts:79-82 | Two requests with no change in between return the same averages |

## Left out

- Numbers are mathematical integers, and means are exact reals. IEEE floating point is not modelled, and an empty column's NaN mean is `None`.
- `JointDataset.addBin`, which derives a column's bin vector from the data, is not part of this model. `Cohorts.Cohort.Unwrap` takes the vector it would add as the parameter `defaultBins`.
- `JointDataset.localExplanationSlice` and `ModelExplanationUtils.transpose2DArray` are not part of this model. The model uses its own definitions: the slice is each row's value for each local-importance column in feature order, and the transpose is rectangular with an explicit width. An empty view therefore gives one empty column per feature.
- The filter list is held by value. The code's array is shared with whoever passed it to the constructor, and that aliasing is not modelled.
- The per-class static counter becomes an explicit `CohortIdAllocator` object passed to the constructor, which takes its identifier with `Issue`.
- Cohorts.Cohort.UpdateFilter: requires the index to be at most the length. An index past that would leave holes (a sparse array) in the code.
- Cohorts.Cohort.DeleteFilter: takes a natural-number index. Negative `splice` indices, which count from the end, are not modelled.
- Cohorts.Cohort.Sort: requires every row of the view to carry the column when the view must be re-sorted. With a missing cell the comparator yields NaN and the order the engine picks is unspecified.
- Cohorts.Cohort.Sort: the default column name (the dataset's index column) is not modelled. Every call names the column.
- Cohorts.Cohort.Unwrap: requires the column to have an entry in the categorical flags when bins are requested. The code dereferences that entry and would throw without it.
- `includes` with a number argument throws in the code, because a number has no `includes`. The model excludes such filters with `WellFormed`, a precondition of the constructor and of `UpdateFilter`.
- Cohorts.Cohort.TransposedLocalFeatureImportances: states the returned matrix of a filled cache only up to the row order of each feature. After a sort, the code returns the matrix in the old row order, and the model keeps that order in the ghost field `transposedOrder`.
- Cohorts.Cohort.constructor: requires every row of the store to carry every local-importance column (`JointDataset.Valid`). The code accepts any store; a row without such a column would give `undefined` slice entries and NaN means, which the model does not represent. The model assumes that every row has the same set of columns.
- Rendering code that calls the cohort (the what-if and global explanation tabs) is not part of this model.
