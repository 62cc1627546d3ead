# tilly collections, modelled in Dafny

A model of the array helpers of the PHP utility library *tilly*
(`Leaf\Helpers\Tilly` and its subclass `Leaf\Helpers\Tilly\Collection`),
with the properties those helpers promise proved about the model.

- `values.dfy` (module `PhpValues`): PHP values as the helpers see them.
  A value is null, a boolean, an integer, a string, a dense list (keys
  0..n-1) or a keyed array. The module also gives PHP truthiness, the
  `(string)` form that `array_diff`, `array_intersect` and `array_unique`
  compare, and the reads `$a[$k]` and `$a[0..count-1]`.
- `seqs.dfy` (module `Seqs`): ordered subsequences, concatenation of a list
  of lists, and picking elements by a list of verdicts.
- `phplib.dfy` (module `PhpLib`): the PHP built-ins the helpers call:
  `array_slice`, `array_unique`, `array_chunk`, and the filter behind
  `array_filter`, `array_diff` and `array_intersect`.
- `tilly.dfy` (module `Tilly`): `arrayPush`, `isFlattenable` and
  `baseFlatten`.
  - `baseFlatten` is an imperative method, split in three: the call, its
    `foreach` loop, and the loop body.
  - It is proved against the function `Flat`.
  - Reference definitions (the leaves of a nested list and its nesting
    height) say what flattening achieves.
- `collection.dfy` (module `Collection`): every public method of
  `Collection`.
  - `drop_left_if`, `drop_right_if` and `remove` loop and mutate, so they
    are methods with loop invariants, proved against the functions
    `DropLeftWhile`, `DropRightWhile` and `Pick`.
  - `flatten` and `flatten_to` are methods because they call `baseFlatten`.
  - The rest are functions.

Parameters passed by reference (`arrayPush`'s `$array`, `remove`'s
`$array`) are modelled by returning their new value next to the return
value. Callbacks are total Dafny functions `(value, key, array) -> bool`.

## Model

| member | source | states |
|---|---|---|
| Tilly.ArrayPush | src/Tilly.php:14-25 | the array grows by exactly the pushed values, which land after the old contents in order; the old contents are untouched; the returned array is the updated one |
| Tilly.IsFlattenable | src/Tilly.php:27-30 | true exactly for the arrays whose keys are 0..count-1 in order (every dense list, the empty array included), false for every scalar |
| PhpValues.ReadByIndexDense | src/Tilly.php:20-22 | reading an array at indices 0..count-1, as arrayPush does, gives its values in order whenever its keys are 0..count-1 |
| Tilly.BaseFlatten | src/Tilly.php:32-56 | a null array returns the accumulator (empty by default); otherwise the result is the accumulator followed by the flattening of the array to the given depth, with the given test (isFlattenable by default) and strictness |
| Tilly.FlattenElements | src/Tilly.php:42-53 | the loop appends, element by element, each element's contribution to the accumulator |
| Tilly.FlattenValue | src/Tilly.php:43-52 | one element contributes its flattened elements (depth > 1), what arrayPush reads from it (depth 1), itself (not selected, non-strict) or nothing (not selected, strict) |
| Tilly.MethodOf | src/Tilly.php:40 | the test used when none is given selects only arrays |
| Tilly.FlatNoDepth | src/Tilly.php:43 | at depth 0 or below nothing is flattened: the non-strict result is the input and the strict result is empty |
| Tilly.FlatStrictSubseq | src/Tilly.php:50-52 | strict mode only drops elements: its result is an ordered subsequence of the non-strict result |
| Tilly.FlatKeepsLeaves | src/Tilly.php:42-53 | non-strict flattening with the default test never loses, adds or reorders a leaf, at any depth |
| Tilly.FlatHeight | src/Tilly.php:42-53 | flattening never makes the nesting of dense lists deeper |
| Tilly.LeavesAreFlat | src/Tilly.php:27-30 | no leaf of a nested list is a flattenable array |
| Tilly.FlatBeyondHeight | src/Tilly.php:42-53 | with a depth greater than the nesting height, non-strict flattening gives exactly the leaves |
| Tilly.FlatOneLevelExample | src/Tilly.php:44-49 | `[1, [2, [3]]]` flattened to depth 1 is `[1, 2, [3]]` |
| PhpLib.UniqueKeepsFirst | src/Tilly/Collection.php:291 | array_unique keeps every entry whose string form has not occurred earlier |
| PhpLib.UniqueOfDistinct | src/Tilly/Collection.php:291 | array_unique leaves an array with pairwise distinct string forms unchanged |
| PhpLib.KeepCounts | src/Tilly/Collection.php:41 | filtering keeps every value that passes the test as many times as it occurs |
| Collection.Chunk | src/Tilly/Collection.php:23-30 | a size below 1 gives no chunks; otherwise the chunks laid end to end are the list, none is empty or longer than the size, and all but the last have exactly the size |
| Collection.ChunkThenFlatten | src/Tilly/Collection.php:23-30 | flattening the chunks by one level gives the original list back |
| Collection.ChunkExample | src/Tilly/Collection.php:23-30 | chunk([1,2,3,4,5], 2) is [[1,2],[3,4],[5]] |
| Collection.Compact | src/Tilly/Collection.php:39-42 | the result is an ordered subsequence of the list and holds only truthy values |
| Collection.CompactKeepsTruthy | src/Tilly/Collection.php:39-42 | every truthy value survives compact as many times as it occurs |
| Collection.CompactIdempotent | src/Tilly/Collection.php:39-42 | compacting twice is compacting once |
| Collection.CompactExample | src/Tilly/Collection.php:39-42 | compact([0, 1, false, 2, "", 3]) is [1, 2, 3] |
| Collection.Concat | src/Tilly/Collection.php:52-59 | the list comes first, unchanged; when no extra value is an array with keys other than 0..n-1, the whole result is baseFlatten of the extra values to depth 1 with the test is_array |
| Collection.ConcatIsOneLevel | src/Tilly/Collection.php:54-58 | splicing each array in and wrapping each scalar is one level of flattening, for arrays keyed 0..n-1 |
| Collection.ConcatTwice | src/Tilly/Collection.php:52-59 | concatenating a then b onto a list is concatenating a + b |
| Collection.Difference | src/Tilly/Collection.php:70-73 | the result is an ordered subsequence of the list, and none of its values matches, by string form, a value of the other arrays |
| Collection.DifferenceKeepsUnmatched | src/Tilly/Collection.php:70-73 | every value that matches nothing in the other arrays is kept as many times as it occurs |
| Collection.DifferenceExample | src/Tilly/Collection.php:70-73 | difference([2, 1], [2, 3]) is [1] |
| Collection.DropLeft | src/Tilly/Collection.php:83-86 | n >= 0 drops the first n values (all of them if n exceeds the count); n < 0 keeps only the last abs(n) |
| Collection.DropRight | src/Tilly/Collection.php:121-130 | n >= 0 drops the last n values (all of them if n exceeds the count); n < 0 drops nothing |
| Collection.DropRightThenDropLeft | src/Tilly/Collection.php:83-130 | what drop_right(count - n) keeps followed by what drop_left(n) keeps is the whole list, and drop_left(n) keeps count - n values |
| Collection.DropLeftWhile | src/Tilly/Collection.php:96-111 | the result is a suffix of the list, and a non-empty result starts with a head the callback rejects |
| Collection.DropLeftWhileDrops | src/Tilly/Collection.php:103-104 | every dropped value was accepted by the callback as the head (key 0) of what was left of the list at the time |
| Collection.DropLeftIf | src/Tilly/Collection.php:96-111 | the loop returns exactly that suffix, and calls the callback once per dropped value plus one more time: the call that rejects, or the call on the emptied list |
| Collection.DropRightWhile | src/Tilly/Collection.php:140-154 | the result is a prefix of the list, and a non-empty result ends with a value the callback rejects |
| Collection.DropRightWhileDrops | src/Tilly/Collection.php:146-147 | every dropped value was accepted by the callback as the last value, under its own key, of what was left of the list |
| Collection.DropRightIf | src/Tilly/Collection.php:140-154 | the loop returns exactly that prefix, and calls the callback once per dropped value plus once unless the list was emptied |
| Collection.First | src/Tilly/Collection.php:163-167 | as written: null for an empty list or a falsy first value (0, "", "0", false, []), otherwise the first value; so it equals the documented first element exactly when the list is empty or its first value is truthy or null |
| Collection.Last | src/Tilly/Collection.php:237-240 | as written: null for an empty list or a falsy last value, otherwise the last value; so it equals the documented last element exactly when the list is empty or its last value is truthy or null |
| Collection.FirstElement | src/Tilly/Collection.php:156-167 | the first element, or null for an empty list: get(array, 0) |
| Collection.LastElement | src/Tilly/Collection.php:230-240 | the last element, or null for an empty list: get(array, -1) |
| Collection.FirstLastDropFalsy | src/Tilly/Collection.php:166 | first([0, 1]) is null while the first element is 0; last([1, ""]) is null while the last element is "" |
| Collection.Get | src/Tilly/Collection.php:202-204 | an index in range gives that element; a negative index in range counts from the end; any other index gives null |
| Collection.GetNegativeMirrorsPositive | src/Tilly/Collection.php:202-204 | index i and index i - count give the same element |
| Collection.GetExample | src/Tilly/Collection.php:202-204 | get([1,2,3], -1) is 3 and get([1,2,3], 5) is null |
| Collection.FlattenTo | src/Tilly/Collection.php:189-192 | the result is baseFlatten to the depth; depth 0 or below returns the list; the leaves are kept in order and the nesting does not deepen |
| Collection.Flatten | src/Tilly/Collection.php:176-179 | unless lists nest PHP_INT_MAX deep, the result is exactly the leaves of the list and holds no flattenable array |
| Collection.FlattenAbsorbsFlattenTo | src/Tilly/Collection.php:176-192 | flatten after flatten_to to any depth is flatten |
| Collection.FlattenExample | src/Tilly/Collection.php:176-179 | flatten([1, [2, [3, [4]], 5]]) is [1, 2, 3, 4, 5] |
| Collection.Intersects | src/Tilly/Collection.php:213-216 | with no arrays, none (PHP throws); otherwise an ordered subsequence of the first array under its original keys. It holds exactly the entries whose value's string form occurs in every other array: each kept entry has this property, and each entry with it is kept |
| Collection.Uniques | src/Tilly/Collection.php:289-292 | the result has pairwise distinct string forms and the same set of forms as the input; it is an ordered subsequence of the input under the original keys, and it keeps the first entry of each form |
| Collection.UniquesIdempotent | src/Tilly/Collection.php:289-292 | applying uniques twice is applying it once |
| Collection.Join | src/Tilly/Collection.php:225-228 | the result has pairwise distinct string forms; it is an ordered subsequence of the arrays laid end to end and renumbered; every value of every array has its form represented; the first entry of each form across the concatenation is the one kept, under its position as key |
| Collection.Remove | src/Tilly/Collection.php:250-266 | `$array` ends up holding the values the callback rejected and the return value holds the accepted ones, each in order; the callback sees each value with its original key and the original list |
| Collection.RemoveSplits | src/Tilly/Collection.php:250-266 | the two results together hold exactly the list's values (as multisets), their lengths add up to the count, both keep the list's order, and each value lands on the side its callback answer names |
| Collection.RemoveExample | src/Tilly/Collection.php:250-266 | remove([1,2,3,4], is-even) leaves [1,3] and returns [2,4] |
| Collection.Slice | src/Tilly/Collection.php:277-280 | as written, from start (a negative start counts from the end, clamped to the list): with end >= 0, up to `end` values (end is a length); with a negative end, up to `abs(end)` values before the end of the list; with no end, everything; for a negative or omitted end this is exactly the documented slice |
| Collection.SliceRange | src/Tilly/Collection.php:268-276 | as documented: the values from start up to, not including, end; always an ordered subsequence of the list |
| Collection.SliceVersusSliceRange | src/Tilly/Collection.php:268-280 | the two agree when no end is given, and the written slice needs end - start to give [start, end) |
| Collection.SliceExample | src/Tilly/Collection.php:277-280 | slice([1,2,3,4], 1, 2) gives [2, 3] where the documented behaviour is [2] |

## Left out

- Floats, objects and resources are not modelled. This covers the `NaN`
  of compact's doc comment; PHP has no `undefined`.
- PHP notices and warnings are not modelled. Examples: reading a missing
  key, or converting an array to a string. Only the value produced is
  modelled: null and "Array".
- Integer keys are not normalised from numeric strings (`"1"` is not key
  1), and integers are unbounded. PHP_INT_MAX appears only as the depth
  `flatten` passes.
- Tilly.BaseFlatten requires a test that accepts only arrays, and a dense
  accumulator (`$result` is a list). PHP accepts any callable test and any
  array as `$result`, and then does what the model does not capture:
  - at depth 1, a selected string reaches `arrayPush`, which pushes its
    characters (the `strlen` branch), and a selected null pushes nothing;
  - at depth above 1, a selected value that is neither null nor an array
    is a TypeError at the `?array $array` parameter, and a selected null
    returns the accumulator unchanged;
  - with a `$result` whose keys are not 0..n-1, the write
    `$result[count($result)] = $value` (src/Tilly.php:51) and arrayPush's
    writes can overwrite an existing key instead of appending.
- `isFlattenable` as the default of `baseFlatten`: the source's default is
  the string `'$this->isFlattenable'`, which PHP cannot call. The model
  uses the method that string names.
- Default argument values (`$n = 1`, `$depth = 1`, `$end = null`,
  `$array = []`) are not separate entry points. Callers pass the value.
- Array inputs of `Collection` are dense lists, except `uniques`, which
  takes any keyed array. Results that PHP leaves with their original keys
  (`intersects`, `join`, `uniques`) are keyed arrays.
- Collection.Concat: a string key that occurs in two merged arrays makes
  `array_merge` overwrite the earlier value. The model appends both values.
- Besides the two Findings below, the documentation and the code disagree
  in two further places; the model
  follows the code. `difference` keeps duplicates of the first array.
  `intersects` does not remove duplicates, although its doc comment says
  "unique values".
- Collection.First, Collection.Last: these model the code as written
  (a falsy first or last value gives null); the documented behaviour is
  FirstElement and LastElement; see Findings.
- `bootstrap.php` and `src/Tilly/Func.php` are not part of this model.

## Findings

| source | as written | input that shows it | evidently intended | confidence | as-written member | corrected member |
|---|---|---|---|---|---|---|
| src/Tilly/Collection.php:277-280 | `array_slice($array, $start, $end)` passes `end` as a length; for a negative or omitted end this agrees with the documentation, for end >= 0 it does not | slice([1,2,3,4], 1, 2) gives [2, 3] (Collection.SliceExample) | the values from start up to, not including, end: [2] | not executed; high, the doc comment says "up to, but not including, `end`" | Collection.Slice | Collection.SliceRange |
| src/Tilly/Collection.php:163-167 | `current($array) ?: null` turns a falsy element into null; `last` (lines 237-240) does the same with `end` | first([0, 1]) is null; last([1, ""]) is null (Collection.FirstLastDropFalsy) | the first or last element, null only for an empty list | not executed; medium, only the empty case evidently meant to give null | Collection.First | Collection.FirstElement |

