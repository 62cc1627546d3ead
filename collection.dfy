/** The list helpers of class `Collection`. Every array argument is a dense
    list (keys 0..n-1); results that PHP leaves with their original keys
    (`intersects`, `join`, `uniques`) are keyed arrays. */
module Collection {
  import opened PhpValues
  import opened Seqs
  import opened PhpLib
  import opened Tilly

  /** PHP_INT_MAX on a 64-bit build: the depth `flatten` passes. */
  const PhpIntMax: int := 0x7FFF_FFFF_FFFF_FFFF

  /** A callback invoked as `$method($value, $key, $array)`. The key is
      passed as a value: Int(k), or Null where PHP's `key()` gives null. */
  type Callback = (Val, Val, seq<Val>) -> bool

  function Min(a: int, b: int): int {
    if a < b then a else b
  }

  function Max(a: int, b: int): int {
    if a < b then b else a
  }

  // ---------------------------------------------------------------------
  // chunk, compact, concat, difference

  /** `chunk`: a size below 1 gives no chunks; otherwise the list split into
      runs of `number`, the last one possibly shorter, in order. */
  function Chunk(arr: seq<Val>, number: int): (r: seq<seq<Val>>)
    ensures number < 1 ==> r == []
    ensures number >= 1 ==> ConcatAll(r) == arr
    ensures number >= 1 ==> forall i :: 0 <= i < |r| ==> 0 < |r[i]| <= number
    ensures number >= 1 ==> forall i :: 0 <= i < |r| - 1 ==> |r[i]| == number
  {
    if number < 1 then [] else ArrayChunk(arr, number)
  }

  /** The chunks as PHP values: a list of lists. */
  function AsLists(chunks: seq<seq<Val>>): (r: seq<Val>)
    ensures |r| == |chunks| && forall i :: 0 <= i < |r| ==> r[i] == List(chunks[i])
  {
    seq(|chunks|, i requires 0 <= i < |chunks| => List(chunks[i]))
  }

  /** Flattening the chunks one level gives the list back. */
  lemma {:induction false} ChunkThenFlatten(arr: seq<Val>, number: int)
    requires number >= 1
    ensures SelectsArrays(IsFlattenable)
    ensures Flat(AsLists(Chunk(arr, number)), 1, IsFlattenable, false) == arr
  {
    IsFlattenableSelectsArrays();
    FlatOneLevelOfLists(Chunk(arr, number));
  }

  lemma {:induction false} FlatOneLevelOfLists(chunks: seq<seq<Val>>)
    ensures SelectsArrays(IsFlattenable)
    ensures Flat(AsLists(chunks), 1, IsFlattenable, false) == ConcatAll(chunks)
    decreases |chunks|
  {
    IsFlattenableSelectsArrays();
    if chunks != [] {
      var init := chunks[..|chunks| - 1];
      FlatOneLevelOfLists(init);
      assert AsLists(chunks)[..|chunks| - 1] == AsLists(init);
      ConcatAllSnoc(init, chunks[|chunks| - 1]);
      assert chunks == init + [chunks[|chunks| - 1]];
    }
  }

  lemma ChunkExample()
    ensures Chunk([Int(1), Int(2), Int(3), Int(4), Int(5)], 2)
         == [[Int(1), Int(2)], [Int(3), Int(4)], [Int(5)]]
  {
    var a := [Int(1), Int(2), Int(3), Int(4), Int(5)];
    assert a[..2] == [Int(1), Int(2)] && a[2..] == [Int(3), Int(4), Int(5)];
    var b := a[2..];
    assert b[..2] == [Int(3), Int(4)] && b[2..] == [Int(5)];
    assert ArrayChunk([Int(5)], 2) == [[Int(5)]];
    assert ArrayChunk(b, 2) == [[Int(3), Int(4)], [Int(5)]];
  }

  /** `compact`: the truthy values, in order and renumbered from 0. */
  function Compact(arr: seq<Val>): (r: seq<Val>)
    ensures IsSubseq(r, arr)
    ensures forall i :: 0 <= i < |r| ==> Truthy(r[i])
  {
    Keep(arr, Truthy)
  }

  /** No truthy value is lost: each occurs as often as in the input. */
  lemma CompactKeepsTruthy(arr: seq<Val>, x: Val)
    requires Truthy(x)
    ensures multiset(Compact(arr))[x] == multiset(arr)[x]
  {
    KeepCounts(arr, Truthy, x);
  }

  lemma CompactIdempotent(arr: seq<Val>)
    ensures Compact(Compact(arr)) == Compact(arr)
  {
    KeepAll(Compact(arr), Truthy);
  }

  lemma CompactExample()
    ensures Compact([Int(0), Int(1), Bool(false), Int(2), Str(""), Int(3)]) == [Int(1), Int(2), Int(3)]
  {
    var a1 := [Int(0)];
    assert a1 == [] + [Int(0)];
    KeepSnoc([], Int(0));
    var a2 := a1 + [Int(1)];
    KeepSnoc(a1, Int(1));
    var a3 := a2 + [Bool(false)];
    KeepSnoc(a2, Bool(false));
    var a4 := a3 + [Int(2)];
    KeepSnoc(a3, Int(2));
    var a5 := a4 + [Str("")];
    KeepSnoc(a4, Str(""));
    var a6 := a5 + [Int(3)];
    KeepSnoc(a5, Int(3));
    assert a6 == [Int(0), Int(1), Bool(false), Int(2), Str(""), Int(3)];
  }

  lemma KeepSnoc(a: seq<Val>, x: Val)
    ensures Keep(a + [x], Truthy) == Keep(a, Truthy) + (if Truthy(x) then [x] else [])
  {
    assert (a + [x])[..|a|] == a;
  }

  /** The `$check` closure of `concat`: an array contributes its values, any
      other value itself. */
  function Wrap(v: Val): seq<Val> {
    if IsArray(v) then Elements(v) else [v]
  }

  function WrapAll(values: seq<Val>): seq<Val>
    decreases |values|
  {
    if values == [] then [] else WrapAll(values[..|values| - 1]) + Wrap(values[|values| - 1])
  }

  lemma IsArraySelectsArrays()
    ensures SelectsArrays(IsArray)
  {
  }

  /** `concat`: `array_merge` of the list and each extra value, an array
      contributing its values in order and anything else itself. The list
      comes first, unchanged; when no extra value is an array with keys other
      than 0..n-1, this is baseFlatten to depth 1 with the test `is_array`. */
  function Concat(arr: seq<Val>, values: seq<Val>): (r: seq<Val>)
    ensures SelectsArrays(IsArray)
    ensures |arr| <= |r| && r[..|arr|] == arr
    ensures (forall i :: 0 <= i < |values| ==> !values[i].Assoc? || IsFlattenable(values[i])) ==>
      r == arr + Flat(values, 1, IsArray, false)
  {
    IsArraySelectsArrays();
    var r := arr + WrapAll(values);
    if forall i :: 0 <= i < |values| ==> !values[i].Assoc? || IsFlattenable(values[i]) then
      ConcatIsOneLevel(values);
      r
    else
      r
  }

  lemma {:induction false} ConcatIsOneLevel(values: seq<Val>)
    requires SelectsArrays(IsArray)
    requires forall i :: 0 <= i < |values| ==> !values[i].Assoc? || IsFlattenable(values[i])
    ensures WrapAll(values) == Flat(values, 1, IsArray, false)
    decreases |values|
  {
    if values != [] {
      var v := values[|values| - 1];
      ConcatIsOneLevel(values[..|values| - 1]);
      if IsArray(v) {
        ReadByIndexDense(v);
      }
    }
  }

  lemma {:induction false} WrapAllAppend(a: seq<Val>, b: seq<Val>)
    ensures WrapAll(a + b) == WrapAll(a) + WrapAll(b)
    decreases |b|
  {
    if b == [] {
      assert a + b == a;
    } else {
      var init, x := b[..|b| - 1], b[|b| - 1];
      assert a + b == (a + init) + [x];
      calc {
        WrapAll(a + b);
        { WrapAllSnoc(a + init, x); }
        WrapAll(a + init) + Wrap(x);
        { WrapAllAppend(a, init); }
        (WrapAll(a) + WrapAll(init)) + Wrap(x);
        WrapAll(a) + (WrapAll(init) + Wrap(x));
      }
    }
  }

  lemma WrapAllSnoc(a: seq<Val>, x: Val)
    ensures WrapAll(a + [x]) == WrapAll(a) + Wrap(x)
  {
    assert (a + [x])[..|a|] == a;
  }

  /** Concatenating in two rounds is concatenating once. */
  lemma ConcatTwice(arr: seq<Val>, a: seq<Val>, b: seq<Val>)
    ensures Concat(Concat(arr, a), b) == Concat(arr, a + b)
  {
    WrapAllAppend(a, b);
  }

  /** The string forms of every value of every array in `values`. */
  function FormsOfAll(values: seq<seq<Val>>): set<string> {
    set k, i | 0 <= k < |values| && 0 <= i < |values[k]| :: StrForm(values[k][i])
  }

  /** `difference`: the values of arr whose string form matches no value of
      the other arrays, in order, duplicates kept, renumbered from 0. */
  function Difference(arr: seq<Val>, values: seq<seq<Val>>): (r: seq<Val>)
    ensures IsSubseq(r, arr)
    ensures forall i :: 0 <= i < |r| ==> StrForm(r[i]) !in FormsOfAll(values)
  {
    var excluded := FormsOfAll(values);
    Keep(arr, x => StrForm(x) !in excluded)
  }

  /** A value matching nothing in the other arrays is kept as often as it
      occurs, duplicates included. */
  lemma DifferenceKeepsUnmatched(arr: seq<Val>, values: seq<seq<Val>>, x: Val)
    requires StrForm(x) !in FormsOfAll(values)
    ensures multiset(Difference(arr, values))[x] == multiset(arr)[x]
  {
    var excluded := FormsOfAll(values);
    KeepCounts(arr, x => StrForm(x) !in excluded, x);
  }

  lemma DifferenceExample()
    ensures Difference([Int(2), Int(1)], [[Int(2), Int(3)]]) == [Int(1)]
  {
    var excluded := FormsOfAll([[Int(2), Int(3)]]);
    assert StrForm(Int(2)) in excluded by {
      assert [[Int(2), Int(3)]][0][0] == Int(2);
    }
    assert StrForm(Int(1)) == "1" && StrForm(Int(2)) == "2" && StrForm(Int(3)) == "3";
    assert StrForm(Int(1)) !in excluded;
    assert [Int(2), Int(1)][..1] == [Int(2)];
  }

  // ---------------------------------------------------------------------
  // drop_left, drop_left_if, drop_right, drop_right_if

  /** `drop_left`: `array_slice($array, $n)`. A non-negative n drops the
      first n values; a negative n keeps only the last |n|. */
  function DropLeft(arr: seq<Val>, n: int): (r: seq<Val>)
    ensures n >= 0 ==> r == arr[Min(n, |arr|)..]
    ensures n < 0 ==> r == arr[Max(|arr| + n, 0)..]
  {
    ArraySlice(arr, n, None)
  }

  /** `drop_right`: the count clamps n, then `array_slice($array, 0,
      $count - $n)`. A non-negative n drops the last n values; a negative n
      drops nothing. */
  function DropRight(arr: seq<Val>, n: int): (r: seq<Val>)
    ensures n >= 0 ==> r == arr[..|arr| - Min(n, |arr|)]
    ensures n < 0 ==> r == arr
  {
    var count := |arr|;
    var n' := if n > count then count else n;
    ArraySlice(arr, 0, Some(count - n'))
  }

  /** What drop_right leaves and drop_left takes put together give the list. */
  lemma DropRightThenDropLeft(arr: seq<Val>, n: int)
    requires 0 <= n <= |arr|
    ensures DropRight(arr, |arr| - n) + DropLeft(arr, n) == arr
    ensures |DropLeft(arr, n)| == |arr| - n
  {
  }

  /** `$array[$key]` on a list: the value under an integer key in range, and
      null (with a PHP warning) for any other key. */
  function Lookup(arr: seq<Val>, key: Val): Val {
    if key.Int? && 0 <= key.n < |arr| then arr[key.n] else Null
  }

  /** `key($array)` after `reset`, and after `end`. */
  function FirstKey(arr: seq<Val>): Val {
    if arr == [] then Null else Int(0)
  }

  function LastKey(arr: seq<Val>): Val {
    if arr == [] then Null else Int(|arr| - 1)
  }

  /** What drop_left_if returns: the list after removing its head for as
      long as the callback accepts the head (key 0) and the current list. */
  function DropLeftWhile(arr: seq<Val>, p: Callback): (r: seq<Val>)
    ensures |r| <= |arr| && r == arr[|arr| - |r|..]
    ensures r != [] ==> !p(r[0], Int(0), r)
    decreases |arr|
  {
    if arr == [] then []
    else if p(arr[0], Int(0), arr) then DropLeftWhile(arr[1..], p)
    else arr
  }

  /** Every value drop_left_if drops was accepted by the callback, as the
      head (key 0) of what was left of the list at the time. */
  lemma {:induction false} DropLeftWhileDrops(arr: seq<Val>, p: Callback)
    ensures forall k :: 0 <= k < |arr| - |DropLeftWhile(arr, p)| ==> p(arr[k], Int(0), arr[k..])
    decreases |arr|
  {
    if arr != [] && p(arr[0], Int(0), arr) {
      DropLeftWhileDrops(arr[1..], p);
      assert forall k :: 1 <= k <= |arr| - |DropLeftWhile(arr, p)| ==> arr[1..][k - 1..] == arr[k..];
    }
  }

  /** `drop_left_if`: shifts the head off a copy of the list while the
      callback accepts it. `array_shift` renumbers the keys, so the callback
      always sees key 0 and the shortened list; once the list is empty it is
      called once more with a null value and key. `calls` counts the
      callback invocations. */
  method DropLeftIf(arr: seq<Val>, method': Callback) returns (r: seq<Val>, ghost calls: nat)
    ensures r == DropLeftWhile(arr, method')
    ensures calls == |arr| - |r| + 1
  {
    var a := arr;
    var count := |a|;
    var length := 0;
    var index := FirstKey(a);
    calls := 1;
    var go := length <= count && method'(Lookup(a, index), index, a);
    while go
      invariant 0 <= length <= count + 1 && count == |arr|
      invariant a == arr[Min(length, count)..]
      invariant index == FirstKey(a)
      invariant DropLeftWhile(a, method') == DropLeftWhile(arr, method')
      invariant go == (length <= count && method'(Lookup(a, index), index, a))
      invariant calls == Min(length, count) + 1
      decreases count + 1 - length
    {
      DropLeftStep(a, method');
      a := Shift(a);
      length := length + 1;
      index := FirstKey(a);
      if length <= count {
        calls := calls + 1;
      }
      go := length <= count && method'(Lookup(a, index), index, a);
    }
    DropLeftStop(a, method');
    r := a;
  }

  /** `array_shift`: the list without its first value; an empty list stays
      empty. */
  function Shift(a: seq<Val>): (r: seq<Val>)
    ensures a == [] ==> r == []
    ensures a != [] ==> r == a[1..]
  {
    if a == [] then [] else a[1..]
  }

  lemma DropLeftStep(a: seq<Val>, p: Callback)
    requires p(Lookup(a, FirstKey(a)), FirstKey(a), a)
    ensures DropLeftWhile(Shift(a), p) == DropLeftWhile(a, p)
  {
  }

  lemma DropLeftStop(a: seq<Val>, p: Callback)
    requires a != [] ==> !p(Lookup(a, FirstKey(a)), FirstKey(a), a)
    ensures DropLeftWhile(a, p) == a
  {
  }

  /** What drop_right_if returns: the list after removing its last value for
      as long as the callback accepts it, with its key, and the current list. */
  function DropRightWhile(arr: seq<Val>, p: Callback): (r: seq<Val>)
    ensures |r| <= |arr| && r == arr[..|r|]
    ensures r != [] ==> !p(r[|r| - 1], Int(|r| - 1), r)
    decreases |arr|
  {
    if arr == [] then []
    else if p(arr[|arr| - 1], Int(|arr| - 1), arr) then DropRightWhile(arr[..|arr| - 1], p)
    else arr
  }

  /** Every value drop_right_if drops was accepted by the callback, as the
      last value, under its own key, of what was left of the list. */
  lemma {:induction false} DropRightWhileDrops(arr: seq<Val>, p: Callback)
    ensures forall k :: |DropRightWhile(arr, p)| < k <= |arr| ==> p(arr[k - 1], Int(k - 1), arr[..k])
    decreases |arr|
  {
    if arr != [] && p(arr[|arr| - 1], Int(|arr| - 1), arr) {
      DropRightWhileDrops(arr[..|arr| - 1], p);
      assert forall k :: |DropRightWhile(arr, p)| < k < |arr| ==> arr[..|arr| - 1][..k] == arr[..k];
      assert arr[..|arr|] == arr;
    }
  }

  /** `drop_right_if`: pops the last value off a copy of the list while the
      callback accepts it; the callback is not called on an empty list.
      `calls` counts the callback invocations. */
  method DropRightIf(arr: seq<Val>, method': Callback) returns (r: seq<Val>, ghost calls: nat)
    ensures r == DropRightWhile(arr, method')
    ensures calls == |arr| - |r| + (if r == [] then 0 else 1)
  {
    var a := arr;
    var length := |a|;
    var index := LastKey(a);
    calls := if length != 0 then 1 else 0;
    var go := length != 0 && method'(Lookup(a, index), index, a);
    while go
      invariant 0 <= length <= |arr| && a == arr[..length]
      invariant index == LastKey(a)
      invariant DropRightWhile(a, method') == DropRightWhile(arr, method')
      invariant go ==> length != 0 && method'(Lookup(a, index), index, a)
      invariant !go ==> DropRightWhile(a, method') == a
      invariant calls == |arr| - length + (if length != 0 then 1 else 0)
      decreases length
    {
      a := a[..|a| - 1];  // array_pop
      length := length - 1;
      index := LastKey(a);
      if length != 0 {
        calls := calls + 1;
      }
      go := length != 0 && method'(Lookup(a, index), index, a);
    }
    r := a;
  }

  // ---------------------------------------------------------------------
  // first, last, get

  /** `current($array)` after `reset`, and `end($array)`: the value there, or
      false for an empty list. */
  function Current(arr: seq<Val>): Val {
    if arr == [] then Bool(false) else arr[0]
  }

  function End(arr: seq<Val>): Val {
    if arr == [] then Bool(false) else arr[|arr| - 1]
  }

  /** PHP's `$a ?: $b`. */
  function Elvis(a: Val, b: Val): Val {
    if Truthy(a) then a else b
  }

  /** The first value, or null for an empty list. */
  function FirstElement(arr: seq<Val>): (r: Val)
    ensures r == Get(arr, 0)
  {
    if arr == [] then Null else arr[0]
  }

  /** The last value, or null for an empty list. */
  function LastElement(arr: seq<Val>): (r: Val)
    ensures r == Get(arr, -1)
  {
    if arr == [] then Null else arr[|arr| - 1]
  }

  /** `first`, as written: `current($array) ?: null`. It gives the first
      value only when that value is truthy; a falsy first value (0, "",
      "0", false, []) comes back as null. */
  function First(arr: seq<Val>): (r: Val)
    ensures arr == [] || !Truthy(arr[0]) ==> r == Null
    ensures arr != [] && Truthy(arr[0]) ==> r == arr[0]
    ensures r == FirstElement(arr) <==> (arr == [] || Truthy(arr[0]) || arr[0] == Null)
  {
    Elvis(Current(arr), Null)
  }

  /** `last`, as written: `end($array) ?: null`, with the same loss of a
      falsy last value. */
  function Last(arr: seq<Val>): (r: Val)
    ensures arr == [] || !Truthy(arr[|arr| - 1]) ==> r == Null
    ensures arr != [] && Truthy(arr[|arr| - 1]) ==> r == arr[|arr| - 1]
    ensures r == LastElement(arr) <==> (arr == [] || Truthy(arr[|arr| - 1]) || arr[|arr| - 1] == Null)
  {
    Elvis(End(arr), Null)
  }

  lemma FirstLastDropFalsy()
    ensures First([Int(0), Int(1)]) == Null && FirstElement([Int(0), Int(1)]) == Int(0)
    ensures Last([Int(1), Str("")]) == Null && LastElement([Int(1), Str("")]) == Str("")
  {
  }

  /** `get`: a negative index counts from the end; a position outside the
      list gives null. */
  function Get(arr: seq<Val>, index: int): (r: Val)
    ensures 0 <= index < |arr| ==> r == arr[index]
    ensures -|arr| <= index < 0 ==> r == arr[|arr| + index]
    ensures index >= |arr| || index < -|arr| ==> r == Null
  {
    var pos := if index < 0 then |arr| + index else index;
    Lookup(arr, Int(pos))
  }

  /** Index i and index i - count name the same value. */
  lemma GetNegativeMirrorsPositive(arr: seq<Val>, i: int)
    requires 0 <= i < |arr|
    ensures Get(arr, i - |arr|) == Get(arr, i)
  {
  }

  lemma GetExample()
    ensures Get([Int(1), Int(2), Int(3)], -1) == Int(3)
    ensures Get([Int(1), Int(2), Int(3)], 5) == Null
  {
  }

  // ---------------------------------------------------------------------
  // flatten, flatten_to

  /** `flatten_to`: baseFlatten with the default test, non-strict. */
  method FlattenTo(arr: seq<Val>, depth: int) returns (r: seq<Val>)
    ensures SelectsArrays(IsFlattenable)
    ensures r == Flat(arr, depth, IsFlattenable, false)
    ensures depth <= 0 ==> r == arr
    ensures Leaves(r) == Leaves(arr)
    ensures SeqHeight(r) <= SeqHeight(arr)
  {
    IsFlattenableSelectsArrays();
    r := BaseFlatten(Some(arr), depth, None, false, None);
    if depth <= 0 {
      FlatNoDepth(arr, depth, IsFlattenable, false);
    }
    FlatKeepsLeaves(arr, depth);
    FlatHeight(arr, depth, false);
  }

  /** `flatten`: baseFlatten to depth PHP_INT_MAX. Unless lists are nested
      that deep, the result is the leaves, and holds no dense list. */
  method Flatten(arr: seq<Val>) returns (r: seq<Val>)
    ensures SelectsArrays(IsFlattenable)
    ensures r == Flat(arr, PhpIntMax, IsFlattenable, false)
    ensures SeqHeight(arr) < PhpIntMax ==> r == Leaves(arr)
    ensures SeqHeight(arr) < PhpIntMax ==> forall i :: 0 <= i < |r| ==> !IsFlattenable(r[i])
  {
    IsFlattenableSelectsArrays();
    r := BaseFlatten(Some(arr), PhpIntMax, None, false, None);
    if SeqHeight(arr) < PhpIntMax {
      FlatBeyondHeight(arr, PhpIntMax);
      LeavesAreFlat(arr);
    }
  }

  /** Flattening fully after flattening to any depth is flattening fully. */
  lemma FlattenAbsorbsFlattenTo(arr: seq<Val>, depth: int)
    requires SeqHeight(arr) < PhpIntMax
    ensures SelectsArrays(IsFlattenable)
    ensures Flat(Flat(arr, depth, IsFlattenable, false), PhpIntMax, IsFlattenable, false)
         == Flat(arr, PhpIntMax, IsFlattenable, false)
  {
    IsFlattenableSelectsArrays();
    var once := Flat(arr, depth, IsFlattenable, false);
    FlatHeight(arr, depth, false);
    FlatBeyondHeight(once, PhpIntMax);
    FlatKeepsLeaves(arr, depth);
    FlatBeyondHeight(arr, PhpIntMax);
  }

  lemma FlattenExample()
    ensures SelectsArrays(IsFlattenable)
    ensures Flat([Int(1), List([Int(2), List([Int(3), List([Int(4)])]), Int(5)])], PhpIntMax, IsFlattenable, false)
         == [Int(1), Int(2), Int(3), Int(4), Int(5)]
  {
    IsFlattenableSelectsArrays();
    var middle := List([Int(2), List([Int(3), List([Int(4)])]), Int(5)]);
    FlattenExampleMiddle();
    FlatSnoc([], Int(1), PhpIntMax);
    FlatSnoc([Int(1)], middle, PhpIntMax);
  }

  lemma FlattenExampleMiddle()
    ensures SelectsArrays(IsFlattenable)
    ensures Flat([Int(2), List([Int(3), List([Int(4)])]), Int(5)], PhpIntMax - 1, IsFlattenable, false)
         == [Int(2), Int(3), Int(4), Int(5)]
  {
    IsFlattenableSelectsArrays();
    var d := PhpIntMax - 1;
    var inner := List([Int(3), List([Int(4)])]);
    FlattenExampleInner();
    FlatSnoc([], Int(2), d);
    assert [] + [Int(2)] == [Int(2)];
    FlatSnoc([Int(2)], inner, d);
    assert [Int(2)] + [inner] == [Int(2), inner];
    assert Emit(inner, d, IsFlattenable, false) == [Int(3), Int(4)];
    FlatSnoc([Int(2), inner], Int(5), d);
    assert [Int(2), inner] + [Int(5)] == [Int(2), inner, Int(5)];
  }

  lemma FlattenExampleInner()
    ensures SelectsArrays(IsFlattenable)
    ensures Flat([Int(3), List([Int(4)])], PhpIntMax - 2, IsFlattenable, false) == [Int(3), Int(4)]
  {
    IsFlattenableSelectsArrays();
    var d := PhpIntMax - 2;
    FlatSnoc([], Int(4), d - 1);
    FlatSnoc([], Int(3), d);
    FlatSnoc([Int(3)], List([Int(4)]), d);
  }

  lemma FlatSnoc(xs: seq<Val>, y: Val, depth: int)
    requires SelectsArrays(IsFlattenable)
    ensures Flat(xs + [y], depth, IsFlattenable, false) == Flat(xs, depth, IsFlattenable, false) + Emit(y, depth, IsFlattenable, false)
  {
    assert (xs + [y])[..|xs|] == xs;
  }

  // ---------------------------------------------------------------------
  // intersects, join, uniques

  /** The string forms of the values of a list. */
  function FormsOfList(arr: seq<Val>): set<string> {
    set i | 0 <= i < |arr| :: StrForm(arr[i])
  }

  /** x's string form occurs in every one of the arrays. */
  predicate InAll(x: Val, arrays: seq<seq<Val>>) {
    forall k :: 0 <= k < |arrays| ==> StrForm(x) in FormsOfList(arrays[k])
  }

  /** `intersects`: `array_intersect` keeps, with their keys and any
      repetitions, the values of the first array whose string form occurs in
      every other array. With no arrays at all PHP throws, modelled as None. */
  function Intersects(arrays: seq<seq<Val>>): (r: Option<seq<Entry>>)
    ensures r.None? <==> arrays == []
    ensures r.Some? ==> IsSubseq(r.value, Indexed(arrays[0]))
    ensures r.Some? ==> forall j :: 0 <= j < |r.value| ==> InAll(r.value[j].val, arrays[1..])
    ensures r.Some? ==> forall i :: 0 <= i < |arrays[0]| && InAll(arrays[0][i], arrays[1..]) ==>
      Entry(IntKey(i), arrays[0][i]) in r.value
  {
    if arrays == [] then None
    else
      var first, rest := Indexed(arrays[0]), arrays[1..];
      var kept := Keep(first, (e: Entry) => InAll(e.val, rest));
      assert forall i :: 0 <= i < |first| ==> first[i] == Entry(IntKey(i), arrays[0][i]);
      assert forall i :: 0 <= i < |first| && InAll(arrays[0][i], rest) ==> first[i] in kept by {
        forall i | 0 <= i < |first| && InAll(arrays[0][i], rest) ensures first[i] in kept {
          assert first[i] in multiset(first);
          KeepCounts(first, (e: Entry) => InAll(e.val, rest), first[i]);
        }
      }
      Some(kept)
  }

  /** `uniques`: `array_unique` keeps, with its key, each entry whose value's
      string form has not occurred before; no two kept values share a string
      form and every form survives. */
  function Uniques(arr: seq<Entry>): (r: seq<Entry>)
    ensures DistinctForms(r)
    ensures FormsOf(r) == FormsOf(arr)
    ensures IsSubseq(r, arr)
    ensures forall i :: 0 <= i < |arr| && (forall j :: 0 <= j < i ==> StrForm(arr[j].val) != StrForm(arr[i].val)) ==>
      arr[i] in r
  {
    UniqueDistinct(arr);
    UniqueForms(arr);
    UniqueSubseq(arr);
    forall i | 0 <= i < |arr| && (forall j :: 0 <= j < i ==> StrForm(arr[j].val) != StrForm(arr[i].val))
      ensures arr[i] in ArrayUnique(arr)
    {
      UniqueKeepsFirst(arr, i);
    }
    ArrayUnique(arr)
  }

  lemma UniquesIdempotent(arr: seq<Entry>)
    ensures Uniques(Uniques(arr)) == Uniques(arr)
  {
    UniqueOfDistinct(Uniques(arr));
  }

  /** `join`: `array_unique(array_merge(...$arrays))`: the arrays laid end to
      end and numbered 0.., then only the first entry of each string form,
      with its position as key. */
  function Join(arrays: seq<seq<Val>>): (r: seq<Entry>)
    ensures DistinctForms(r)
    ensures IsSubseq(r, Indexed(ConcatAll(arrays)))
    ensures forall k, i :: 0 <= k < |arrays| && 0 <= i < |arrays[k]| ==> StrForm(arrays[k][i]) in FormsOf(r)
    ensures var merged := Indexed(ConcatAll(arrays));
      forall i :: 0 <= i < |merged| && (forall j :: 0 <= j < i ==> StrForm(merged[j].val) != StrForm(merged[i].val)) ==>
        merged[i] in r
  {
    MergedForms(arrays);
    Uniques(Indexed(ConcatAll(arrays)))
  }

  lemma MergedForms(arrays: seq<seq<Val>>)
    ensures forall k, i :: 0 <= k < |arrays| && 0 <= i < |arrays[k]| ==>
      StrForm(arrays[k][i]) in FormsOf(Indexed(ConcatAll(arrays)))
  {
    var all := ConcatAll(arrays);
    var merged := Indexed(all);
    forall k, i | 0 <= k < |arrays| && 0 <= i < |arrays[k]| ensures StrForm(arrays[k][i]) in FormsOf(merged) {
      InConcatAll(arrays, k, arrays[k][i]);
      var j :| 0 <= j < |all| && all[j] == arrays[k][i];
      assert merged[j].val == arrays[k][i];
    }
  }

  // ---------------------------------------------------------------------
  // remove

  /** The callback's answer for each value, given its key and the whole
      original list. */
  function Verdicts(arr: seq<Val>, p: Callback): (d: seq<bool>)
    ensures |d| == |arr| && forall i :: 0 <= i < |arr| ==> d[i] == p(arr[i], Int(i), arr)
  {
    seq(|arr|, i requires 0 <= i < |arr| => p(arr[i], Int(i), arr))
  }

  /** `remove(&$array, $method)`: `array_filter` calls the callback on every
      value with its original key and the original list; the accepted values
      are collected and returned, and `$array` is left holding the rejected
      values renumbered from 0. `arr'` is the new value of `$array`. */
  method Remove(arr: seq<Val>, method': Callback) returns (arr': seq<Val>, removed: seq<Val>)
    ensures arr' == Pick(arr, Verdicts(arr, method'), false)
    ensures removed == Pick(arr, Verdicts(arr, method'), true)
  {
    ghost var d := Verdicts(arr, method');
    var resultArray := [];
    var kept := [];
    for i := 0 to |arr|
      invariant resultArray == Pick(arr[..i], d[..i], true)
      invariant kept == Pick(arr[..i], d[..i], false)
    {
      var result := method'(arr[i], Int(i), arr);
      assert arr[..i + 1][..i] == arr[..i] && d[..i + 1][..i] == d[..i];
      if result {
        resultArray := resultArray + [arr[i]];
      }
      if !result {
        kept := kept + [arr[i]];
      }
    }
    arr' := kept;  // array_values renumbers the kept values
    removed := resultArray;
    assert arr[..|arr|] == arr && d[..|arr|] == d;
  }

  /** What remove leaves and what it returns split the list: together they
      hold its values, each keeps the list's order, and every value lands on
      the side the callback's answer names. */
  lemma RemoveSplits(arr: seq<Val>, p: Callback)
    ensures multiset(Pick(arr, Verdicts(arr, p), false)) + multiset(Pick(arr, Verdicts(arr, p), true)) == multiset(arr)
    ensures |Pick(arr, Verdicts(arr, p), false)| + |Pick(arr, Verdicts(arr, p), true)| == |arr|
    ensures IsSubseq(Pick(arr, Verdicts(arr, p), false), arr) && IsSubseq(Pick(arr, Verdicts(arr, p), true), arr)
    ensures forall i :: 0 <= i < |arr| && p(arr[i], Int(i), arr) ==> arr[i] in Pick(arr, Verdicts(arr, p), true)
    ensures forall i :: 0 <= i < |arr| && !p(arr[i], Int(i), arr) ==> arr[i] in Pick(arr, Verdicts(arr, p), false)
  {
    var d := Verdicts(arr, p);
    PickPartition(arr, d);
    PickLengths(arr, d);
    PickInOrder(arr, d, true);
    PickInOrder(arr, d, false);
    PickSides(arr, d);
  }

  function IsEven(v: Val, key: Val, arr: seq<Val>): bool {
    v.Int? && v.n % 2 == 0
  }

  lemma RemoveExample()
    ensures Pick([Int(1), Int(2), Int(3), Int(4)], Verdicts([Int(1), Int(2), Int(3), Int(4)], IsEven), false) == [Int(1), Int(3)]
    ensures Pick([Int(1), Int(2), Int(3), Int(4)], Verdicts([Int(1), Int(2), Int(3), Int(4)], IsEven), true) == [Int(2), Int(4)]
  {
    EvenVerdicts();
    AlternatePicks();
  }

  lemma EvenVerdicts()
    ensures Verdicts([Int(1), Int(2), Int(3), Int(4)], IsEven) == [false, true, false, true]
  {
  }

  lemma AlternatePicks()
    ensures Pick([Int(1), Int(2), Int(3), Int(4)], [false, true, false, true], false) == [Int(1), Int(3)]
    ensures Pick([Int(1), Int(2), Int(3), Int(4)], [false, true, false, true], true) == [Int(2), Int(4)]
  {
    var a1, d1 := [Int(1)], [false];
    PickSnoc([], [], Int(1), false);
    assert a1 == [] + [Int(1)] && d1 == [] + [false];
    var a2, d2 := a1 + [Int(2)], d1 + [true];
    PickSnoc(a1, d1, Int(2), true);
    var a3, d3 := a2 + [Int(3)], d2 + [false];
    PickSnoc(a2, d2, Int(3), false);
    var a4, d4 := a3 + [Int(4)], d3 + [true];
    PickSnoc(a3, d3, Int(4), true);
    assert a4 == [Int(1), Int(2), Int(3), Int(4)] && d4 == [false, true, false, true];
  }

  // ---------------------------------------------------------------------
  // slice

  /** `slice`, as written: `array_slice($array, $start, $end)` takes `$end`
      as a LENGTH. With a non-negative end it returns up to `end` values from
      `start`, not the values before index `end`. A negative length stops
      that many values from the end, which is what the documented reading of
      a negative `end` gives, so the two readings differ only for end >= 0. */
  function Slice(arr: seq<Val>, start: int, end: Option<int>): (r: seq<Val>)
    ensures end.Some? && end.value >= 0 ==>
      r == arr[Position(|arr|, start)..Min(Position(|arr|, start) + end.value, |arr|)]
    ensures end.Some? && end.value < 0 ==>
      r == if |arr| + end.value <= Position(|arr|, start) then [] else arr[Position(|arr|, start)..|arr| + end.value]
    ensures end.None? ==> r == arr[Position(|arr|, start)..]
    ensures end.None? || end.value < 0 ==> r == SliceRange(arr, start, end)
  {
    ArraySlice(arr, start, end)
  }

  /** A bound as the doc comment reads it: negative counts from the end;
      clamped to the list. */
  function Position(n: nat, k: int): (p: nat)
    ensures p <= n
  {
    if k < 0 then Max(n + k, 0) else Min(k, n)
  }

  /** `slice` as documented: the values from `start` up to, not including,
      `end`; an omitted end means the end of the list. */
  function SliceRange(arr: seq<Val>, start: int, end: Option<int>): (r: seq<Val>)
    ensures 0 <= start <= |arr| && end.Some? && start <= end.value <= |arr| ==> r == arr[start..end.value]
    ensures IsSubseq(r, arr)
  {
    var lo := Position(|arr|, start);
    var hi := if end.None? then |arr| else Position(|arr|, end.value);
    var r := if hi <= lo then [] else arr[lo..hi];
    SliceIsSubseq(arr, lo, if hi <= lo then lo else hi);
    assert arr[lo..lo] == [];
    r
  }

  lemma {:induction false} SliceIsSubseq(arr: seq<Val>, lo: int, hi: int)
    requires 0 <= lo <= hi <= |arr|
    ensures IsSubseq(arr[lo..hi], arr)
  {
    SubseqRefl(arr[lo..hi]);
    SubseqPrepend(arr[lo..hi], arr[..lo], arr[lo..hi]);
    assert IsSubseq([], arr[hi..]);
    SubseqConcat(arr[lo..hi], arr[..lo] + arr[lo..hi], [], arr[hi..]);
    assert arr[lo..hi] + [] == arr[lo..hi];
    assert arr[..lo] + arr[lo..hi] + arr[hi..] == arr;
  }

  /** The as-written slice agrees with the documented one when the end is
      omitted, and with an end given it needs `end - start` to get
      `[start, end)`. */
  lemma SliceVersusSliceRange(arr: seq<Val>, start: int, end: int)
    requires 0 <= start <= end <= |arr|
    ensures Slice(arr, start, None) == SliceRange(arr, start, None)
    ensures Slice(arr, start, Some(end - start)) == SliceRange(arr, start, Some(end))
  {
  }

  lemma SliceExample()
    ensures Slice([Int(1), Int(2), Int(3), Int(4)], 1, Some(2)) == [Int(2), Int(3)]
    ensures SliceRange([Int(1), Int(2), Int(3), Int(4)], 1, Some(2)) == [Int(2)]
  {
  }
}
