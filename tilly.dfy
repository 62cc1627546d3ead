/** The flatten primitives of the base class `Tilly`: appending a list onto a
    list through a reference, recognising dense lists, and depth-bounded
    flattening. */
module Tilly {
  import opened PhpValues
  import opened Seqs

  /** `range(0, hi)`: ascending 0..hi when hi >= 0; PHP counts downwards
      otherwise, so range(0, -1) is [0, -1], not the empty list. */
  function RangeFromZero(hi: int): (r: seq<int>)
    ensures hi >= 0 ==> |r| == hi + 1 && forall i :: 0 <= i < |r| ==> r[i] == i
    ensures hi < 0 ==> r != [] && r[0] == 0
  {
    if hi >= 0 then seq(hi + 1, i => i) else seq(1 - hi, i => -i)
  }

  function IntKeys(s: seq<int>): (r: seq<Key>)
    ensures |r| == |s| && forall i :: 0 <= i < |s| ==> r[i] == IntKey(s[i])
  {
    seq(|s|, i requires 0 <= i < |s| => IntKey(s[i]))
  }

  /** `isFlattenable`: an array that is empty or whose keys, compared
      strictly, are 0..count-1 in that order. The emptiness test is needed
      because range(0, -1) is not empty. */
  function IsFlattenable(v: Val): (r: bool)
    ensures r <==> (v.List? ||
      (v.Assoc? && forall i :: 0 <= i < |v.entries| ==> v.entries[i].key == IntKey(i)))
  {
    match v
    case List(_) => true  // the keys of a List are 0..n-1 by construction
    case Assoc(e) =>
      assert e != [] ==> |IntKeys(RangeFromZero(|e| - 1))| == |e|;
      e == [] || IntKeys(RangeFromZero(|e| - 1)) == Keys(e)
    case _ => false
  }

  /** `arrayPush(&$array, $values)`: writes values[i] at key offset+i of
      `$array`, where offset is its count, and returns the array it wrote to.
      The reference is modelled by returning its new value `arr'`; `ret` is
      the return value. */
  method ArrayPush(arr: seq<Val>, values: seq<Val>) returns (arr': seq<Val>, ret: seq<Val>)
    ensures |arr'| == |arr| + |values|
    ensures arr'[..|arr|] == arr
    ensures forall i :: 0 <= i < |values| ==> arr'[|arr| + i] == values[i]
    ensures ret == arr'
  {
    var length := |values|;
    var offset := |arr|;
    arr' := arr;
    var index := 0;
    while index < length
      invariant 0 <= index <= length
      invariant arr' == arr + values[..index]
    {
      // key offset+index is the next free key of the dense list arr'
      assert |arr'| == offset + index;
      arr' := arr' + [values[index]];
      index := index + 1;
    }
    ret := arr';
  }

  /** A flatten test may only accept arrays: baseFlatten recurses into, or
      pushes the elements of, whatever the test accepts. */
  ghost predicate SelectsArrays(m: Val -> bool) {
    forall v :: m(v) ==> IsArray(v)
  }

  lemma IsFlattenableSelectsArrays()
    ensures SelectsArrays(IsFlattenable)
  {
  }

  function DepthBound(depth: int): nat {
    if depth > 0 then depth else 0
  }

  /** What `baseFlatten` appends to its accumulator for the elements xs, at
      the given depth, with flatten test m and strict flag. */
  function Flat(xs: seq<Val>, depth: int, m: Val -> bool, strict: bool): seq<Val>
    requires SelectsArrays(m)
    decreases DepthBound(depth), |xs|, 1
  {
    if xs == [] then []
    else Flat(xs[..|xs| - 1], depth, m, strict) + Emit(xs[|xs| - 1], depth, m, strict)
  }

  /** What one element contributes: when it is flattened at this depth, its
      elements flattened one level less, or at depth 1 what arrayPush reads
      from it at indices 0..count-1; otherwise itself unless strict. */
  function Emit(v: Val, depth: int, m: Val -> bool, strict: bool): seq<Val>
    requires SelectsArrays(m)
    decreases DepthBound(depth), 0, 0
  {
    if depth > 0 && m(v) then
      if depth > 1 then Flat(Elements(v), depth - 1, m, strict) else ReadByIndex(v)
    else if !strict then [v]
    else []
  }

  /** The flatten test baseFlatten uses. PHP's default is the string
      '$this->isFlattenable', which is not a callable, so the source fails on
      the first test it makes; the model uses the function that string names. */
  function MethodOf(method': Option<Val -> bool>): (m: Val -> bool)
    requires method'.Some? ==> SelectsArrays(method'.value)
    ensures SelectsArrays(m)
  {
    IsFlattenableSelectsArrays();
    if method'.Some? then method'.value else IsFlattenable
  }

  function AccOf(result: Option<seq<Val>>): seq<Val> {
    if result.Some? then result.value else []
  }

  /** `baseFlatten($array, $depth, $method, $isStrict, $result)`. A null
      array gives back the accumulator (an empty one when none is given);
      otherwise the elements are flattened onto it left to right. */
  method BaseFlatten(arr: Option<seq<Val>>, depth: int, method': Option<Val -> bool>,
                     isStrict: bool, result: Option<seq<Val>>) returns (r: seq<Val>)
    requires method'.Some? ==> SelectsArrays(method'.value)
    ensures arr.None? ==> r == AccOf(result)
    ensures arr.Some? ==> r == AccOf(result) + Flat(arr.value, depth, MethodOf(method'), isStrict)
    decreases DepthBound(depth), 2
  {
    r := AccOf(result);
    if arr.None? {
      return;
    }
    r := FlattenElements(arr.value, depth, MethodOf(method'), isStrict, r);
  }

  /** baseFlatten's `foreach` loop: each element's contribution is appended
      to the accumulator in turn. */
  method FlattenElements(xs: seq<Val>, depth: int, m: Val -> bool, isStrict: bool, result: seq<Val>)
    returns (r: seq<Val>)
    requires SelectsArrays(m)
    ensures r == result + Flat(xs, depth, m, isStrict)
    decreases DepthBound(depth), 1
  {
    r := result;
    for i := 0 to |xs|
      invariant r == result + Flat(xs[..i], depth, m, isStrict)
    {
      r := FlattenValue(xs[i], depth, m, isStrict, r);
      FlatStep(xs, i, depth, m, isStrict);
    }
    assert xs[..|xs|] == xs;
  }

  /** The body of baseFlatten's loop for one element: recurse into it at
      depth > 1, push it with arrayPush at depth 1, otherwise append it
      unless strict. */
  method FlattenValue(value: Val, depth: int, m: Val -> bool, isStrict: bool, result: seq<Val>)
    returns (r: seq<Val>)
    requires SelectsArrays(m)
    ensures r == result + Emit(value, depth, m, isStrict)
    decreases DepthBound(depth), 0
  {
    r := result;
    if depth > 0 && m(value) {
      if depth > 1 {
        r := BaseFlatten(Some(Elements(value)), depth - 1, Some(m), isStrict, Some(r));
      } else {
        var pushed;
        r, pushed := ArrayPush(r, ReadByIndex(value));
        assert r == result + ReadByIndex(value);
      }
    } else if !isStrict {
      r := r + [value];  // $result[count($result)] = $value
    }
  }

  lemma FlatStep(xs: seq<Val>, i: int, depth: int, m: Val -> bool, strict: bool)
    requires SelectsArrays(m) && 0 <= i < |xs|
    ensures Flat(xs[..i + 1], depth, m, strict) == Flat(xs[..i], depth, m, strict) + Emit(xs[i], depth, m, strict)
  {
    assert xs[..i + 1][..i] == xs[..i];
  }

  // ---------------------------------------------------------------------
  // Reference definitions: the leaves of a nested list and its height.

  /** The values that are not dense lists, found by walking all dense lists
      left to right. */
  function Leaves(xs: seq<Val>): seq<Val>
    decreases SizeSeq(xs), 1
  {
    if xs == [] then [] else Leaves(xs[..|xs| - 1]) + LeavesOf(xs[|xs| - 1])
  }

  function LeavesOf(v: Val): seq<Val>
    decreases Size(v), 0
  {
    if IsFlattenable(v) then ElementsSmaller(v); Leaves(Elements(v)) else [v]
  }

  /** How deep dense lists are nested in v: 0 for anything else. */
  function Height(v: Val): nat
    decreases Size(v), 0
  {
    if IsFlattenable(v) then ElementsSmaller(v); 1 + SeqHeight(Elements(v)) else 0
  }

  function SeqHeight(xs: seq<Val>): nat
    decreases SizeSeq(xs), 1
  {
    if xs == [] then 0
    else
      var h, k := SeqHeight(xs[..|xs| - 1]), Height(xs[|xs| - 1]);
      if h < k then k else h
  }

  lemma {:induction false} LeavesAppend(a: seq<Val>, b: seq<Val>)
    ensures Leaves(a + b) == Leaves(a) + Leaves(b)
    decreases |b|
  {
    if b == [] {
      assert a + b == a;
    } else {
      assert (a + b)[..|a + b| - 1] == a + b[..|b| - 1];
      assert (a + b)[|a + b| - 1] == b[|b| - 1];
      LeavesAppend(a, b[..|b| - 1]);
    }
  }

  lemma {:induction false} SeqHeightAppend(a: seq<Val>, b: seq<Val>)
    ensures SeqHeight(a + b) == if SeqHeight(a) < SeqHeight(b) then SeqHeight(b) else SeqHeight(a)
    decreases |b|
  {
    if b == [] {
      assert a + b == a;
    } else {
      assert (a + b)[..|a + b| - 1] == a + b[..|b| - 1];
      assert (a + b)[|a + b| - 1] == b[|b| - 1];
      SeqHeightAppend(a, b[..|b| - 1]);
    }
  }

  lemma LeavesSingleton(v: Val)
    ensures Leaves([v]) == LeavesOf(v)
    ensures SeqHeight([v]) == Height(v)
  {
    assert [v][..0] == [];
  }

  // ---------------------------------------------------------------------
  // Properties of baseFlatten, through Flat.

  /** Depth 0 or less flattens nothing: non-strict keeps every element,
      strict drops every element. */
  lemma {:induction false} FlatNoDepth(xs: seq<Val>, depth: int, m: Val -> bool, strict: bool)
    requires SelectsArrays(m) && depth <= 0
    ensures Flat(xs, depth, m, strict) == if strict then [] else xs
    decreases |xs|
  {
    if xs != [] {
      FlatNoDepth(xs[..|xs| - 1], depth, m, strict);
      assert xs == xs[..|xs| - 1] + [xs[|xs| - 1]];
    }
  }

  /** Strict mode only drops elements: its result is a subsequence of the
      non-strict result. */
  lemma {:induction false} FlatStrictSubseq(xs: seq<Val>, depth: int, m: Val -> bool)
    requires SelectsArrays(m)
    ensures IsSubseq(Flat(xs, depth, m, true), Flat(xs, depth, m, false))
    decreases DepthBound(depth), |xs|
  {
    if xs == [] {
    } else {
      var init, v := xs[..|xs| - 1], xs[|xs| - 1];
      FlatStrictSubseq(init, depth, m);
      if depth > 0 && m(v) {
        if depth > 1 {
          FlatStrictSubseq(Elements(v), depth - 1, m);
        } else {
          SubseqRefl(ReadByIndex(v));
        }
      } else {
        assert IsSubseq([], [v]);
      }
      SubseqConcat(Flat(init, depth, m, true), Flat(init, depth, m, false),
                   Emit(v, depth, m, true), Emit(v, depth, m, false));
    }
  }

  /** Non-strict flattening with the default test never loses, adds or
      reorders a leaf. */
  lemma {:induction false} FlatKeepsLeaves(xs: seq<Val>, depth: int)
    requires SelectsArrays(IsFlattenable)
    ensures Leaves(Flat(xs, depth, IsFlattenable, false)) == Leaves(xs)
    decreases DepthBound(depth), |xs|
  {
    if xs != [] {
      var init, v := xs[..|xs| - 1], xs[|xs| - 1];
      FlatKeepsLeaves(init, depth);
      LeavesAppend(Flat(init, depth, IsFlattenable, false), Emit(v, depth, IsFlattenable, false));
      if depth > 0 && IsFlattenable(v) {
        if depth > 1 {
          FlatKeepsLeaves(Elements(v), depth - 1);
        } else {
          ReadByIndexDense(v);
        }
      } else {
        LeavesSingleton(v);
      }
    }
  }

  /** Flattening never makes the nesting deeper. */
  lemma {:induction false} FlatHeight(xs: seq<Val>, depth: int, strict: bool)
    requires SelectsArrays(IsFlattenable)
    ensures SeqHeight(Flat(xs, depth, IsFlattenable, strict)) <= SeqHeight(xs)
    decreases DepthBound(depth), |xs|
  {
    if xs != [] {
      var init, v := xs[..|xs| - 1], xs[|xs| - 1];
      FlatHeight(init, depth, strict);
      SeqHeightAppend(Flat(init, depth, IsFlattenable, strict), Emit(v, depth, IsFlattenable, strict));
      LeavesSingleton(v);
      if depth > 0 && IsFlattenable(v) {
        if depth > 1 {
          FlatHeight(Elements(v), depth - 1, strict);
        } else {
          ReadByIndexDense(v);
        }
      }
    }
  }

  /** Leaves contain no dense list. */
  lemma {:induction false} LeavesAreFlat(xs: seq<Val>)
    ensures forall i :: 0 <= i < |Leaves(xs)| ==> !IsFlattenable(Leaves(xs)[i])
    decreases SizeSeq(xs)
  {
    if xs != [] {
      var init, v := xs[..|xs| - 1], xs[|xs| - 1];
      assert SizeSeq(init) < SizeSeq(xs);
      LeavesAreFlat(init);
      var tail := LeavesOf(v);
      if IsFlattenable(v) {
        ElementsSmaller(v);
        LeavesAreFlat(Elements(v));
        assert tail == Leaves(Elements(v));
      } else {
        assert tail == [v];
      }
      assert Leaves(xs) == Leaves(init) + tail;
    }
  }

  /** With a depth beyond the nesting height, non-strict flattening with the
      default test yields exactly the leaves. */
  lemma {:induction false} FlatBeyondHeight(xs: seq<Val>, depth: int)
    requires SelectsArrays(IsFlattenable)
    requires depth > SeqHeight(xs)
    ensures Flat(xs, depth, IsFlattenable, false) == Leaves(xs)
    decreases DepthBound(depth), |xs|
  {
    if xs != [] {
      var init, v := xs[..|xs| - 1], xs[|xs| - 1];
      FlatBeyondHeight(init, depth);
      if IsFlattenable(v) {
        FlatBeyondHeight(Elements(v), depth - 1);
      }
    }
  }

  /** `[1, [2, [3]]]` flattened one level is `[1, 2, [3]]`. */
  lemma FlatOneLevelExample()
    ensures Flat([Int(1), List([Int(2), List([Int(3)])])], 1, IsFlattenable, false)
         == [Int(1), Int(2), List([Int(3)])]
  {
    var xs := [Int(1), List([Int(2), List([Int(3)])])];
    assert xs[..1] == [Int(1)];
    assert [Int(1)][..0] == [];
  }
}
