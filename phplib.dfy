/** The PHP built-ins the helpers are written with, restricted to dense lists
    and the modelled values (PHP 8 semantics). */
module PhpLib {
  import opened PhpValues
  import opened Seqs

  /** The window [lo, hi) that `array_slice($a, $offset, $length)` takes from a
      list of n elements: the offset is clamped to the list, a negative offset
      counts from the end, a null length means "to the end" and a negative
      length leaves that many elements off the end. */
  function SliceWindow(n: nat, offset: int, length: Option<int>): (w: (nat, nat))
    ensures w.0 <= w.1 <= n
  {
    var len := if length.None? then n else length.value;
    if offset > n then (n, n)
    else
      var off: nat := if offset >= 0 then offset else if n + offset < 0 then 0 else n + offset;
      var len' := if len < 0 then n - off + len else if off + len > n then n - off else len;
      if len' <= 0 then (off, off) else (off, off + len')
  }

  /** `array_slice($a, $offset, $length)` on a list; numeric keys are renumbered. */
  function ArraySlice(a: seq<Val>, offset: int, length: Option<int>): (r: seq<Val>)
    ensures |r| <= |a|
  {
    var w := SliceWindow(|a|, offset, length);
    a[w.0..w.1]
  }

  /** The string forms of the values of a keyed array. */
  function FormsOf(e: seq<Entry>): set<string> {
    set i | 0 <= i < |e| :: StrForm(e[i].val)
  }

  /** No two values of e have the same string form. */
  predicate DistinctForms(e: seq<Entry>) {
    forall i, j :: 0 <= i < j < |e| ==> StrForm(e[i].val) != StrForm(e[j].val)
  }

  /** `array_unique($e)`: keeps, with its key, each entry whose value's string
      form does not occur earlier in e. */
  function ArrayUnique(e: seq<Entry>): seq<Entry>
    decreases |e|
  {
    if e == [] then []
    else
      var init, last := e[..|e| - 1], e[|e| - 1];
      ArrayUnique(init) + (if StrForm(last.val) in FormsOf(init) then [] else [last])
  }

  lemma FormsOfAppend(a: seq<Entry>, b: seq<Entry>)
    ensures FormsOf(a + b) == FormsOf(a) + FormsOf(b)
  {
    forall f | f in FormsOf(a + b) ensures f in FormsOf(a) + FormsOf(b) {
      var i :| 0 <= i < |a + b| && StrForm((a + b)[i].val) == f;
      if i >= |a| {
        assert b[i - |a|] == (a + b)[i];
      }
    }
    forall f | f in FormsOf(a) ensures f in FormsOf(a + b) {
      var i :| 0 <= i < |a| && StrForm(a[i].val) == f;
      assert (a + b)[i] == a[i];
    }
    forall f | f in FormsOf(b) ensures f in FormsOf(a + b) {
      var i :| 0 <= i < |b| && StrForm(b[i].val) == f;
      assert (a + b)[|a| + i] == b[i];
    }
  }

  lemma {:induction false} UniqueForms(e: seq<Entry>)
    ensures FormsOf(ArrayUnique(e)) == FormsOf(e)
    decreases |e|
  {
    if e != [] {
      var init, last := e[..|e| - 1], e[|e| - 1];
      UniqueForms(init);
      assert e == init + [last];
      FormsOfAppend(init, [last]);
      FormsOfAppend(ArrayUnique(init), if StrForm(last.val) in FormsOf(init) then [] else [last]);
      assert FormsOf([last]) == {StrForm(last.val)};
    }
  }

  lemma {:induction false} UniqueDistinct(e: seq<Entry>)
    ensures DistinctForms(ArrayUnique(e))
    decreases |e|
  {
    if e != [] {
      var init, last := e[..|e| - 1], e[|e| - 1];
      UniqueDistinct(init);
      UniqueForms(init);
      var u := ArrayUnique(init);
      if StrForm(last.val) !in FormsOf(init) {
        forall i, j | 0 <= i < j < |u + [last]|
          ensures StrForm((u + [last])[i].val) != StrForm((u + [last])[j].val)
        {
          if j == |u| {
            assert StrForm(u[i].val) in FormsOf(u);
          }
        }
      } else {
        assert u + [] == u;
      }
    }
  }

  lemma {:induction false} UniqueSubseq(e: seq<Entry>)
    ensures IsSubseq(ArrayUnique(e), e)
    decreases |e|
  {
    if e == [] {
    } else {
      var init, last := e[..|e| - 1], e[|e| - 1];
      UniqueSubseq(init);
      assert e == init + [last];
      if StrForm(last.val) in FormsOf(init) {
        assert ArrayUnique(init) + [] == ArrayUnique(init);
        SubseqConcat(ArrayUnique(init), init, [], [last]);
      } else {
        SubseqRefl([last]);
        SubseqConcat(ArrayUnique(init), init, [last], [last]);
      }
    }
  }

  /** An entry whose form has not occurred earlier is kept. */
  lemma {:induction false} UniqueKeepsFirst(e: seq<Entry>, i: int)
    requires 0 <= i < |e|
    requires forall j :: 0 <= j < i ==> StrForm(e[j].val) != StrForm(e[i].val)
    ensures e[i] in ArrayUnique(e)
    decreases |e|
  {
    var init, last := e[..|e| - 1], e[|e| - 1];
    if i == |e| - 1 {
      forall j | 0 <= j < |init| ensures StrForm(init[j].val) != StrForm(last.val) {
        assert init[j] == e[j];
      }
    } else {
      UniqueKeepsFirst(init, i);
      assert init[i] == e[i];
    }
  }

  /** A keyed array without repeated forms is left as it is. */
  lemma {:induction false} UniqueOfDistinct(e: seq<Entry>)
    requires DistinctForms(e)
    ensures ArrayUnique(e) == e
    decreases |e|
  {
    if e != [] {
      var init, last := e[..|e| - 1], e[|e| - 1];
      UniqueOfDistinct(init);
      forall j | 0 <= j < |init| ensures StrForm(init[j].val) != StrForm(last.val) {
        assert init[j] == e[j];
      }
      assert e == init + [last];
    }
  }

  /** `array_chunk($a, $n)` for n >= 1: consecutive groups of n values, the
      last one possibly shorter. */
  function ArrayChunk(a: seq<Val>, n: int): (r: seq<seq<Val>>)
    requires n >= 1
    ensures ConcatAll(r) == a
    ensures forall i :: 0 <= i < |r| ==> 0 < |r[i]| <= n
    ensures forall i :: 0 <= i < |r| - 1 ==> |r[i]| == n
    decreases |a|
  {
    if |a| <= n then
      if a == [] then [] else assert [a][1..] == []; [a]
    else
      var rest := ArrayChunk(a[n..], n);
      assert ([a[..n]] + rest)[1..] == rest;
      assert a[..n] + a[n..] == a;
      [a[..n]] + rest
  }

  /** The elements of a that satisfy p, in their order: what
      `array_values(array_filter(...))`, `array_values(array_diff(...))` and
      `array_intersect(...)` build. */
  function Keep<T(==)>(a: seq<T>, p: T -> bool): (r: seq<T>)
    ensures IsSubseq(r, a)
    ensures forall i :: 0 <= i < |r| ==> p(r[i])
    decreases |a|
  {
    if a == [] then []
    else
      var init, last := a[..|a| - 1], a[|a| - 1];
      var rest := Keep(init, p);
      assert a == init + [last];
      if p(last) then
        SubseqRefl([last]);
        SubseqConcat(rest, init, [last], [last]);
        rest + [last]
      else
        assert IsSubseq([], [last]);
        SubseqConcat(rest, init, [], [last]);
        assert rest + [] == rest;
        rest
  }

  lemma {:induction false} KeepAll<T>(a: seq<T>, p: T -> bool)
    requires forall i :: 0 <= i < |a| ==> p(a[i])
    ensures Keep(a, p) == a
    decreases |a|
  {
    if a != [] {
      KeepAll(a[..|a| - 1], p);
      assert a == a[..|a| - 1] + [a[|a| - 1]];
    }
  }

  /** Every value that passes the test is kept as often as it occurs. */
  lemma {:induction false} KeepCounts<T>(a: seq<T>, p: T -> bool, x: T)
    requires p(x)
    ensures multiset(Keep(a, p))[x] == multiset(a)[x]
    decreases |a|
  {
    if a != [] {
      KeepCounts(a[..|a| - 1], p, x);
      assert a == a[..|a| - 1] + [a[|a| - 1]];
    }
  }
}
