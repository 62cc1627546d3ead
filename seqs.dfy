/** Order-related notions on sequences used to state what the helpers return. */
module Seqs {

  /** xs occurs in ys in the same order, possibly with gaps. */
  predicate IsSubseq<T(==)>(xs: seq<T>, ys: seq<T>)
    decreases |ys|
  {
    xs == [] ||
    (ys != [] &&
      ((xs[0] == ys[0] && IsSubseq(xs[1..], ys[1..])) || IsSubseq(xs, ys[1..])))
  }

  lemma {:induction false} SubseqRefl<T>(xs: seq<T>)
    ensures IsSubseq(xs, xs)
    decreases |xs|
  {
    if xs != [] {
      SubseqRefl(xs[1..]);
    }
  }

  /** Putting anything in front of ys keeps xs a subsequence of it. */
  lemma {:induction false} SubseqPrepend<T>(xs: seq<T>, zs: seq<T>, ys: seq<T>)
    requires IsSubseq(xs, ys)
    ensures IsSubseq(xs, zs + ys)
    decreases |zs|
  {
    if zs == [] {
      assert zs + ys == ys;
    } else if xs != [] {
      assert (zs + ys)[1..] == zs[1..] + ys;
      SubseqPrepend(xs, zs[1..], ys);
    }
  }

  /** Subsequences of the two halves give a subsequence of the whole. */
  lemma {:induction false} SubseqConcat<T>(a: seq<T>, b: seq<T>, c: seq<T>, d: seq<T>)
    requires IsSubseq(a, b) && IsSubseq(c, d)
    ensures IsSubseq(a + c, b + d)
    decreases |b|
  {
    if a == [] {
      assert a + c == c;
      SubseqPrepend(c, b, d);
    } else {
      assert (a + c)[0] == a[0] && (a + c)[1..] == a[1..] + c;
      assert (b + d)[0] == b[0] && (b + d)[1..] == b[1..] + d;
      if a[0] == b[0] && IsSubseq(a[1..], b[1..]) {
        SubseqConcat(a[1..], b[1..], c, d);
      } else {
        SubseqConcat(a, b[1..], c, d);
      }
    }
  }

  lemma {:induction false} SubseqMembers<T>(xs: seq<T>, ys: seq<T>)
    requires IsSubseq(xs, ys)
    ensures forall x :: x in xs ==> x in ys
    decreases |ys|
  {
    if xs != [] {
      if xs[0] == ys[0] && IsSubseq(xs[1..], ys[1..]) {
        SubseqMembers(xs[1..], ys[1..]);
        assert xs == [xs[0]] + xs[1..];
      } else {
        SubseqMembers(xs, ys[1..]);
      }
      assert ys == [ys[0]] + ys[1..];
    }
  }

  lemma {:induction false} SubseqLength<T>(xs: seq<T>, ys: seq<T>)
    requires IsSubseq(xs, ys)
    ensures |xs| <= |ys|
    decreases |ys|
  {
    if xs != [] {
      if xs[0] == ys[0] && IsSubseq(xs[1..], ys[1..]) {
        SubseqLength(xs[1..], ys[1..]);
      } else {
        SubseqLength(xs, ys[1..]);
      }
    }
  }

  /** The sequences of ss laid end to end. */
  function ConcatAll<T>(ss: seq<seq<T>>): seq<T>
    decreases |ss|
  {
    if ss == [] then [] else ss[0] + ConcatAll(ss[1..])
  }

  lemma {:induction false} ConcatAllSnoc<T>(ss: seq<seq<T>>, s: seq<T>)
    ensures ConcatAll(ss + [s]) == ConcatAll(ss) + s
    decreases |ss|
  {
    if ss == [] {
      assert ss + [s] == [s];
      assert [s][1..] == [];
    } else {
      assert (ss + [s])[1..] == ss[1..] + [s];
      ConcatAllSnoc(ss[1..], s);
    }
  }

  lemma {:induction false} InConcatAll<T>(ss: seq<seq<T>>, k: int, x: T)
    requires 0 <= k < |ss| && x in ss[k]
    ensures x in ConcatAll(ss)
    decreases |ss|
  {
    if k > 0 {
      InConcatAll(ss[1..], k - 1, x);
    }
  }

  lemma {:induction false} ConcatAllMember<T>(ss: seq<seq<T>>, x: T)
    requires x in ConcatAll(ss)
    ensures exists k :: 0 <= k < |ss| && x in ss[k]
    decreases |ss|
  {
    if x !in ss[0] {
      ConcatAllMember(ss[1..], x);
      var k :| 0 <= k < |ss[1..]| && x in ss[1..][k];
      assert x in ss[k + 1];
    }
  }

  /** The elements of s whose verdict in d equals want, in order. */
  function Pick<T>(s: seq<T>, d: seq<bool>, want: bool): seq<T>
    requires |d| == |s|
  {
    if s == [] then []
    else Pick(s[..|s| - 1], d[..|s| - 1], want) + (if d[|s| - 1] == want then [s[|s| - 1]] else [])
  }

  /** The picks for true and for false share out the elements of s. */
  lemma {:induction false} PickPartition<T>(s: seq<T>, d: seq<bool>)
    requires |d| == |s|
    ensures multiset(Pick(s, d, true)) + multiset(Pick(s, d, false)) == multiset(s)
  {
    if s != [] {
      PickPartition(s[..|s| - 1], d[..|s| - 1]);
      assert s == s[..|s| - 1] + [s[|s| - 1]];
    }
  }

  lemma {:induction false} PickInOrder<T>(s: seq<T>, d: seq<bool>, want: bool)
    requires |d| == |s|
    ensures IsSubseq(Pick(s, d, want), s)
  {
    if s == [] {
      assert IsSubseq([], s);
    } else {
      var init, x := s[..|s| - 1], s[|s| - 1];
      PickInOrder(init, d[..|s| - 1], want);
      var prev := Pick(init, d[..|s| - 1], want);
      assert s == init + [x];
      if d[|s| - 1] == want {
        SubseqRefl([x]);
        SubseqConcat(prev, init, [x], [x]);
      } else {
        assert IsSubseq([], [x]);
        SubseqConcat(prev, init, [], [x]);
        assert prev + [] == prev;
      }
    }
  }

  /** Every element is picked on the side its verdict names. */
  lemma {:induction false} PickSides<T>(s: seq<T>, d: seq<bool>)
    requires |d| == |s|
    ensures forall i :: 0 <= i < |s| ==> s[i] in Pick(s, d, d[i])
  {
    if s != [] {
      var n := |s| - 1;
      PickSides(s[..n], d[..n]);
      forall i | 0 <= i < |s| ensures s[i] in Pick(s, d, d[i]) {
        if i < n {
          assert s[..n][i] == s[i] && d[..n][i] == d[i];
        }
      }
    }
  }

  lemma {:induction false} PickLengths<T>(s: seq<T>, d: seq<bool>)
    requires |d| == |s|
    ensures |Pick(s, d, true)| + |Pick(s, d, false)| == |s|
  {
    if s != [] {
      PickLengths(s[..|s| - 1], d[..|s| - 1]);
    }
  }

  lemma PickSnoc<T>(s: seq<T>, d: seq<bool>, x: T, b: bool)
    requires |d| == |s|
    ensures Pick(s + [x], d + [b], true) == Pick(s, d, true) + (if b then [x] else [])
    ensures Pick(s + [x], d + [b], false) == Pick(s, d, false) + (if b then [] else [x])
  {
    assert (s + [x])[..|s|] == s && (d + [b])[..|s|] == d;
  }
}
