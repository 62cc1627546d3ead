/** PHP values as the helper library sees them: scalars and arrays.
    Floats, objects and resources are not modelled. */
module PhpValues {

  datatype Option<T> = None | Some(value: T)

  /** An array key: PHP keys are integers or strings. */
  datatype Key = IntKey(n: int) | StrKey(s: string)

  /** A PHP value. `List` is an array whose keys are 0..n-1 in insertion order;
      `Assoc` is any array written out key by key (normally one with gaps,
      keys out of order or string keys). The representation is not unique:
      an `Assoc` keyed 0..n-1 is the same PHP array as the `List` of its
      values, and an `Assoc` may repeat a key, which no PHP array does. So
      Dafny's `==` on values (and the multiset counts built on it) can tell
      apart two values that PHP's `===` treats as identical. */
  datatype Val =
    | Null
    | Bool(b: bool)
    | Int(n: int)
    | Str(s: string)
    | List(items: seq<Val>)
    | Assoc(entries: seq<Entry>)

  datatype Entry = Entry(key: Key, val: Val)

  predicate IsArray(v: Val) {
    v.List? || v.Assoc?
  }

  function Keys(e: seq<Entry>): (r: seq<Key>)
    ensures |r| == |e| && forall i :: 0 <= i < |e| ==> r[i] == e[i].key
  {
    seq(|e|, i requires 0 <= i < |e| => e[i].key)
  }

  function Values(e: seq<Entry>): (r: seq<Val>)
    ensures |r| == |e| && forall i :: 0 <= i < |e| ==> r[i] == e[i].val
  {
    seq(|e|, i requires 0 <= i < |e| => e[i].val)
  }

  /** The values of an array in `foreach` order. */
  function Elements(v: Val): (r: seq<Val>)
    requires IsArray(v)
  {
    match v
    case List(s) => s
    case Assoc(e) => Values(e)
  }

  /** `$a[$k]` on a keyed array: the value under key k, or null (with a PHP
      warning) when there is none. */
  function ValueAt(e: seq<Entry>, k: Key): (r: Val)
    ensures (forall i :: 0 <= i < |e| ==> e[i].key != k) ==> r == Null
  {
    if e == [] then Null else if e[0].key == k then e[0].val else ValueAt(e[1..], k)
  }

  /** The first entry under key k decides what `$a[$k]` reads. */
  lemma {:induction false} ValueAtFirst(e: seq<Entry>, k: Key, i: int)
    requires 0 <= i < |e| && e[i].key == k
    requires forall j :: 0 <= j < i ==> e[j].key != k
    ensures ValueAt(e, k) == e[i].val
  {
    if i > 0 {
      ValueAtFirst(e[1..], k, i - 1);
    }
  }

  /** The values an array yields when read as `$v[0]`, `$v[1]`, ...,
      `$v[count - 1]`. */
  function ReadByIndex(v: Val): (r: seq<Val>)
    requires IsArray(v)
    ensures |r| == |Elements(v)|
  {
    match v
    case List(s) => s
    case Assoc(e) => seq(|e|, i requires 0 <= i < |e| => ValueAt(e, IntKey(i)))
  }

  /** An array keyed 0..n-1 in order reads back its values in order. */
  lemma ReadByIndexDense(v: Val)
    requires v.List? || (v.Assoc? && forall i :: 0 <= i < |v.entries| ==> v.entries[i].key == IntKey(i))
    ensures ReadByIndex(v) == Elements(v)
  {
    if v.Assoc? {
      forall i | 0 <= i < |v.entries| ensures ReadByIndex(v)[i] == Elements(v)[i] {
        ValueAtFirst(v.entries, IntKey(i), i);
      }
    }
  }

  /** A dense list viewed as a keyed array: element i under key i. */
  function Indexed(s: seq<Val>): (r: seq<Entry>)
    ensures Values(r) == s
    ensures |r| == |s| && forall i :: 0 <= i < |s| ==> r[i].key == IntKey(i)
  {
    seq(|s|, i requires 0 <= i < |s| => Entry(IntKey(i), s[i]))
  }

  /** PHP truthiness restricted to the modelled values: false, null, 0, "", "0"
      and the empty array are falsy; everything else is truthy. */
  predicate Truthy(v: Val) {
    match v
    case Null => false
    case Bool(b) => b
    case Int(n) => n != 0
    case Str(s) => s != "" && s != "0"
    case List(s) => s != []
    case Assoc(e) => e != []
  }

  function DigitChar(d: nat): char
    requires d < 10
  {
    "0123456789"[d]
  }

  /** Decimal rendering of a natural number, most significant digit first. */
  function NatToDecimal(n: nat): (r: string)
    ensures r != []
    ensures forall i :: 0 <= i < |r| ==> '0' <= r[i] <= '9'
    decreases n
  {
    if n < 10 then [DigitChar(n)] else NatToDecimal(n / 10) + [DigitChar(n % 10)]
  }

  /** `(string)$v`: the form in which `array_diff`, `array_intersect` and
      `array_unique` compare values. An array converts to "Array" (PHP also
      raises a notice, which is not modelled). */
  function StrForm(v: Val): string {
    match v
    case Null => ""
    case Bool(b) => if b then "1" else ""
    case Int(n) => if n < 0 then "-" + NatToDecimal(-n) else NatToDecimal(n)
    case Str(s) => s
    case List(_) => "Array"
    case Assoc(_) => "Array"
  }

  /** Structural size, used as a termination measure for walks into nested arrays. */
  function Size(v: Val): (r: nat)
    ensures r >= 1
  {
    match v
    case List(s) => 1 + SizeSeq(s)
    case Assoc(e) => 1 + SizeEntries(v, |e|)
    case _ => 1
  }

  function SizeSeq(s: seq<Val>): nat
    decreases s
  {
    if s == [] then 0 else SizeSeq(s[..|s| - 1]) + Size(s[|s| - 1])
  }

  /** The sizes of the first n values of the keyed array v, added up. */
  function SizeEntries(v: Val, n: nat): nat
    requires v.Assoc? && n <= |v.entries|
    decreases v, n
  {
    if n == 0 then 0
    else
      var last := v.entries[n - 1];
      assert last in v.entries;
      SizeEntries(v, n - 1) + Size(last.val)
  }

  lemma {:induction false} SizeEntriesIsSizeSeq(v: Val, n: nat)
    requires v.Assoc? && n <= |v.entries|
    ensures SizeEntries(v, n) == SizeSeq(Values(v.entries)[..n])
    decreases n
  {
    if n != 0 {
      SizeEntriesIsSizeSeq(v, n - 1);
      assert Values(v.entries)[..n][..n - 1] == Values(v.entries)[..n - 1];
    }
  }

  lemma {:induction false} SizeSeqBoundsElement(s: seq<Val>, i: int)
    requires 0 <= i < |s|
    ensures Size(s[i]) <= SizeSeq(s)
    decreases |s|
  {
    if i < |s| - 1 {
      SizeSeqBoundsElement(s[..|s| - 1], i);
    }
  }

  /** Every element of an array is strictly smaller than the array. */
  lemma ElementSmaller(v: Val, i: int)
    requires IsArray(v) && 0 <= i < |Elements(v)|
    ensures SizeSeq(Elements(v)) < Size(v)
    ensures Size(Elements(v)[i]) < Size(v)
  {
    if v.Assoc? {
      SizeEntriesIsSizeSeq(v, |v.entries|);
      assert Values(v.entries)[..|v.entries|] == Values(v.entries);
    }
    SizeSeqBoundsElement(Elements(v), i);
  }

  lemma ElementsSmaller(v: Val)
    requires IsArray(v)
    ensures SizeSeq(Elements(v)) < Size(v)
  {
    if v.Assoc? {
      SizeEntriesIsSizeSeq(v, |v.entries|);
      assert Values(v.entries)[..|v.entries|] == Values(v.entries);
    }
  }

  lemma {:induction false} SizeSeqAppend(s: seq<Val>, t: seq<Val>)
    ensures SizeSeq(s + t) == SizeSeq(s) + SizeSeq(t)
    decreases |t|
  {
    if t != [] {
      assert (s + t)[..|s + t| - 1] == s + t[..|t| - 1];
      assert (s + t)[|s + t| - 1] == t[|t| - 1];
      SizeSeqAppend(s, t[..|t| - 1]);
    } else {
      assert s + t == s;
    }
  }
}
