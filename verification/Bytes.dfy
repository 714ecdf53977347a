/** Octets, big-endian integers and the lexicographic order the server sorts by. */
module Bytes {

  type byte = x: int | 0 <= x < 256
  type Bytes = seq<byte>

  /** The conversion `byte(n)`. */
  function Byte(n: int): (b: byte) {
    n % 256
  }

  datatype Option<+T> = None | Some(value: T)

  datatype Result<+T, +E> = Ok(value: T) | Err(error: E)

  function Elems<T>(s: seq<T>): (r: set<T>) {
    set x | x in s
  }

  lemma ElemsAppend<T>(s: seq<T>, x: T)
    ensures Elems(s + [x]) == Elems(s) + {x}
  {
  }

  lemma Assoc<T>(a: seq<T>, b: seq<T>, c: seq<T>)
    ensures a + (b + c) == a + b + c
  {
  }

  lemma MultisetLength<T>(s: seq<T>, t: seq<T>)
    requires multiset(s) == multiset(t)
    ensures |s| == |t|
  {
    assert |s| == |multiset(s)| && |t| == |multiset(t)|;
  }

  lemma MultisetMember<T>(s: seq<T>, t: seq<T>, x: T)
    requires multiset(s) == multiset(t)
    ensures x in s <==> x in t
  {
    assert x in s <==> x in multiset(s);
    assert x in t <==> x in multiset(t);
  }

  lemma {:induction false} SubsetSize<T>(a: set<T>, b: set<T>)
    requires a <= b
    ensures |a| <= |b|
    decreases |a|
  {
    if a != {} {
      var x :| x in a;
      SubsetSize(a - {x}, b - {x});
    }
  }

  lemma ConsEqual<T>(s: seq<T>, t: seq<T>)
    requires s != [] && t != [] && s[0] == t[0] && s[1..] == t[1..]
    ensures s == t
  {
    assert s == [s[0]] + s[1..] && t == [t[0]] + t[1..];
  }

  lemma TailMultiset<T>(s: seq<T>)
    requires s != []
    ensures multiset(s[1..]) == multiset(s) - multiset{s[0]}
  {
    assert s == [s[0]] + s[1..];
  }

  lemma DivUnique(n: int, d: int, q: int, r: int)
    requires 0 <= r < d && n == d * q + r
    ensures n / d == q
  {
    var q', r' := n / d, n % d;
    assert d * (q - q') == r' - r;
    MulBound(d, q - q');
  }

  lemma MulBound(d: int, k: int)
    requires d > 0
    ensures k >= 1 ==> d * k >= d
    ensures k <= -1 ==> d * k <= -d
  {
  }

  /** `binary.BigEndian.AppendUint16` of `uint16(n)`: the conversion keeps the low 16 bits. */
  function U16(n: int): (b: Bytes)
    ensures |b| == 2
  {
    [Byte(n / 256), Byte(n)]
  }

  /** `binary.BigEndian.AppendUint32` of `uint32(n)`. */
  function U32(n: int): (b: Bytes)
    ensures |b| == 4
  {
    U16(n / 65536) + U16(n)
  }

  function GetU16(b: Bytes, i: nat): (n: nat)
    requires i + 2 <= |b|
    ensures n < 65536
  {
    b[i] as int * 256 + b[i + 1] as int
  }

  function GetU32(b: Bytes, i: nat): (n: nat)
    requires i + 4 <= |b|
    ensures n < 0x1_0000_0000
  {
    GetU16(b, i) * 65536 + GetU16(b, i + 2)
  }

  /** A 16-bit field written at offset `|pre|` is read back modulo 65536. */
  lemma ReadU16(pre: Bytes, n: int, post: Bytes)
    ensures GetU16(pre + U16(n) + post, |pre|) == n % 65536
  {
    var b := pre + U16(n) + post;
    assert b[|pre|] == U16(n)[0] && b[|pre| + 1] == U16(n)[1];
  }

  lemma Halves(n: int)
    ensures n / 65536 % 65536 * 65536 + n % 65536 == n % 0x1_0000_0000
  {
  }

  /** `bytes.Compare`: -1, 0 or 1. */
  function Compare(a: Bytes, b: Bytes): (c: int)
    ensures c == -1 || c == 0 || c == 1
  {
    if a == [] then (if b == [] then 0 else -1)
    else if b == [] then 1
    else if a[0] < b[0] then -1
    else if a[0] > b[0] then 1
    else Compare(a[1..], b[1..])
  }

  lemma {:induction false} CompareZero(a: Bytes, b: Bytes)
    ensures Compare(a, b) == 0 <==> a == b
  {
    if a != [] && b != [] && a[0] == b[0] {
      CompareZero(a[1..], b[1..]);
      assert a == [a[0]] + a[1..] && b == [b[0]] + b[1..];
    }
  }

  lemma {:induction false} CompareFlip(a: Bytes, b: Bytes)
    ensures Compare(a, b) == -Compare(b, a)
  {
    if a != [] && b != [] && a[0] == b[0] {
      CompareFlip(a[1..], b[1..]);
    }
  }

  lemma {:induction false} CompareTrans(a: Bytes, b: Bytes, c: Bytes)
    requires Compare(a, b) <= 0 && Compare(b, c) <= 0
    ensures Compare(a, c) <= 0
    ensures Compare(a, b) < 0 || Compare(b, c) < 0 ==> Compare(a, c) < 0
  {
    if a != [] && b != [] && c != [] && a[0] == b[0] == c[0] {
      CompareTrans(a[1..], b[1..], c[1..]);
    }
  }

  /** The first difference decides, and where one string ends inside the other the shorter comes first. */
  lemma {:induction false} CompareFirst(a: Bytes, b: Bytes, k: nat)
    requires k <= |a| && k <= |b| && a[..k] == b[..k] && (k == |a| || k == |b| || a[k] != b[k])
    ensures Compare(a, b) ==
            if k == |a| then (if k == |b| then 0 else -1) else if k == |b| then 1 else if a[k] < b[k] then -1 else 1
  {
    if k > 0 {
      assert a[0] == a[..k][0] && b[0] == b[..k][0];
      assert a[1..][..k - 1] == a[..k][1..] && b[1..][..k - 1] == b[..k][1..];
      CompareFirst(a[1..], b[1..], k - 1);
    }
  }

  /** Two equal-length heads decide the comparison of two strings that share their tail. */
  lemma {:induction false} CompareSharedTail(a: Bytes, b: Bytes, tail: Bytes)
    requires |a| == |b|
    ensures Compare(a + tail, b + tail) == Compare(a, b)
  {
    if a == [] {
      assert a + tail == tail && b + tail == tail;
      CompareZero(tail, tail);
    } else {
      assert (a + tail)[1..] == a[1..] + tail && (b + tail)[1..] == b[1..] + tail;
      CompareSharedTail(a[1..], b[1..], tail);
    }
  }

  ghost predicate Sorted(s: seq<Bytes>) {
    forall i, j :: 0 <= i < j < |s| ==> Compare(s[i], s[j]) <= 0
  }

  /** Any two sorts of the same strings agree: an unstable sort cannot be observed through the order. */
  lemma {:induction false} SortedUnique(s: seq<Bytes>, t: seq<Bytes>)
    requires Sorted(s) && Sorted(t) && multiset(s) == multiset(t)
    ensures s == t
    decreases |s|
  {
    MultisetLength(s, t);
    if s != [] {
      hide Compare;
      SortedHead(s, t);
      SortedHead(t, s);
      CompareFlip(s[0], t[0]);
      CompareZero(s[0], t[0]);
      TailMultiset(s);
      TailMultiset(t);
      SortedUnique(s[1..], t[1..]);
      ConsEqual(s, t);
    }
  }

  lemma SortedHead(s: seq<Bytes>, t: seq<Bytes>)
    requires Sorted(s) && |s| > 0 && |t| > 0 && multiset(s) == multiset(t)
    ensures Compare(s[0], t[0]) <= 0
  {
    assert t[0] in multiset(t);
    var k :| 0 <= k < |s| && s[k] == t[0];
    CompareZero(s[0], s[0]);
  }
}
