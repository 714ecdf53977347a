/** The NSEC3 type bitmap (section 4.1.2 of RFC 4034): windows of at most 32 octets, one bit per type. */
module TypeBitmap {
  import opened Bytes

  predicate Ascending(types: seq<int>) {
    && (forall i :: 0 <= i < |types| ==> 0 <= types[i] < 65536)
    && (forall i, j :: 0 <= i < j < |types| ==> types[i] <= types[j])
  }

  function Pow2(n: nat): (p: nat)
    ensures p >= 1
  {
    if n == 0 then 1 else 2 * Pow2(n - 1)
  }

  /** Bit `k` of an octet, counted from the most significant one. */
  predicate Bit(b: byte, k: int)
    requires 0 <= k < 8
  {
    (b / Pow2(7 - k)) % 2 == 1
  }

  /** `b | 1 << (7 - k)`. */
  function SetBit(b: byte, k: int): (r: byte)
    requires 0 <= k < 8
  {
    if Bit(b, k) then b else (b as int + Pow2(7 - k)) % 256
  }

  /** The first `n` membership bits from type `base` on, read as a binary number. */
  function Bits(s: set<int>, base: int, n: nat): (b: nat)
    ensures b < Pow2(n)
  {
    if n == 0 then 0 else 2 * Bits(s, base, n - 1) + if base + n - 1 in s then 1 else 0
  }

  /** The octet whose bit `k` says whether type `base + k` is in `s`. */
  function Octet(s: set<int>, base: int): (b: byte) {
    assert Pow2(8) == 2 * Pow2(7) == 4 * Pow2(6) == 8 * Pow2(5) == 16 * Pow2(4) == 256;
    Bits(s, base, 8)
  }

  lemma {:induction false} BitsShift(s: set<int>, base: int, k: nat, n: nat)
    requires k <= n
    ensures Bits(s, base, n) / Pow2(n - k) == Bits(s, base, k)
  {
    if k < n {
      BitsShift(s, base, k, n - 1);
      HalveBoth(Bits(s, base, n - 1), if base + n - 1 in s then 1 else 0, Pow2(n - 1 - k));
    }
  }

  lemma HalveBoth(x: nat, f: nat, p: nat)
    requires f <= 1 && p >= 1
    ensures (2 * x + f) / (2 * p) == x / p
  {
    var q, r := x / p, x % p;
    assert x == p * q + r;
    assert 2 * x + f == (2 * p) * q + (2 * r + f);
    DivUnique(2 * x + f, 2 * p, q, 2 * r + f);
  }

  lemma OctetBit(s: set<int>, base: int, k: int)
    requires 0 <= k < 8
    ensures Bit(Octet(s, base), k) <==> base + k in s
  {
    BitsShift(s, base, k + 1, 8);
    assert Bits(s, base, k + 1) == 2 * Bits(s, base, k) + if base + k in s then 1 else 0;
  }

  lemma {:induction false} BitsAdd(s: set<int>, base: int, k: nat, n: nat)
    requires base + k !in s
    ensures Bits(s + {base + k}, base, n) == Bits(s, base, n) + if k < n then Pow2(n - 1 - k) else 0
  {
    if n > 0 {
      BitsAdd(s, base, k, n - 1);
      if k < n - 1 {
        assert Pow2(n - 1 - k) == 2 * Pow2(n - 2 - k);
      }
    }
  }

  lemma OctetSet(s: set<int>, base: int, k: int)
    requires 0 <= k < 8
    ensures SetBit(Octet(s, base), k) == Octet(s + {base + k}, base)
  {
    OctetBit(s, base, k);
    if base + k in s {
      assert s + {base + k} == s;
    } else {
      BitsAdd(s, base, k, 8);
    }
  }

  lemma OctetPositive(s: set<int>, base: int, k: int)
    requires 0 <= k < 8 && base + k in s
    ensures Octet(s, base) > 0
  {
    OctetBit(s, base, k);
    assert 0 / Pow2(7 - k) == 0;
  }

  lemma {:induction false} BitsSame(s: set<int>, base: int, n: nat, t: int)
    requires t < base || base + n <= t
    ensures Bits(s + {t}, base, n) == Bits(s, base, n)
  {
    if n > 0 {
      BitsSame(s, base, n - 1, t);
    }
  }

  /** Where type `t` sits: its window, the octet in the window and the bit in the octet. */
  lemma Position(t: int)
    requires 0 <= t
    ensures t == 256 * (t / 256) + 8 * (t % 256 / 8) + t % 8
    ensures 0 <= t % 256 / 8 < 32
    ensures t % 256 % 8 == t % 8
  {
  }

  /** Without trailing zero octets. */
  function Trim(b: Bytes): (r: Bytes)
    ensures |r| <= |b| && r == b[..|r|]
    ensures r != [] ==> r[|r| - 1] != 0
    ensures forall i :: |r| <= i < |b| ==> b[i] == 0
  {
    if b == [] || b[|b| - 1] != 0 then b else Trim(b[..|b| - 1])
  }

  function Window(s: set<int>, w: int): (b: Bytes)
    ensures |b| == 32
  {
    seq(32, i => Octet(s, 256 * w + 8 * i))
  }

  /** How many leading types lie in window `w`. */
  function Leading(types: seq<int>, w: int): (k: nat)
    ensures k <= |types|
    ensures forall i :: 0 <= i < k ==> types[i] / 256 == w
    ensures k < |types| ==> types[k] / 256 != w
  {
    if types == [] || types[0] / 256 != w then 0 else 1 + Leading(types[1..], w)
  }

  /** The bitmap bytes, window by window. */
  function EncodeWindows(types: seq<int>): (b: Bytes)
    requires Ascending(types)
  {
    if types == [] then []
    else
      var w := types[0] / 256;
      var k := Leading(types, w);
      var bits := Trim(Window(Elems(types[..k]), w));
      [Byte(w), Byte(|bits|)] + bits + EncodeWindows(types[k..])
  }

  /** A decoder: type `t` is announced by the blocks in `b`. */
  predicate Announces(b: Bytes, t: int)
    requires 0 <= t < 65536
  {
    if |b| < 2 || |b| < 2 + b[1] as int then false
    else
      || (t / 256 == b[0] && t % 256 / 8 < b[1] && Bit(b[2 + t % 256 / 8], t % 8))
      || Announces(b[2 + b[1] as int..], t)
  }

  /** Windows above `last` strictly increase; each block has 1 to 32 octets and a non-zero last one. */
  predicate WellFormed(b: Bytes, last: int) {
    b == [] ||
    (&& |b| >= 2
     && last < b[0] && 1 <= b[1] <= 32 && 2 + b[1] as int <= |b|
     && b[1 + b[1] as int] != 0
     && WellFormed(b[2 + b[1] as int..], b[0]))
  }

  lemma FirstBlock(w: byte, bits: Bytes, rest: Bytes)
    requires 1 <= |bits| <= 32
    ensures var b := [Byte(w), Byte(|bits|)] + bits + rest;
      && (forall last :: bits[|bits| - 1] != 0 && last < w && WellFormed(rest, w) ==> WellFormed(b, last))
      && (forall t :: 0 <= t < 65536 ==>
            (Announces(b, t) <==>
             || (t / 256 == w && t % 256 / 8 < |bits| && Bit(bits[t % 256 / 8], t % 8))
             || Announces(rest, t)))
  {
    var b := [Byte(w), Byte(|bits|)] + bits + rest;
    assert b[2 + |bits|..] == rest && b[2..2 + |bits|] == bits;
    assert forall i :: 0 <= i < |bits| ==> b[2 + i] == bits[i];
    assert b[1 + |bits|] == bits[|bits| - 1];
  }

  /** Decoding gives back precisely the set of types, and the blocks have the shape the RFC demands. */
  lemma {:induction false} EncodeExact(types: seq<int>, last: int)
    requires Ascending(types)
    requires types != [] ==> last < types[0] / 256
    ensures WellFormed(EncodeWindows(types), last)
    ensures forall t :: 0 <= t < 65536 ==> (Announces(EncodeWindows(types), t) <==> t in types)
    decreases |types|
  {
    if types != [] {
      var w := types[0] / 256;
      var k := Leading(types, w);
      var s := Elems(types[..k]);
      var bits := Trim(Window(s, w));
      assert types[0] in types[..k];
      BlockNonEmpty(s, w, types[0]);
      NextWindow(types);
      EncodeExact(types[k..], w);
      FirstBlock(w, bits, EncodeWindows(types[k..]));
      forall t | 0 <= t < 65536
        ensures Announces(EncodeWindows(types), t) <==> t in types
      {
        BlockExact(s, w, t);
        SplitMember(types, k, t);
      }
    }
  }

  lemma SplitMember(types: seq<int>, k: nat, t: int)
    requires k <= |types|
    ensures t in types <==> t in Elems(types[..k]) || t in types[k..]
  {
    assert types == types[..k] + types[k..];
  }

  lemma NextWindow(types: seq<int>)
    requires Ascending(types) && types != []
    ensures var k := Leading(types, types[0] / 256);
            k > 0 && (k < |types| ==> types[0] / 256 < types[k] / 256)
  {
  }

  lemma BlockNonEmpty(s: set<int>, w: int, t: int)
    requires t in s && t / 256 == w && 0 <= t
    ensures Trim(Window(s, w)) != []
  {
    var i := t % 256 / 8;
    Position(t);
    OctetPositive(s, 256 * w + 8 * i, t % 8);
    assert Window(s, w)[i] != 0;
  }

  lemma BlockExact(s: set<int>, w: int, t: int)
    requires 0 <= t && forall x :: x in s ==> x / 256 == w
    ensures var bits := Trim(Window(s, w));
            t in s <==> t / 256 == w && t % 256 / 8 < |bits| && Bit(bits[t % 256 / 8], t % 8)
  {
    var i := t % 256 / 8;
    Position(t);
    if t / 256 == w {
      OctetBit(s, 256 * w + 8 * i, t % 8);
      assert Window(s, w)[i] == Octet(s, 256 * w + 8 * i);
      if t in s {
        OctetPositive(s, 256 * w + 8 * i, t % 8);
      }
    }
  }

  /** The inner loop of `TypeBitmap`: set the bit of every type that shares the window of `types[start]`. */
  method FillWindow(types: seq<int>, start: nat) returns (bitmap: array<byte>, i: nat)
    requires Ascending(types) && start < |types|
    ensures i == start + Leading(types[start..], types[start] / 256)
    ensures fresh(bitmap) && bitmap[..] == Window(Elems(types[start..i]), types[start] / 256)
  {
    var window := types[start] / 256;
    bitmap := new byte[32](_ => 0);
    i := start;
    EmptyWindow(window);
    assert Elems(types[start..i]) == {};
    while i < |types| && types[i] / 256 == window
      invariant start <= i <= |types|
      invariant forall j :: start <= j < i ==> types[j] / 256 == window
      invariant bitmap[..] == Window(Elems(types[start..i]), window)
    {
      var t := types[i] % 256;
      ghost var before := bitmap[..];
      WindowStep(Elems(types[start..i]), window, types[i]);
      MembersStep(types, start, i);
      bitmap[t / 8] := SetBit(bitmap[t / 8], t % 8);
      assert bitmap[..] == before[t / 8 := SetBit(before[t / 8], t % 8)];
      i := i + 1;
    }
    LeadingUnique(types[start..], window, i - start);
  }

  lemma MembersStep(types: seq<int>, start: nat, i: nat)
    requires start <= i < |types|
    ensures Elems(types[start..i + 1]) == Elems(types[start..i]) + {types[i]}
  {
    assert types[start..i + 1] == types[start..i] + [types[i]];
  }

  lemma EmptyWindow(w: int)
    ensures Window({}, w) == seq(32, _ => 0)
  {
    forall i | 0 <= i < 32
      ensures Window({}, w)[i] == 0
    {
      NoBits(256 * w + 8 * i, 8);
    }
  }

  lemma NoBits(base: int, n: nat)
    ensures Bits({}, base, n) == 0
  {
  }

  lemma LeadingUnique(types: seq<int>, w: int, k: nat)
    requires k <= |types| && (forall i :: 0 <= i < k ==> types[i] / 256 == w)
    requires k < |types| ==> types[k] / 256 != w
    ensures k == Leading(types, w)
  {
  }

  /** The index of the last non-zero octet, plus one. */
  method UsedLength(bitmap: array<byte>) returns (len: nat)
    ensures len <= bitmap.Length && bitmap[..len] == Trim(bitmap[..])
  {
    len := bitmap.Length;
    assert bitmap[..len] == bitmap[..];
    while len > 0 && bitmap[len - 1] == 0
      invariant 0 <= len <= bitmap.Length
      invariant Trim(bitmap[..]) == Trim(bitmap[..len])
    {
      assert bitmap[..len][..len - 1] == bitmap[..len - 1];
      len := len - 1;
    }
  }

  /** `TypeBitmap`: group by window, set bits in a 32-octet array, cut the zero tail, append the block. */
  method Build(types: seq<int>) returns (buf: Bytes)
    requires Ascending(types)
    ensures buf == EncodeWindows(types)
    ensures WellFormed(buf, -1)
    ensures forall t :: 0 <= t < 65536 ==> (Announces(buf, t) <==> t in types)
  {
    buf := [];
    var i := 0;
    assert types[0..] == types;
    while i < |types|
      invariant 0 <= i <= |types|
      invariant EncodeWindows(types) == buf + EncodeWindows(types[i..])
    {
      var window := types[i] / 256;
      var bitmap, next := FillWindow(types, i);
      var len := UsedLength(bitmap);
      EncodeStep(types, i, next, bitmap[..len]);
      AppendBlock(buf, window, bitmap[..len], EncodeWindows(types[next..]));
      buf := buf + [Byte(window)];
      buf := buf + [Byte(len)];
      buf := buf + bitmap[..len];
      i := next;
    }
    assert types[i..] == [] && buf + [] == buf;
    EncodeExact(types, -1);
  }

  lemma Slices(types: seq<int>, i: nat, next: nat)
    requires i <= next <= |types|
    ensures types[i..][..next - i] == types[i..next] && types[i..][next - i..] == types[next..]
  {
  }

  lemma EncodeStep(types: seq<int>, i: nat, next: nat, bits: Bytes)
    requires Ascending(types) && i < |types|
    requires next == i + Leading(types[i..], types[i] / 256)
    requires bits == Trim(Window(Elems(types[i..next]), types[i] / 256))
    ensures i < next <= |types|
    ensures EncodeWindows(types[i..]) == [Byte(types[i] / 256), Byte(|bits|)] + bits + EncodeWindows(types[next..])
  {
    Slices(types, i, next);
    NextWindow(types[i..]);
  }

  lemma AppendBlock(buf: Bytes, w: byte, bits: Bytes, rest: Bytes)
    requires |bits| < 256
    ensures buf + ([Byte(w), Byte(|bits|)] + bits + rest) == buf + [Byte(w)] + [Byte(|bits|)] + bits + rest
  {
  }

  lemma WindowStep(s: set<int>, w: int, t: int)
    requires 0 <= t && t / 256 == w
    ensures var i := t % 256 / 8;
            Window(s + {t}, w) == Window(s, w)[i := SetBit(Window(s, w)[i], t % 256 % 8)]
  {
    var i := t % 256 / 8;
    Position(t);
    OctetSet(s, 256 * w + 8 * i, t % 8);
    forall j | 0 <= j < 32 && j != i
      ensures Octet(s + {t}, 256 * w + 8 * j) == Octet(s, 256 * w + 8 * j)
    {
      BitsSame(s, 256 * w + 8 * j, 8, t);
    }
  }
}
