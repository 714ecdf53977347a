/**
 Base32 with the extended hex alphabet, unpadded, in lower case (section 7 of RFC 4648):
 the bits of the input, filled up with zero bits to a multiple of five, read five at a time.
 */
module Base32 {
  import opened Bytes

  function Pow(base: nat, k: nat): (p: nat)
    requires base >= 2
    ensures p >= 1
  {
    if k == 0 then 1 else base * Pow(base, k - 1)
  }

  ghost predicate DigitsBelow(s: Bytes, base: nat) {
    forall i :: 0 <= i < |s| ==> s[i] < base
  }

  /** The number that the digits `s` spell, most significant digit first. */
  function Value(s: Bytes, base: nat): (n: nat)
    requires base >= 2
  {
    if s == [] then 0 else s[0] as int * Pow(base, |s| - 1) + Value(s[1..], base)
  }

  /** `k` digits of `n`. */
  function Digits(n: nat, base: nat, k: nat): (s: Bytes)
    requires 2 <= base <= 256
    ensures |s| == k
    decreases k
  {
    if k == 0 then []
    else
      var p := Pow(base, k - 1);
      [Byte(n / p)] + Digits(n % p, base, k - 1)
  }

  lemma {:induction false} ValueBound(s: Bytes, base: nat)
    requires base >= 2 && DigitsBelow(s, base)
    ensures Value(s, base) < Pow(base, |s|)
  {
    if s != [] {
      ValueBound(s[1..], base);
      ScaleUp(s[0], base - 1, Pow(base, |s| - 1));
    }
  }

  lemma ScaleUp(a: int, b: int, p: nat)
    requires 0 <= a <= b
    ensures a * p <= b * p
    ensures (b + 1) * p == b * p + p
  {
  }

  /** Equal-length digit strings compare as the numbers they spell. */
  lemma {:induction false} ValueOrder(a: Bytes, b: Bytes, base: nat)
    requires base >= 2 && |a| == |b| && DigitsBelow(a, base) && DigitsBelow(b, base)
    ensures Compare(a, b) < 0 <==> Value(a, base) < Value(b, base)
    ensures Compare(a, b) == 0 <==> Value(a, base) == Value(b, base)
  {
    if a != [] {
      var p := Pow(base, |a| - 1);
      ValueBound(a[1..], base);
      ValueBound(b[1..], base);
      ValueOrder(a[1..], b[1..], base);
      if a[0] < b[0] {
        ScaleUp(a[0] + 1, b[0], p);
        ScaleUp(a[0], a[0], p);
      } else if b[0] < a[0] {
        ScaleUp(b[0] + 1, a[0], p);
        ScaleUp(b[0], b[0], p);
      }
    }
  }

  lemma DivMod(n: nat, base: nat, p: nat)
    requires p >= 1 && n < base * p
    ensures 0 <= n / p < base && n % p < p && n == n / p * p + n % p
  {
    if n / p >= base {
      ScaleUp(base, n / p, p);
    }
  }

  lemma {:induction false} DigitsValue(n: nat, base: nat, k: nat)
    requires 2 <= base <= 256 && n < Pow(base, k)
    ensures DigitsBelow(Digits(n, base, k), base)
    ensures Value(Digits(n, base, k), base) == n
    decreases k
  {
    if k > 0 {
      var p := Pow(base, k - 1);
      DivMod(n, base, p);
      hide Pow;
      var rest := Digits(n % p, base, k - 1);
      DigitsValue(n % p, base, k - 1);
      assert Digits(n, base, k) == [Byte(n / p)] + rest;
      assert Digits(n, base, k)[1..] == rest;
    }
  }

  /** Digits of the value: back to the same string. */
  lemma ValueDigits(s: Bytes, base: nat)
    requires 2 <= base <= 256 && DigitsBelow(s, base)
    ensures Digits(Value(s, base), base, |s|) == s
  {
    ValueBound(s, base);
    DigitsValue(Value(s, base), base, |s|);
    var t := Digits(Value(s, base), base, |s|);
    ValueOrder(s, t, base);
    CompareZero(s, t);
  }

  /** '0'..'9', 'a'..'v'. */
  function Char(d: byte): (c: byte) {
    Byte(if d < 10 then 48 + d else 87 + d)
  }

  function FromChar(c: byte): (d: Option<byte>) {
    if 48 <= c < 58 then Some(c - 48) else if 97 <= c < 119 then Some(c - 87) else None
  }

  function Chars(s: Bytes): (r: Bytes)
    ensures |r| == |s|
  {
    seq(|s|, i requires 0 <= i < |s| => Char(s[i]))
  }

  lemma {:induction false} CharsOrder(a: Bytes, b: Bytes)
    requires DigitsBelow(a, 32) && DigitsBelow(b, 32)
    ensures Compare(Chars(a), Chars(b)) == Compare(a, b)
  {
    if a != [] && b != [] {
      CharsOrder(a[1..], b[1..]);
      assert Chars(a)[1..] == Chars(a[1..]) && Chars(b)[1..] == Chars(b[1..]);
    }
  }

  /** Characters for `n` octets. */
  function Chunks(n: nat): (k: nat) {
    (8 * n + 4) / 5
  }

  /** The zero bits behind the last octet, as a factor. */
  function Fill(n: nat): (f: nat)
    ensures f >= 1
  {
    Pow(2, 5 * Chunks(n) - 8 * n)
  }

  /** `strings.ToLower(nsec3Encoding.EncodeToString(h))`. */
  function Encode(h: Bytes): (s: Bytes)
    ensures |s| == Chunks(|h|)
  {
    Chars(Digits(Value(h, 256) * Fill(|h|), 32, Chunks(|h|)))
  }

  function Shift(x: nat, f: nat): (r: nat)
    requires f >= 1
  {
    x / f
  }

  function FromChars(s: Bytes): (d: Option<Bytes>)
    ensures d.Some? ==> |d.value| == |s|
  {
    if s == [] then Some([])
    else
      var first, rest := FromChar(s[0]), FromChars(s[1..]);
      if first.None? || rest.None? then None else Some([first.value] + rest.value)
  }

  /** `nsec3Encoding.DecodeString(strings.ToUpper(s))`; bits behind the last full octet are dropped. */
  function Decode(s: Bytes): (h: Option<Bytes>) {
    var d := FromChars(s);
    if d.None? then None
    else
      var n := 5 * |s| / 8;
      Some(Digits(Shift(Value(d.value, 32), Pow(2, 5 * |s| - 8 * n)), 256, n))
  }

  lemma {:induction false} PowAdd(base: nat, a: nat, b: nat)
    requires base >= 2
    ensures Pow(base, a + b) == Pow(base, a) * Pow(base, b)
  {
    hide Pow;
    if a == 0 {
      PowZero(base);
    } else {
      PowAdd(base, a - 1, b);
      PowNext(base, a - 1 + b);
      PowNext(base, a - 1);
      Associate(base, Pow(base, a - 1), Pow(base, b));
    }
  }

  lemma PowZero(base: nat)
    requires base >= 2
    ensures Pow(base, 0) == 1
  {
  }

  lemma PowNext(base: nat, k: nat)
    requires base >= 2
    ensures Pow(base, k + 1) == base * Pow(base, k)
  {
  }

  lemma Associate(x: int, y: int, z: int)
    ensures x * (y * z) == x * y * z
  {
  }

  lemma {:induction false} PowOctets(n: nat)
    ensures Pow(256, n) == Pow(2, 8 * n)
  {
    if n > 0 {
      PowOctets(n - 1);
      PowAdd(2, 8, 8 * (n - 1));
      assert Pow(2, 8) == 2 * Pow(2, 7) == 4 * Pow(2, 6) == 8 * Pow(2, 5) == 16 * Pow(2, 4) == 256;
    }
  }

  lemma {:induction false} PowQuintets(n: nat)
    ensures Pow(32, n) == Pow(2, 5 * n)
  {
    if n > 0 {
      PowQuintets(n - 1);
      PowAdd(2, 5, 5 * (n - 1));
      assert Pow(2, 5) == 2 * Pow(2, 4) == 4 * Pow(2, 3) == 32;
    }
  }

  /** The filled-up number fits into the characters. */
  lemma FillFits(h: Bytes)
    ensures Value(h, 256) * Fill(|h|) < Pow(32, Chunks(|h|))
  {
    hide Pow, Value;
    var n, k := |h|, Chunks(|h|);
    ValueBound(h, 256);
    PowOctets(n);
    PowQuintets(k);
    PowAdd(2, 8 * n, 5 * k - 8 * n);
    ScaleLess(Value(h, 256), Pow(256, n), Fill(n));
  }

  lemma ScaleLess(v: nat, p: nat, f: nat)
    requires v < p && f >= 1
    ensures v * f < p * f
  {
  }

  lemma ScaleOrder(x: nat, y: nat, f: nat)
    requires f >= 1
    ensures x < y <==> x * f < y * f
    ensures x == y <==> x * f == y * f
  {
  }

  /** Equal-length hashes and their encodings sort the same way. */
  lemma EncodeOrder(a: Bytes, b: Bytes)
    requires |a| == |b|
    ensures Compare(Encode(a), Encode(b)) == Compare(a, b)
  {
    hide Digits, Value, Chars, Compare, Fill, Chunks;
    var n, k := |a|, Chunks(|a|);
    var x, y := Value(a, 256) * Fill(n), Value(b, 256) * Fill(n);
    FillFits(a);
    FillFits(b);
    DigitsValue(x, 32, k);
    DigitsValue(y, 32, k);
    CharsOrder(Digits(x, 32, k), Digits(y, 32, k));
    ValueOrder(Digits(x, 32, k), Digits(y, 32, k), 32);
    ScaleOrder(Value(a, 256), Value(b, 256), Fill(n));
    ValueOrder(a, b, 256);
  }

  /** Only digits and the letters up to 'v'. */
  lemma EncodeAlphabet(h: Bytes)
    ensures forall i :: 0 <= i < |Encode(h)| ==> 48 <= Encode(h)[i] < 58 || 97 <= Encode(h)[i] < 119
  {
    hide Pow, Digits, Value, Fill, Chunks;
    FillFits(h);
    DigitsValue(Value(h, 256) * Fill(|h|), 32, Chunks(|h|));
  }

  lemma EncodeInjective(a: Bytes, b: Bytes)
    requires |a| == |b| && Encode(a) == Encode(b)
    ensures a == b
  {
    EncodeOrder(a, b);
    CompareZero(Encode(a), Encode(b));
    CompareZero(a, b);
  }

  lemma {:induction false} CharsBack(s: Bytes)
    requires DigitsBelow(s, 32)
    ensures FromChars(Chars(s)) == Some(s)
  {
    if s != [] {
      CharsBack(s[1..]);
      assert Chars(s)[1..] == Chars(s[1..]);
      assert s == [s[0]] + s[1..];
    }
  }

  lemma Exact(x: nat, f: nat)
    requires f >= 1
    ensures x * f / f == x
  {
    DivUnique(x * f, f, x, 0);
  }

  /** Decoding gives back the hash. */
  lemma RoundTrip(h: Bytes)
    ensures Decode(Encode(h)) == Some(h)
  {
    hide Digits, Value, Chars, FromChars, Pow;
    var n, k := |h|, Chunks(|h|);
    var x := Value(h, 256) * Fill(n);
    FillFits(h);
    DigitsValue(x, 32, k);
    CharsBack(Digits(x, 32, k));
    assert 5 * k / 8 == n;
    Exact(Value(h, 256), Fill(n));
    ValueDigits(h, 256);
  }
}
