/**
 Domain names as label sequences, leftmost label first; the zone apex is a suffix.

 The source keeps a name as one lower-case string with a trailing dot. `Text` is that
 string, and the lemmas below carry the string operations the source uses (cut at the
 first dot, `HasSuffix` with a leading dot, `Split`) over to label sequences. The root
 name is the empty sequence; its text is empty here and "." in the source.
 */
module Names {
  import opened Bytes

  const DOT: byte := 46
  const STAR: Label := [42]

  /** What `validateFqdn` accepts for one label of a name that `ToLower` has gone over. */
  ghost predicate ValidLabel(l: Bytes) {
    0 < |l| <= 63 && forall i :: 0 <= i < |l| ==> l[i] != DOT && !(65 <= l[i] <= 90)
  }

  type Label = l: Bytes | ValidLabel(l) ghost witness [97]

  type Name = seq<Label>

  function ToLower(s: Bytes): (r: Bytes)
    ensures |r| == |s|
  {
    seq(|s|, i requires 0 <= i < |s| => if 65 <= s[i] <= 90 then (s[i] + 32) as byte else s[i])
  }

  function Text(n: Name): (t: Bytes)
    ensures t == [] <==> n == []
  {
    if n == [] then [] else n[0] + [DOT] + Text(n[1..])
  }

  /** `strings.HasSuffix`. */
  predicate HasSuffix(s: Bytes, suffix: Bytes) {
    |suffix| <= |s| && s[|s| - |suffix|..] == suffix
  }

  /** `n` is `p` or lies below it. */
  predicate AtOrBelow(n: Name, p: Name) {
    |p| <= |n| && n[|n| - |p|..] == p
  }

  predicate Below(n: Name, p: Name) {
    |p| < |n| && n[|n| - |p|..] == p
  }

  lemma BelowTrans(a: Name, b: Name, c: Name)
    requires AtOrBelow(a, b) && AtOrBelow(b, c)
    ensures AtOrBelow(a, c)
    ensures Below(a, b) || Below(b, c) ==> Below(a, c)
  {
    assert a[|a| - |c|..] == a[|a| - |b|..][|b| - |c|..];
  }

  /** Two ancestors of one name are comparable. */
  lemma AncestorsNest(n: Name, a: Name, b: Name)
    requires AtOrBelow(n, a) && AtOrBelow(n, b) && |a| <= |b|
    ensures AtOrBelow(b, a)
  {
    assert n[|n| - |a|..] == n[|n| - |b|..][|b| - |a|..];
  }

  lemma {:induction false} TextInjective(a: Name, b: Name)
    requires Text(a) == Text(b)
    ensures a == b
  {
    if a != [] {
      CutAtFirstDot(a);
      CutAtFirstDot(b);
      var s := Text(a);
      assert s[|a[0]|] == DOT && s[|b[0]|] == DOT;
      assert forall i :: 0 <= i < |a[0]| ==> s[i] == a[0][i];
      assert forall i :: 0 <= i < |b[0]| ==> s[i] == b[0][i];
      assert |a[0]| == |b[0]|;
      assert a[0] == s[..|a[0]|] == b[0];
      TextInjective(a[1..], b[1..]);
      assert a == [a[0]] + a[1..] && b == [b[0]] + b[1..];
    }
  }

  /** Cutting a name's string after its first dot drops its first label. */
  lemma CutAtFirstDot(n: Name)
    requires n != []
    ensures |n[0]| < |Text(n)| && Text(n)[|n[0]|] == DOT
    ensures forall i :: 0 <= i < |n[0]| ==> Text(n)[i] == n[0][i] != DOT
    ensures Text(n)[..|n[0]|] == n[0]
    ensures Text(n)[|n[0]| + 1..] == Text(n[1..])
  {
    assert Text(n) == n[0] + ([DOT] + Text(n[1..]));
  }

  lemma {:induction false} TextConcat(a: Name, b: Name)
    ensures Text(a + b) == Text(a) + Text(b)
  {
    if a == [] {
      assert a + b == b;
    } else {
      assert (a + b)[1..] == a[1..] + b;
      TextConcat(a[1..], b);
    }
  }

  /** `strings.HasSuffix(k, "." + c)` is "strictly below" on label sequences. */
  lemma {:induction false} SuffixIsBelow(k: Name, c: Name)
    ensures HasSuffix(Text(k), [DOT] + Text(c)) <==> Below(k, c)
  {
    if Below(k, c) {
      var up := k[..|k| - |c| - 1];
      var l := k[|k| - |c| - 1];
      assert k == up + ([l] + c);
      TextConcat(up, [l] + c);
      assert Text([l] + c) == l + ([DOT] + Text(c)) by { assert ([l] + c)[1..] == c; }
      assert Text(k) == (Text(up) + l) + ([DOT] + Text(c));
    } else if HasSuffix(Text(k), [DOT] + Text(c)) {
      SuffixImpliesBelow(k, c);
      assert false;
    }
  }

  lemma {:induction false} SuffixImpliesBelow(k: Name, c: Name)
    requires HasSuffix(Text(k), [DOT] + Text(c))
    ensures Below(k, c)
  {
    var s, suffix := Text(k), [DOT] + Text(c);
    CutAtFirstDot(k);
    var rest := k[1..];
    if |suffix| <= |Text(rest)| {
      assert s[|s| - |suffix|..] == Text(rest)[|Text(rest)| - |suffix|..];
      SuffixImpliesBelow(rest, c);
      assert k[|k| - |c|..] == rest[|rest| - |c|..];
    } else {
      assert s[|s| - |suffix|] == suffix[0] == DOT;
      assert |s| - |suffix| == |k[0]|;
      assert Text(rest) == s[|s| - |suffix|..][1..] == Text(c);
      TextInjective(rest, c);
    }
  }

  /** `strings.Split(s, ".")`. */
  function Split(s: Bytes): (parts: seq<Bytes>)
    ensures |parts| >= 1
  {
    if s == [] then [[]]
    else
      var rest := Split(s[1..]);
      if s[0] == DOT then [[]] + rest else [[s[0]] + rest[0]] + rest[1..]
  }

  lemma {:induction false} SplitCut(l: Bytes, rest: Bytes)
    requires forall i :: 0 <= i < |l| ==> l[i] != DOT
    ensures Split(l + [DOT] + rest) == [l] + Split(rest)
  {
    if l == [] {
      assert (l + [DOT] + rest)[1..] == rest;
    } else {
      SplitCut(l[1..], rest);
      assert (l + [DOT] + rest)[1..] == l[1..] + [DOT] + rest;
      assert [l[0]] + l[1..] == l;
    }
  }

  /** `domainLabels` of a name's string gives back its labels. */
  lemma {:induction false} SplitText(n: Name)
    ensures Split(Text(n)) == n + [[]]
  {
    if n != [] {
      SplitCut(n[0], Text(n[1..]));
      SplitText(n[1..]);
      assert [n[0]] + (n[1..] + [[]]) == n + [[]];
    }
  }

  function DomainLabels(s: Bytes): (labels: seq<Bytes>) {
    var parts := Split(s);
    parts[..|parts| - 1]
  }

  /** One length octet and the octets of each label; the length is cut to 8 bits. */
  function LabelWire(labels: seq<Bytes>): (w: Bytes) {
    if labels == [] then [] else [Byte(|labels[0]|)] + labels[0] + LabelWire(labels[1..])
  }

  /** `Domain.Write` of the name `n`. */
  function Wire(n: Name): (w: Bytes)
    ensures |w| >= 1
  {
    LabelWire(n) + [0]
  }

  /** `Domain.Write`: split the string, append each label behind its length, close with the root label. */
  method WriteDomain(d: Bytes) returns (data: Bytes)
    ensures data == LabelWire(DomainLabels(d)) + [0]
    ensures forall n: Name :: d == Text(n) ==> data == Wire(n)
  {
    var labels := DomainLabels(d);
    data := [];
    var i := 0;
    while i < |labels|
      invariant 0 <= i <= |labels|
      invariant data == LabelWire(labels[..i])
    {
      data := data + [Byte(|labels[i]|)];
      data := data + labels[i];
      assert labels[..i + 1] == labels[..i] + [labels[i]];
      LabelWireConcat(labels[..i], [labels[i]]);
      i := i + 1;
    }
    assert labels[..i] == labels;
    data := data + [0];
    forall n: Name | d == Text(n)
      ensures data == Wire(n)
    {
      SplitText(n);
      assert labels == n;
    }
  }

  lemma {:induction false} LabelWireConcat(a: seq<Bytes>, b: seq<Bytes>)
    ensures LabelWire(a + b) == LabelWire(a) + LabelWire(b)
  {
    if a == [] {
      assert a + b == b;
    } else {
      assert (a + b)[1..] == a[1..] + b;
      LabelWireConcat(a[1..], b);
    }
  }

  lemma WireFirst(n: Name, x: Bytes)
    ensures (Wire(n) + x)[0] == if n == [] then 0 else |n[0]|
  {
  }

  lemma WireCons(n: Name, x: Bytes)
    requires n != []
    ensures var s := Wire(n) + x;
      && s[0] == |n[0]| && s[1..|n[0]| + 1] == n[0] && s[|n[0]| + 1..] == Wire(n[1..]) + x
  {
    assert Wire(n) + x == [Byte(|n[0]|)] + n[0] + (Wire(n[1..]) + x);
  }

  /** The wire form is prefix-free: what follows a name does not matter for reading it. */
  lemma {:induction false} WirePrefixFree(a: Name, b: Name, x: Bytes, y: Bytes)
    requires Wire(a) + x == Wire(b) + y
    ensures a == b && x == y
  {
    var s := Wire(a) + x;
    if a == [] || b == [] {
      WireFirst(a, x);
      WireFirst(b, y);
      assert x == s[1..] && y == s[1..];
    } else {
      WireCons(a, x);
      WireCons(b, y);
      WirePrefixFree(a[1..], b[1..], x, y);
      assert a == [a[0]] + a[1..] && b == [b[0]] + b[1..];
    }
  }

  /** Canonical DNS name order (section 6.1 of RFC 4034): compare from the rightmost label. */
  function CanonicalCompare(a: Name, b: Name): (c: int)
    ensures c == -1 || c == 0 || c == 1
    decreases |a|
  {
    if a == [] then (if b == [] then 0 else -1)
    else if b == [] then 1
    else
      var c := Compare(a[|a| - 1], b[|b| - 1]);
      if c != 0 then c else CanonicalCompare(a[..|a| - 1], b[..|b| - 1])
  }

  /** `CompareDomain`: count the shared trailing labels, then compare the first pair that differs. */
  method CompareDomain(a: Name, b: Name) returns (c: int)
    ensures c == CanonicalCompare(a, b) == -CanonicalCompare(b, a)
    ensures c == 0 <==> a == b
  {
    CanonicalFlip(a, b);
    if a == b {
      CanonicalEqual(a, b);
      return 0;
    }
    var common := 0;
    assert a[..|a|] == a && b[..|b|] == b;
    while common < |a| && common < |b| && a[|a| - 1 - common] == b[|b| - 1 - common]
      invariant 0 <= common <= |a| && common <= |b|
      invariant a[|a| - common..] == b[|b| - common..]
      invariant CanonicalCompare(a, b) == CanonicalCompare(a[..|a| - common], b[..|b| - common])
    {
      DropShared(a, b, common);
      common := common + 1;
    }
    CanonicalEqual(a, b);
    if |a| == common && |b| > common {
      return -1;
    }
    if |b| == common && |a| > common {
      return 1;
    }
    assert a == a[..|a| - common] + a[|a| - common..];
    assert b == b[..|b| - common] + b[|b| - common..];
    CompareZero(a[|a| - common - 1], b[|b| - common - 1]);
    c := Compare(a[|a| - common - 1], b[|b| - common - 1]);
  }

  lemma DropShared(a: Name, b: Name, k: nat)
    requires k < |a| && k < |b| && a[|a| - 1 - k] == b[|b| - 1 - k]
    ensures CanonicalCompare(a[..|a| - k], b[..|b| - k]) == CanonicalCompare(a[..|a| - k - 1], b[..|b| - k - 1])
    ensures a[|a| - k..] == b[|b| - k..] ==> a[|a| - (k + 1)..] == b[|b| - (k + 1)..]
  {
    CompareZero(a[|a| - 1 - k], b[|b| - 1 - k]);
    assert a[..|a| - k][..|a| - k - 1] == a[..|a| - k - 1];
    assert b[..|b| - k][..|b| - k - 1] == b[..|b| - k - 1];
    assert a[|a| - (k + 1)..] == [a[|a| - 1 - k]] + a[|a| - k..];
    assert b[|b| - (k + 1)..] == [b[|b| - 1 - k]] + b[|b| - k..];
  }

  lemma {:induction false} CanonicalEqual(a: Name, b: Name)
    ensures CanonicalCompare(a, b) == 0 <==> a == b
    decreases |a|
  {
    if a != [] && b != [] {
      CompareZero(a[|a| - 1], b[|b| - 1]);
      CanonicalEqual(a[..|a| - 1], b[..|b| - 1]);
      assert a == a[..|a| - 1] + [a[|a| - 1]] && b == b[..|b| - 1] + [b[|b| - 1]];
    }
  }

  lemma {:induction false} CanonicalFlip(a: Name, b: Name)
    ensures CanonicalCompare(a, b) == -CanonicalCompare(b, a)
    decreases |a|
  {
    if a != [] && b != [] {
      CompareFlip(a[|a| - 1], b[|b| - 1]);
      CanonicalFlip(a[..|a| - 1], b[..|b| - 1]);
    }
  }

  /** The canonical order is a total order: with the two lemmas above, transitivity is all that was missing. */
  lemma {:induction false} CanonicalTrans(a: Name, b: Name, c: Name)
    requires CanonicalCompare(a, b) <= 0 && CanonicalCompare(b, c) <= 0
    ensures CanonicalCompare(a, c) <= 0
    decreases |a|
  {
    if a != [] && b != [] && c != [] {
      CompareTrans(a[|a| - 1], b[|b| - 1], c[|c| - 1]);
      CompareZero(a[|a| - 1], b[|b| - 1]);
      CompareZero(b[|b| - 1], c[|c| - 1]);
      CompareZero(a[|a| - 1], c[|c| - 1]);
      if a[|a| - 1] == b[|b| - 1] == c[|c| - 1] {
        CanonicalTrans(a[..|a| - 1], b[..|b| - 1], c[..|c| - 1]);
      }
    }
  }
}
