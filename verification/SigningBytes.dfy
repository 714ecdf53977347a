/** The bytes that are signed for one RRset (section 3.1.8.1 of RFC 4034). */
module SigningBytes {
  import opened Bytes
  import opened Names
  import opened Records
  import opened Sorting

  // ----- sorting of payloads as a function

  function InsertBytes(x: Bytes, s: seq<Bytes>): (r: seq<Bytes>) {
    if s == [] || Compare(x, s[0]) <= 0 then [x] + s else [s[0]] + InsertBytes(x, s[1..])
  }

  function SortBytes(s: seq<Bytes>): (r: seq<Bytes>) {
    if s == [] then [] else InsertBytes(s[0], SortBytes(s[1..]))
  }

  lemma {:induction false} InsertPermutes(x: Bytes, s: seq<Bytes>)
    ensures multiset(InsertBytes(x, s)) == multiset(s) + multiset{x}
  {
    if s != [] && Compare(x, s[0]) > 0 {
      hide Compare;
      InsertPermutes(x, s[1..]);
      assert s == [s[0]] + s[1..];
    }
  }

  lemma {:induction false} InsertKeepsOrder(x: Bytes, s: seq<Bytes>)
    requires Sorted(s)
    ensures Sorted(InsertBytes(x, s))
  {
    if s == [] {
    } else if Compare(x, s[0]) <= 0 {
      var r := [x] + s;
      hide Compare;
      forall j | 0 < j < |r|
        ensures Compare(x, r[j]) <= 0
      {
        if 1 < j {
          CompareTrans(x, s[0], s[j - 1]);
        }
      }
    } else {
      var rest := InsertBytes(x, s[1..]);
      InsertKeepsOrder(x, s[1..]);
      InsertPermutes(x, s[1..]);
      CompareFlip(x, s[0]);
      hide Compare, InsertBytes;
      forall j | 0 <= j < |rest|
        ensures Compare(s[0], rest[j]) <= 0
      {
        assert rest[j] in multiset(rest);
        if rest[j] != x {
          assert rest[j] in multiset(s[1..]);
          var k :| 0 <= k < |s[1..]| && s[1..][k] == rest[j];
          assert s[k + 1] == rest[j];
        }
      }
    }
  }

  lemma {:induction false} SortBytesSpec(s: seq<Bytes>)
    ensures Sorted(SortBytes(s)) && multiset(SortBytes(s)) == multiset(s)
  {
    if s != [] {
      SortBytesSpec(s[1..]);
      InsertKeepsOrder(s[0], SortBytes(s[1..]));
      InsertPermutes(s[0], SortBytes(s[1..]));
      assert s == [s[0]] + s[1..];
    }
  }

  // ----- canonical form

  function PayloadKey(r: RR): (key: Bytes) { Payload(r.opts) }

  function KeysOf<T>(key: T -> Bytes, s: seq<T>): (ks: seq<Bytes>)
    ensures |ks| == |s|
  {
    seq(|s|, i requires 0 <= i < |s| => key(s[i]))
  }

  function Payloads(rs: seq<RR>): (ps: seq<Bytes>)
    ensures |ps| == |rs|
  {
    KeysOf(PayloadKey, rs)
  }

  /** One record of the set as it enters the signature. */
  function Line(owner: Bytes, wireType: nat, ttl: nat, payload: Bytes): (b: Bytes) {
    owner + U16(wireType) + U16(1) + U32(ttl) + U16(|payload|) + payload
  }

  function Lines(owner: Bytes, wireType: nat, ttl: nat, payloads: seq<Bytes>): (b: Bytes) {
    if payloads == [] then []
    else Lines(owner, wireType, ttl, payloads[..|payloads| - 1]) + Line(owner, wireType, ttl, payloads[|payloads| - 1])
  }

  /** The RRSIG header, then the records in the order of their payloads. */
  function SignedBytes(header: Bytes, rrset: seq<RR>): (b: Bytes)
    requires rrset != []
  {
    header + Lines(Wire(rrset[0].name), WireType(rrset[0].rtype), rrset[0].ttl, SortBytes(Payloads(rrset)))
  }

  /** The buffer `SignRRset` writes, from a sorted copy of the set. */
  method WriteSigned(header: Bytes, rrset: seq<RR>) returns (buf: Bytes)
    requires rrset != [] && forall i :: 0 <= i < |rrset| ==> rrset[i].name == rrset[0].name
    ensures buf == SignedBytes(header, rrset)
  {
    var wireType, ttl := WireType(rrset[0].rtype), rrset[0].ttl;
    var sorted := SortBy(PayloadKey, rrset);
    SortedKeys(PayloadKey, rrset, sorted);
    ghost var owner := Wire(rrset[0].name);
    hide SortBytes, SortedBy;
    buf := header;
    var i := 0;
    while i < |sorted|
      invariant 0 <= i <= |sorted|
      invariant buf == header + Lines(owner, wireType, ttl, Payloads(sorted)[..i])
    {
      MultisetMember(sorted, rrset, sorted[i]);
      var w := WriteDomain(Text(sorted[i].name));
      var payload := Payload(sorted[i].opts);
      var line := w + U16(wireType) + U16(1) + U32(ttl) + U16(|payload|) + payload;
      assert Payloads(sorted)[..i + 1][..i] == Payloads(sorted)[..i] && Payloads(sorted)[i] == PayloadKey(sorted[i]);
      Assoc(header, Lines(owner, wireType, ttl, Payloads(sorted)[..i]), line);
      buf := buf + line;
      i := i + 1;
    }
    assert Payloads(sorted)[..i] == Payloads(sorted);
  }

  /** Whatever the sort does with ties, the keys come out in one order. */
  lemma SortedKeys<T>(key: T -> Bytes, s: seq<T>, sorted: seq<T>)
    requires SortedBy(key, sorted) && multiset(sorted) == multiset(s)
    ensures KeysOf(key, sorted) == SortBytes(KeysOf(key, s))
  {
    MapPermutes(key, sorted, s);
    SortBytesSpec(KeysOf(key, s));
    SortedUnique(KeysOf(key, sorted), SortBytes(KeysOf(key, s)));
  }

  /** Permuting the elements permutes their keys. */
  lemma {:induction false} MapPermutes<T>(key: T -> Bytes, a: seq<T>, b: seq<T>)
    requires multiset(a) == multiset(b)
    ensures multiset(KeysOf(key, a)) == multiset(KeysOf(key, b))
    decreases |a|
  {
    MultisetLength(a, b);
    if a == [] {
      assert KeysOf(key, a) == KeysOf(key, b);
    } else {
      var k := FindPeer(a, b);
      MapPermutes(key, a[..0] + a[1..], b[..k] + b[k + 1..]);
      KeysWithout(key, a, 0);
      KeysWithout(key, b, k);
      PutBack(multiset(KeysOf(key, a)), multiset(KeysOf(key, b)), key(a[0]));
    }
  }

  lemma FindPeer<T>(a: seq<T>, b: seq<T>) returns (k: nat)
    requires a != [] && multiset(a) == multiset(b)
    ensures k < |b| && b[k] == a[0] && multiset(b[..k] + b[k + 1..]) == multiset(a[..0] + a[1..])
  {
    MultisetMember(a, b, a[0]);
    k :| 0 <= k < |b| && b[k] == a[0];
    RemoveAt(a, 0);
    RemoveAt(b, k);
  }

  lemma KeysWithout<T>(key: T -> Bytes, s: seq<T>, k: nat)
    requires k < |s|
    ensures multiset(KeysOf(key, s[..k] + s[k + 1..])) == multiset(KeysOf(key, s)) - multiset{key(s[k])}
    ensures key(s[k]) in multiset(KeysOf(key, s))
  {
    RemoveAt(KeysOf(key, s), k);
    assert KeysOf(key, s[..k] + s[k + 1..]) == KeysOf(key, s)[..k] + KeysOf(key, s)[k + 1..];
  }

  lemma RemoveAt<T>(s: seq<T>, k: nat)
    requires k < |s|
    ensures multiset(s[..k] + s[k + 1..]) == multiset(s) - multiset{s[k]}
    ensures s[k] in multiset(s)
  {
    assert s == s[..k] + [s[k]] + s[k + 1..];
  }

  lemma PutBack<T>(m: multiset<T>, n: multiset<T>, x: T)
    requires x in m && x in n && m - multiset{x} == n - multiset{x}
    ensures m == n
  {
    assert m == (m - multiset{x}) + multiset{x};
    assert n == (n - multiset{x}) + multiset{x};
  }

  /** The order in which an RRset is listed does not reach the signature. */
  lemma SignedBytesPermute(header: Bytes, a: seq<RR>, b: seq<RR>)
    requires a != [] && multiset(a) == multiset(b)
    requires forall r, s :: r in a && s in a ==> r.name == s.name && r.rtype == s.rtype && r.ttl == s.ttl
    ensures b != [] && SignedBytes(header, a) == SignedBytes(header, b)
  {
    MultisetLength(a, b);
    MultisetMember(a, b, b[0]);
    MapPermutes(PayloadKey, a, b);
    SortBytesSpec(Payloads(a));
    SortBytesSpec(Payloads(b));
    SortedUnique(SortBytes(Payloads(a)), SortBytes(Payloads(b)));
    assert a[0] in a && b[0] in a;
  }
}
