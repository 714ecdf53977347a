/** Building the NSEC3 chain on the master and rebuilding it on a slave. */
module Nsec3Chain {
  import opened Bytes
  import opened Names
  import opened Records
  import opened Database
  import opened Sorting
  import opened Nsec3Ring
  import Base32
  import TypeBitmap


  datatype Params = Params(hashAlgorithm: byte, flags: byte, iterations: nat, salt: Bytes)

  /** `DefaultNSEC3PARAMRecord`. */
  const DEFAULT_PARAMS := Params(1, 0, 0, [])

  /** `byHash` maps the encoded owner hash to the payload of its record. */
  datatype Chain = Chain(params: Params, records: seq<RR>, byHash: map<Bytes, Opts>)

  // ----- hashing; SHA-1 is a parameter

  /** Section 5 of RFC 5155: one round over the name, `n` more over the digest, each with the salt behind. */
  function Rounds(sha: Bytes -> Bytes, x: Bytes, salt: Bytes, n: nat): (digest: Bytes) {
    if n == 0 then sha(x + salt) else sha(Rounds(sha, x, salt, n - 1) + salt)
  }

  /** The hash function of a chain. */
  function Hasher(sha: Bytes -> Bytes, p: Params): (hash: Name -> Bytes) {
    n => Rounds(sha, Wire(n), p.salt, p.iterations)
  }

  method HashName(sha: Bytes -> Bytes, name: Name, p: Params) returns (digest: Bytes)
    ensures digest == Hasher(sha, p)(name)
  {
    var x := WriteDomain(Text(name));
    digest := sha(x + p.salt);
    var i := 0;
    while i < p.iterations
      invariant 0 <= i <= p.iterations
      invariant digest == Rounds(sha, Wire(name), p.salt, i)
    {
      digest := sha(digest + p.salt);
      i := i + 1;
    }
  }

  ghost predicate Hash20(hash: Name -> Bytes) {
    forall n :: |hash(n)| == 20
  }

  /** No two of the names share a hash. */
  ghost predicate Injective(hash: Name -> Bytes, names: set<Name>) {
    forall m, n :: m in names && n in names && hash(m) == hash(n) ==> m == n
  }

  // ----- owner names

  lemma EncodedLabel(h: Bytes)
    requires |h| == 20
    ensures ValidLabel(Base32.Encode(h)) && |Base32.Encode(h)| == 32
  {
    Base32.EncodeAlphabet(h);
    hide Base32.Encode;
  }

  function HashLabel(h: Bytes): (l: Label)
    requires |h| == 20
    ensures |l| == 32
  {
    EncodedLabel(h);
    Base32.Encode(h)
  }

  /** The owner name of the NSEC3 record for hash `h`. */
  function Nsec3Owner(zone: Name, h: Bytes): (n: Name)
    requires |h| == 20
  {
    [HashLabel(h)] + zone
  }

  function OwnerKey(n: Name): (key: Bytes) {
    if n == [] then [] else n[0]
  }

  // ----- type lists

  /** The wire types at a node, each once, and RRSIG when there are any. */
  function WireTypes(rrs: seq<RR>): (ts: seq<int>) {
    if rrs == [] then []
    else
      var before, t := WireTypes(rrs[..|rrs| - 1]), WireType(rrs[|rrs| - 1].rtype);
      if t in before then before else before + [t]
  }

  function WithRRSIG(ts: seq<int>): (r: seq<int>) {
    if ts == [] || WireType(RRSIG) in ts then ts else ts + [WireType(RRSIG)]
  }

  function TypesAt(rrs: seq<RR>): (ts: seq<int>) {
    SortTypes(WithRRSIG(WireTypes(rrs)))
  }

  lemma {:induction false} WireTypesNoDup(rrs: seq<RR>)
    ensures NoDup(WireTypes(rrs)) && (rrs != [] ==> WireTypes(rrs) != [])
    decreases |rrs|
  {
    if rrs != [] {
      var init, last := rrs[..|rrs| - 1], rrs[|rrs| - 1];
      WireTypesNoDup(init);
      if WireType(last.rtype) !in WireTypes(init) {
        NoDupAppend(WireTypes(init), WireType(last.rtype));
      }
    }
  }

  lemma {:induction false} WireTypesExact(rrs: seq<RR>, t: int)
    ensures t in WireTypes(rrs) <==> exists r :: r in rrs && WireType(r.rtype) == t
    decreases |rrs|
  {
    if rrs != [] {
      hide WireType;
      WireTypesExact(rrs[..|rrs| - 1], t);
      assert rrs == rrs[..|rrs| - 1] + [rrs[|rrs| - 1]];
    }
  }

  lemma WithRRSIGFacts(rrs: seq<RR>)
    ensures NoDup(WithRRSIG(WireTypes(rrs)))
    ensures forall t :: t in WithRRSIG(WireTypes(rrs)) <==> t in WireTypes(rrs) || (rrs != [] && t == WireType(RRSIG))
  {
    WireTypesNoDup(rrs);
    hide WireTypes, NoDup, WireType;
    assert rrs == [] ==> WireTypes(rrs) == [] by { NoWireTypes(); }
    if WireTypes(rrs) != [] && WireType(RRSIG) !in WireTypes(rrs) {
      NoDupAppend(WireTypes(rrs), WireType(RRSIG));
    }
  }

  lemma NoWireTypes()
    ensures WireTypes([]) == []
  {
  }

  /** The list at a node: ascending, no type twice, the types of its records, and RRSIG if it has any record. */
  lemma TypesAtExact(rrs: seq<RR>)
    ensures NoDup(TypesAt(rrs)) && Ordered(TypesAt(rrs))
    ensures forall t :: t in TypesAt(rrs) <==> Present(rrs, t)
  {
    var canon := WithRRSIG(WireTypes(rrs));
    WithRRSIGFacts(rrs);
    SortPermutes(canon);
    SameCounts(canon, SortTypes(canon));
    hide WithRRSIG, WireTypes, NoDup, SortTypes, WireType;
    forall t
      ensures t in TypesAt(rrs) <==> Present(rrs, t)
    {
      WireTypesExact(rrs, t);
      MultisetMember(SortTypes(canon), canon, t);
    }
  }

  lemma SameCounts(a: seq<int>, b: seq<int>)
    requires multiset(a) == multiset(b) && NoDup(a)
    ensures NoDup(b)
  {
    NoDupCount(a);
    NoDupCount(b);
    forall x | x in b
      ensures multiset(b)[x] == 1
    {
      MultisetMember(a, b, x);
    }
  }

  lemma {:induction false} OrderedUnique(s: seq<int>, t: seq<int>)
    requires Ordered(s) && Ordered(t) && multiset(s) == multiset(t)
    ensures s == t
    decreases |s|
  {
    MultisetLength(s, t);
    if s != [] {
      OrderedHead(s, t);
      OrderedHead(t, s);
      TailMultiset(s);
      TailMultiset(t);
      OrderedUnique(s[1..], t[1..]);
      ConsEqual(s, t);
    }
  }

  lemma OrderedHead(s: seq<int>, t: seq<int>)
    requires Ordered(s) && s != [] && t != [] && multiset(s) == multiset(t)
    ensures s[0] <= t[0]
  {
    assert t[0] in multiset(t);
    var k :| 0 <= k < |s| && s[k] == t[0];
    if k > 0 {
      OrderedPair(s, 0, k);
    }
  }

  lemma {:induction false} SameElems<T(!new)>(s: seq<T>, t: seq<T>)
    requires NoDup(s) && NoDup(t) && Elems(s) == Elems(t)
    ensures multiset(s) == multiset(t)
  {
    NoDupCount(s);
    NoDupCount(t);
    forall x
      ensures multiset(s)[x] == multiset(t)[x]
    {
      if x in s {
        assert x in Elems(t);
      } else {
        assert x !in Elems(t);
      }
    }
  }

  /** An arbitrary iteration over a set: what ranging over a map leaves open. */
  method SetToSeq<T(==, !new)>(s: set<T>) returns (r: seq<T>)
    ensures NoDup(r) && Elems(r) == s
  {
    r := [];
    var todo := s;
    assert Elems(r) == s - todo;
    hide NoDup, Elems;
    while todo != {}
      invariant todo <= s && NoDup(r) && Elems(r) == s - todo
      decreases |todo|
    {
      var x :| x in todo;
      OrderStep(s, todo, r, x);
      r := r + [x];
      todo := todo - {x};
    }
  }

  lemma ElemsEmpty<T>(s: seq<T>)
    ensures Elems(s) == {} ==> s == []
  {
    if s != [] {
      assert s[0] in Elems(s);
    }
  }

  /** The type set of one node, collected in a map and sorted. */
  method CollectTypes(rrs: seq<RR>) returns (types: seq<int>)
    ensures types == TypesAt(rrs) && NoDup(types) && Ordered(types)
    ensures forall t :: t in types <==> Present(rrs, t)
  {
    var typeSet: set<int> := {};
    var i := 0;
    while i < |rrs|
      invariant 0 <= i <= |rrs|
      invariant typeSet == Elems(WireTypes(rrs[..i]))
    {
      assert rrs[..i + 1][..i] == rrs[..i];
      ElemsAppend(WireTypes(rrs[..i]), WireType(rrs[i].rtype));
      typeSet := typeSet + {WireType(rrs[i].rtype)};
      i := i + 1;
    }
    assert rrs[..i] == rrs;
    WireTypesNoDup(rrs);
    ghost var canon := WithRRSIG(WireTypes(rrs));
    ElemsAppend(WireTypes(rrs), WireType(RRSIG));
    if typeSet != {} {
      if WireType(RRSIG) !in typeSet {
        NoDupAppend(WireTypes(rrs), WireType(RRSIG));
      }
      typeSet := typeSet + {WireType(RRSIG)};
    } else {
      ElemsEmpty(WireTypes(rrs));
    }
    var list := SetToSeq(typeSet);
    types := SortTypes(list);
    SameElems(list, canon);
    SortPermutes(list);
    SortPermutes(canon);
    OrderedUnique(types, TypesAt(rrs));
    TypesAtExact(rrs);
  }

  /** The bitmap of an NSEC3 payload announces exactly the listed types. */
  lemma BitmapExact(types: seq<int>, t: int)
    requires TypeNumbers(types) && 0 <= t < 65536
    ensures TypeBitmap.Announces(BitmapOf(types), t) <==> t in types
  {
    var sorted := SortTypes(types);
    SortPermutes(types);
    forall i | 0 <= i < |sorted|
      ensures 0 <= sorted[i] < 65536
    {
      MultisetMember(sorted, types, sorted[i]);
    }
    forall i, j | 0 <= i < j < |sorted|
      ensures sorted[i] <= sorted[j]
    {
      OrderedPair(sorted, i, j);
    }
    hide SortTypes;
    TypeBitmap.EncodeExact(sorted, -1);
    MultisetMember(sorted, types, t);
  }

  /** Types at the owner, as a reader of the chain should find them. */
  ghost predicate Present(rrs: seq<RR>, t: int) {
    (exists r :: r in rrs && WireType(r.rtype) == t) || (rrs != [] && t == WireType(RRSIG))
  }

  // ----- the chain as a function of the hash-sorted owner names

  function SoaTTL(d: DB): (ttl: nat) {
    var soas := TypeList(d, SOA);
    if |soas| > 0 then soas[0].ttl else DEFAULT_TTL
  }

  /** `AsRR` of one chain entry. */
  function EntryRR(id: nat, zone: Name, ttl: nat, p: Params, owner: Bytes, next: Bytes, types: seq<int>): (r: RR)
    requires |owner| == 20
  {
    RR(id, Nsec3Owner(zone, owner), NSEC3, ttl,
       OptsNSEC3(p.hashAlgorithm, p.flags, p.iterations, p.salt, next, types))
  }

  function ParamRR(id: nat, zone: Name, ttl: nat, p: Params): (r: RR) {
    RR(id, zone, NSEC3PARAM, ttl, OptsNSEC3PARAM(p.hashAlgorithm, p.flags, p.iterations, p.salt))
  }

  ghost function RecordAt(d: DB, p: Params, hash: Name -> Bytes, ns: seq<Name>, alloc: nat, i: int): (r: RR)
    requires Hash20(hash) && 0 <= i < |ns|
  {
    EntryRR(alloc + i, d.zone, SoaTTL(d), p, hash(ns[i]), hash(ns[(i + 1) % |ns|]), TypesAt(NameList(d, ns[i])))
  }

  /** One record per name; each points to the hash of the next, the last to the first. */
  ghost function ChainRecords(d: DB, p: Params, hash: Name -> Bytes, ns: seq<Name>, alloc: nat): (rs: seq<RR>)
    requires Hash20(hash)
    ensures |rs| == |ns|
  {
    seq(|ns|, i requires 0 <= i < |ns| => RecordAt(d, p, hash, ns, alloc, i))
  }

  /** Each record of a built chain announces, on the wire, exactly the types at its owner, and RRSIG. */
  lemma ChainBitmapExact(d: DB, p: Params, hash: Name -> Bytes, ns: seq<Name>, alloc: nat, i: nat, t: int)
    requires Hash20(hash) && i < |ns| && 0 <= t < 65536
    ensures var r := ChainRecords(d, p, hash, ns, alloc)[i];
      r.opts.OptsNSEC3? && (TypeBitmap.Announces(BitmapOf(r.opts.types), t) <==> Present(NameList(d, ns[i]), t))
  {
    var rrs := NameList(d, ns[i]);
    assert ChainRecords(d, p, hash, ns, alloc)[i] == RecordAt(d, p, hash, ns, alloc, i);
    hide NameList, SoaTTL, Nsec3Owner, TypesAt, BitmapOf, ChainRecords;
    TypesAtExact(rrs);
    WireNumbers(TypesAt(rrs), rrs);
    BitmapExact(TypesAt(rrs), t);
  }

  lemma WireNumbers(types: seq<int>, rrs: seq<RR>)
    requires forall t :: t in types <==> Present(rrs, t)
    ensures TypeNumbers(types)
  {
    hide WireType;
    forall i | 0 <= i < |types|
      ensures 0 <= types[i] < 65536
    {
      assert types[i] in types;
    }
  }

  /** The hash index filled record by record. */
  function ByHash(records: seq<RR>): (m: map<Bytes, Opts>) {
    if records == [] then map[]
    else
      var last := records[|records| - 1];
      ByHash(records[..|records| - 1])[OwnerKey(last.name) := last.opts]
  }

  lemma {:induction false} ByHashKey(records: seq<RR>, k: Bytes)
    ensures k in ByHash(records) <==> exists i :: 0 <= i < |records| && OwnerKey(records[i].name) == k
    decreases |records|
  {
    if records != [] {
      hide OwnerKey;
      var init := records[..|records| - 1];
      ByHashKey(init, k);
      assert forall i :: 0 <= i < |init| ==> records[i] == init[i];
    }
  }

  datatype ChainError = EmptyDB | BadParam | BadRecord

  datatype NameHash = NameHash(name: Name, hash: Bytes)

  function HashKey(nh: NameHash): (key: Bytes) { nh.hash }

  /** Each name with its hash. */
  method HashAll(sha: Bytes -> Bytes, p: Params, names: seq<Name>) returns (hashes: seq<NameHash>)
    ensures |hashes| == |names|
    ensures forall i :: 0 <= i < |names| ==> hashes[i] == NameHash(names[i], Hasher(sha, p)(names[i]))
  {
    hashes := [];
    var i := 0;
    while i < |names|
      invariant 0 <= i <= |names| && |hashes| == i
      invariant forall j :: 0 <= j < i ==> hashes[j] == NameHash(names[j], Hasher(sha, p)(names[j]))
    {
      var h := HashName(sha, names[i], p);
      hashes := hashes + [NameHash(names[i], h)];
      i := i + 1;
    }
  }

  ghost function NamesOf(hashes: seq<NameHash>): (ns: seq<Name>)
    ensures |ns| == |hashes|
  {
    seq(|hashes|, i requires 0 <= i < |hashes| => hashes[i].name)
  }

  /** First pass: the records without their next hash. */
  method TypePass(d: DB, hashes: seq<NameHash>) returns (types: seq<seq<int>>)
    ensures |types| == |hashes|
    ensures forall i :: 0 <= i < |hashes| ==> types[i] == TypesAt(NameList(d, hashes[i].name))
  {
    hide TypesAt, NameList;
    types := [];
    var i := 0;
    while i < |hashes|
      invariant 0 <= i <= |hashes| && |types| == i
      invariant forall j :: 0 <= j < i ==> types[j] == TypesAt(NameList(d, hashes[j].name))
    {
      var ts := CollectTypes(NameList(d, hashes[i].name));
      types := types + [ts];
      i := i + 1;
    }
  }

  /** Second and third pass: link each entry to the next one and fill the records and the index. */
  method LinkPass(d: DB, p: Params, ghost hash: Name -> Bytes, hashes: seq<NameHash>, types: seq<seq<int>>, alloc: nat)
    returns (records: seq<RR>, byHash: map<Bytes, Opts>)
    requires Hash20(hash) && |types| == |hashes|
    requires forall i :: 0 <= i < |hashes| ==> hashes[i].hash == hash(hashes[i].name)
    requires forall i :: 0 <= i < |hashes| ==> types[i] == TypesAt(NameList(d, hashes[i].name))
    ensures records == ChainRecords(d, p, hash, NamesOf(hashes), alloc) && byHash == ByHash(records)
  {
    hide TypesAt, NameList, SoaTTL, Nsec3Owner;
    var ttl := SoaTTL(d);
    records, byHash := [], map[];
    ghost var ns := NamesOf(hashes);
    var i := 0;
    while i < |hashes|
      invariant 0 <= i <= |hashes| && |records| == i
      invariant forall j :: 0 <= j < i ==> records[j] == RecordAt(d, p, hash, ns, alloc, j)
      invariant byHash == ByHash(records)
    {
      var next := (i + 1) % |hashes|;
      var rr := EntryRR(alloc + i, d.zone, ttl, p, hashes[i].hash, hashes[next].hash, types[i]);
      assert rr == RecordAt(d, p, hash, ns, alloc, i);
      assert (records + [rr])[..i] == records;
      byHash := byHash[OwnerKey(rr.name) := rr.opts];
      records := records + [rr];
      i := i + 1;
    }
    assert records == ChainRecords(d, p, hash, ns, alloc);
  }

  lemma SameMembers<T>(s: seq<T>, t: seq<T>)
    requires multiset(s) == multiset(t)
    ensures Elems(s) == Elems(t)
  {
    assert forall x :: x in s <==> x in multiset(s);
    assert forall x :: x in t <==> x in multiset(t);
  }

  lemma SortedEntries(names: seq<Name>, hashes: seq<NameHash>, sorted: seq<NameHash>, hash: Name -> Bytes)
    requires |hashes| == |names| && Elems(sorted) == Elems(hashes)
    requires forall i :: 0 <= i < |names| ==> hashes[i] == NameHash(names[i], hash(names[i]))
    ensures forall i :: 0 <= i < |sorted| ==> sorted[i].name in names && sorted[i].hash == hash(sorted[i].name)
    ensures Elems(NamesOf(sorted)) == Elems(names)
  {
    var ns := NamesOf(sorted);
    forall i | 0 <= i < |sorted|
      ensures sorted[i].name in names && sorted[i].hash == hash(sorted[i].name)
    {
      assert sorted[i] in Elems(hashes);
    }
    forall n | n in names
      ensures n in ns
    {
      var k :| 0 <= k < |names| && names[k] == n;
      assert hashes[k] in Elems(sorted);
      var j :| 0 <= j < |sorted| && sorted[j] == hashes[k];
      assert ns[j] == n;
    }
  }

  lemma NamesPermute(names: seq<Name>, hashes: seq<NameHash>, sorted: seq<NameHash>, hash: Name -> Bytes)
    requires NoDup(names) && |hashes| == |names|
    requires forall i :: 0 <= i < |names| ==> hashes[i] == NameHash(names[i], hash(names[i]))
    requires multiset(sorted) == multiset(hashes) && SortedBy(HashKey, sorted)
    ensures forall i :: 0 <= i < |sorted| ==> sorted[i].hash == hash(sorted[i].name)
    ensures NoDup(NamesOf(sorted)) && Elems(NamesOf(sorted)) == Elems(names)
    ensures SortedBy(hash, NamesOf(sorted))
  {
    MultisetLength(sorted, hashes);
    SameMembers(sorted, hashes);
    SortedEntries(names, hashes, sorted, hash);
    hide Elems, NoDup;
    LengthNoDup(names, NamesOf(sorted));
    var ns := NamesOf(sorted);
    forall i, j | 0 <= i < j < |ns|
      ensures Compare(hash(ns[i]), hash(ns[j])) <= 0
    {
      assert Compare(HashKey(sorted[i]), HashKey(sorted[j])) <= 0;
    }
  }

  lemma {:induction false} ElemsSize<T>(s: seq<T>)
    ensures |Elems(s)| <= |s|
    ensures |Elems(s)| == |s| <==> NoDup(s)
    decreases |s|
  {
    if s == [] {
      assert Elems(s) == {};
    } else {
      var init, last := s[..|s| - 1], s[|s| - 1];
      ElemsSize(init);
      ElemsAppend(init, last);
      assert s == init + [last];
    }
  }

  /** Same elements, same length: no duplicates on either side. */
  lemma LengthNoDup<T>(a: seq<T>, b: seq<T>)
    requires NoDup(a) && |a| == |b| && Elems(a) == Elems(b)
    ensures NoDup(b)
  {
    ElemsSize(a);
    ElemsSize(b);
  }

  /** `BuildNSEC3Chain`: every owner name of the database, in the order of the hashes, whatever order the map gave. */
  method BuildNSEC3Chain(d: DB, sha: Bytes -> Bytes, p: Params, alloc: nat)
    returns (r: Result<(Chain, RR), ChainError>, ghost ns: seq<Name>)
    requires Hash20(Hasher(sha, p))
    ensures r.Err? <==> d.byName == map[]
    ensures NoDup(ns) && Elems(ns) == d.byName.Keys && SortedBy(Hasher(sha, p), ns)
    ensures r.Ok? ==>
      var records := ChainRecords(d, p, Hasher(sha, p), ns, alloc);
      r.value == (Chain(p, records, ByHash(records)), ParamRR(alloc + |ns|, d.zone, SoaTTL(d), p))
  {
    hide NoDup, Elems, SortedBy, Hasher, ChainRecords, SoaTTL, TypesAt, NameList, ByHash;
    var names := SetToSeq(d.byName.Keys);
    var hashes := HashAll(sha, p, names);
    var sorted := SortBy(HashKey, hashes);
    NamesPermute(names, hashes, sorted, Hasher(sha, p));
    ns := NamesOf(sorted);
    if |d.byName| == 0 {
      return Err(EmptyDB), ns;
    }
    var types := TypePass(d, sorted);
    var records, byHash := LinkPass(d, p, Hasher(sha, p), sorted, types, alloc);
    r := Ok((Chain(p, records, byHash), ParamRR(alloc + |sorted|, d.zone, SoaTTL(d), p)));
  }

  /** With distinct hashes the order is strict and therefore the only one: the map order leaves no trace. */
  lemma ChainOrderUnique(hash: Name -> Bytes, ns: seq<Name>, ms: seq<Name>)
    requires NoDup(ns) && NoDup(ms) && Elems(ns) == Elems(ms) && Injective(hash, Elems(ns))
    requires SortedBy(hash, ns) && SortedBy(hash, ms)
    ensures ns == ms && StrictBy(hash, ns)
  {
    HashesDistinct(hash, ns);
    SameElems(ns, ms);
    StrictUnique(hash, ns, ms);
  }

  lemma HashesDistinct(hash: Name -> Bytes, ns: seq<Name>)
    requires NoDup(ns) && Injective(hash, Elems(ns)) && SortedBy(hash, ns)
    ensures StrictBy(hash, ns)
  {
    forall i, j | 0 <= i < j < |ns|
      ensures hash(ns[i]) != hash(ns[j])
    {
      NoDupPair(ns, i, j);
      assert ns[i] in Elems(ns) && ns[j] in Elems(ns);
    }
    SortedIsStrict(hash, ns);
  }

  lemma {:induction false} NoDupPair<T>(s: seq<T>, i: nat, j: nat)
    requires NoDup(s) && i < j < |s|
    ensures s[i] != s[j]
    decreases |s|
  {
    if j == |s| - 1 {
      assert s[..|s| - 1][i] == s[i];
    } else {
      NoDupPair(s[..|s| - 1], i, j);
    }
  }

  // ----- rebuilding

  function NameKey(r: RR): (key: Bytes) { Text(r.name) }

  function ParamsIn(d: DB): (p: Params) {
    var ps := TypeList(d, NSEC3PARAM);
    if ps == [] || !ps[0].opts.OptsNSEC3PARAM? then DEFAULT_PARAMS
    else Params(ps[0].opts.paramAlgorithm, ps[0].opts.paramFlags, ps[0].opts.paramIterations, ps[0].opts.paramSalt)
  }

  ghost predicate Rebuildable(d: DB) {
    && (TypeList(d, NSEC3PARAM) == [] || TypeList(d, NSEC3PARAM)[0].opts.OptsNSEC3PARAM?)
    && forall r :: r in TypeList(d, NSEC3) ==> r.opts.OptsNSEC3?
  }

  /** `c` holds the NSEC3 records of `d`, sorted by owner string, with their index. */
  ghost predicate IsRebuild(d: DB, c: Chain) {
    && c.params == ParamsIn(d)
    && SortedBy(NameKey, c.records) && multiset(c.records) == multiset(TypeList(d, NSEC3))
    && c.byHash == ByHash(c.records)
  }

  /** `RebuildNSEC3Chain`: sort the NSEC3 records by owner string and index them. */
  method RebuildNSEC3Chain(d: DB) returns (r: Result<Chain, ChainError>)
    ensures r.Ok? <==> Rebuildable(d)
    ensures r.Ok? ==> IsRebuild(d, r.value)
  {
    var list, ps := TypeList(d, NSEC3), TypeList(d, NSEC3PARAM);
    var params := DEFAULT_PARAMS;
    if |ps| > 0 {
      if !ps[0].opts.OptsNSEC3PARAM? {
        return Err(BadParam);
      }
      params := Params(ps[0].opts.paramAlgorithm, ps[0].opts.paramFlags, ps[0].opts.paramIterations, ps[0].opts.paramSalt);
    }
    var sorted := SortBy(NameKey, list);
    var byHash, ok := IndexRecords(sorted);
    assert forall x :: x in sorted <==> x in multiset(sorted);
    assert forall x :: x in list <==> x in multiset(list);
    if !ok {
      return Err(BadRecord);
    }
    r := Ok(Chain(params, sorted, byHash));
  }

  /** The index loop; it stops at the first payload of another type. */
  method IndexRecords(sorted: seq<RR>) returns (byHash: map<Bytes, Opts>, ok: bool)
    ensures ok <==> forall r :: r in sorted ==> r.opts.OptsNSEC3?
    ensures ok ==> byHash == ByHash(sorted)
  {
    byHash := map[];
    var i := 0;
    while i < |sorted|
      invariant 0 <= i <= |sorted|
      invariant byHash == ByHash(sorted[..i])
      invariant forall j :: 0 <= j < i ==> sorted[j].opts.OptsNSEC3?
    {
      if !sorted[i].opts.OptsNSEC3? {
        return byHash, false;
      }
      assert sorted[..i + 1][..i] == sorted[..i];
      byHash := byHash[OwnerKey(sorted[i].name) := sorted[i].opts];
      i := i + 1;
    }
    assert sorted[..i] == sorted;
    ok := true;
  }

  lemma OwnerOrder(zone: Name, a: Bytes, b: Bytes)
    requires |a| == |b| == 20
    ensures Compare(Text(Nsec3Owner(zone, a)), Text(Nsec3Owner(zone, b))) == Compare(a, b)
  {
    hide Base32.Encode, Compare;
    var x, y, tail := HashLabel(a), HashLabel(b), [DOT] + Text(zone);
    assert Text(Nsec3Owner(zone, a)) == x + tail by { assert Nsec3Owner(zone, a)[1..] == zone; }
    assert Text(Nsec3Owner(zone, b)) == y + tail by { assert Nsec3Owner(zone, b)[1..] == zone; }
    CompareSharedTail(x, y, tail);
    Base32.EncodeOrder(a, b);
  }

  /** The chain the master built is sorted by owner string, too. */
  lemma ChainSortedByOwner(d: DB, p: Params, hash: Name -> Bytes, ns: seq<Name>, alloc: nat)
    requires Hash20(hash) && StrictBy(hash, ns)
    ensures StrictBy(NameKey, ChainRecords(d, p, hash, ns, alloc))
  {
    var records := ChainRecords(d, p, hash, ns, alloc);
    forall i, j | 0 <= i < j < |records|
      ensures Compare(NameKey(records[i]), NameKey(records[j])) < 0
    {
      OwnerOrder(d.zone, hash(ns[i]), hash(ns[j]));
      assert records[i] == RecordAt(d, p, hash, ns, alloc, i) && records[j] == RecordAt(d, p, hash, ns, alloc, j);
    }
  }

  /** The slave's chain equals the master's: same records in the same order, same index, same parameters. */
  lemma RebuildIsBuild(d: DB, p: Params, hash: Name -> Bytes, ns: seq<Name>, alloc: nat, e: DB, c: Chain)
    requires Hash20(hash) && StrictBy(hash, ns)
    requires multiset(TypeList(e, NSEC3)) == multiset(ChainRecords(d, p, hash, ns, alloc)) && ParamsIn(e) == p
    requires IsRebuild(e, c)
    ensures var records := ChainRecords(d, p, hash, ns, alloc);
            c == Chain(p, records, ByHash(records))
  {
    var records := ChainRecords(d, p, hash, ns, alloc);
    ChainSortedByOwner(d, p, hash, ns, alloc);
    StrictUnique(NameKey, records, c.records);
  }

  // ----- covering records

  /** The test `findCovering` applies to one record. */
  predicate RecordCovers(r: RR, target: Bytes) {
    && r.opts.OptsNSEC3?
    && Base32.Decode(OwnerKey(r.name)).Some?
    && Covers(Base32.Decode(OwnerKey(r.name)).value, r.opts.nextHash, target)
  }

  function FirstCovering(records: seq<RR>, target: Bytes): (r: Option<RR>) {
    if records == [] then None
    else if RecordCovers(records[0], target) then Some(records[0])
    else FirstCovering(records[1..], target)
  }

  /** `findCovering`: the first record that covers the hash. */
  method FindCovering(c: Chain, target: Bytes) returns (r: Option<RR>)
    ensures r == FirstCovering(c.records, target)
  {
    hide Base32.Decode, Covers;
    var i := 0;
    while i < |c.records|
      invariant 0 <= i <= |c.records|
      invariant FirstCovering(c.records, target) == FirstCovering(c.records[i..], target)
    {
      var rr := c.records[i];
      assert c.records[i..][1..] == c.records[i + 1..];
      if rr.opts.OptsNSEC3? {
        var ownerHash := Base32.Decode(OwnerKey(rr.name));
        if ownerHash.Some? && Covers(ownerHash.value, rr.opts.nextHash, target) {
          return Some(rr);
        }
      }
      i := i + 1;
    }
    r := None;
  }

  ghost function Hashes(hash: Name -> Bytes, ns: seq<Name>): (hs: seq<Bytes>)
    ensures |hs| == |ns|
  {
    seq(|ns|, i requires 0 <= i < |ns| => hash(ns[i]))
  }

  lemma RecordCoversAt(d: DB, p: Params, hash: Name -> Bytes, ns: seq<Name>, alloc: nat, i: int, target: Bytes)
    requires Hash20(hash) && 0 <= i < |ns|
    ensures RecordCovers(ChainRecords(d, p, hash, ns, alloc)[i], target) <==> CoversAt(Hashes(hash, ns), i, target)
  {
    hide Base32.Encode, Base32.Decode, Covers, TypesAt, SoaTTL, NameList;
    var r := RecordAt(d, p, hash, ns, alloc, i);
    Base32.RoundTrip(hash(ns[i]));
    assert OwnerKey(r.name) == Base32.Encode(hash(ns[i]));
  }

  /** A name outside the chain is covered by exactly one record, a name inside by none. */
  lemma ChainCovers(d: DB, p: Params, hash: Name -> Bytes, ns: seq<Name>, alloc: nat, target: Bytes, i: int)
    requires Hash20(hash) && StrictBy(hash, ns) && 0 <= i < |ns|
    ensures RecordCovers(ChainRecords(d, p, hash, ns, alloc)[i], target) <==>
            target !in Hashes(hash, ns) && i == CoverIndex(Hashes(hash, ns), target)
  {
    var hs := Hashes(hash, ns);
    RecordCoversAt(d, p, hash, ns, alloc, i, target);
    if target in hs {
      MemberUncovered(hs, target, i);
    } else {
      CoveredOnce(hs, target, i);
    }
  }

  lemma {:induction false} FirstCoveringOnly(records: seq<RR>, target: Bytes, k: int)
    requires forall i :: 0 <= i < |records| ==> (RecordCovers(records[i], target) <==> i == k)
    ensures FirstCovering(records, target) == if 0 <= k < |records| then Some(records[k]) else None
    decreases |records|
  {
    if records != [] && k != 0 {
      hide RecordCovers;
      forall i | 0 <= i < |records[1..]|
        ensures RecordCovers(records[1..][i], target) <==> i == k - 1
      {
        assert records[1..][i] == records[i + 1];
      }
      FirstCoveringOnly(records[1..], target, k - 1);
    }
  }

  /** `findCovering` on a built chain: the one covering record for a hash outside, an error for a hash inside. */
  lemma CoveringExact(d: DB, p: Params, hash: Name -> Bytes, ns: seq<Name>, alloc: nat, target: Bytes)
    requires Hash20(hash) && StrictBy(hash, ns) && ns != []
    ensures var records, hs := ChainRecords(d, p, hash, ns, alloc), Hashes(hash, ns);
            FirstCovering(records, target) == if target in hs then None else Some(records[CoverIndex(hs, target)])
  {
    hide RecordCovers, ChainRecords, Hashes, CoverIndex;
    var records, hs := ChainRecords(d, p, hash, ns, alloc), Hashes(hash, ns);
    var k := if target in hs then -1 else CoverIndex(hs, target);
    forall i | 0 <= i < |records|
      ensures RecordCovers(records[i], target) <==> i == k
    {
      ChainCovers(d, p, hash, ns, alloc, target, i);
    }
    FirstCoveringOnly(records, target, k);
  }
}
