/** Signing RRsets: key roles, grouping, and one RRSIG per RRset and key. */
module Signing {
  import opened Bytes
  import opened Names
  import opened Records
  import opened Database
  import opened SigningBytes

  datatype SigningKey = SigningKey(flags: nat, algorithm: byte, publicKey: Bytes, keyTag: nat, secret: Bytes) {
    predicate IsKSK() { flags == 257 }
    predicate IsZSK() { flags == 256 }
  }

  /** `LoadKeys` produces no other flags. */
  ghost predicate ValidKeys(keys: seq<SigningKey>) {
    forall k :: k in keys ==> k.IsKSK() || k.IsZSK()
  }

  datatype Times = Times(inception: nat, expiration: nat)

  /** The primitives: hashing and signing are whatever these functions do. */
  datatype Env = Env(sha: Bytes -> Bytes, sign: (SigningKey, Bytes) -> Option<Bytes>, zoneTimes: Times, chainTimes: Times)

  // ----- key roles

  function KeysBy(keys: seq<SigningKey>, ksk: bool): (r: seq<SigningKey>) {
    if keys == [] then []
    else KeysBy(keys[..|keys| - 1], ksk) + if keys[|keys| - 1].IsKSK() == ksk then [keys[|keys| - 1]] else []
  }

  /** DNSKEY is signed by the KSKs, everything else by the ZSKs; a missing role is filled by the other. */
  function Signers(keys: seq<SigningKey>, t: RRType): (r: seq<SigningKey>) {
    var ksks, zsks := KeysBy(keys, true), KeysBy(keys, false);
    if t == DNSKEY then (if ksks == [] then zsks else ksks) else (if zsks == [] then ksks else zsks)
  }

  lemma {:induction false} KeysByExact(keys: seq<SigningKey>, ksk: bool, k: SigningKey)
    ensures multiset(KeysBy(keys, ksk))[k] == if k.IsKSK() == ksk then multiset(keys)[k] else 0
    decreases |keys|
  {
    if keys != [] {
      assert keys == keys[..|keys| - 1] + [keys[|keys| - 1]];
      KeysByExact(keys[..|keys| - 1], ksk, k);
    }
  }

  /** Which keys sign a type: the KSKs a DNSKEY set, the others the rest; all of them where the role has none. */
  lemma SignersExact(keys: seq<SigningKey>, t: RRType, k: SigningKey)
    ensures multiset(Signers(keys, t))[k] ==
            if k.IsKSK() == (t == DNSKEY) || forall x :: x in keys ==> x.IsKSK() != (t == DNSKEY) then multiset(keys)[k] else 0
  {
    KeysByExact(keys, t == DNSKEY, k);
    KeysByExact(keys, t != DNSKEY, k);
    var own := KeysBy(keys, t == DNSKEY);
    forall x | x in keys && x.IsKSK() == (t == DNSKEY)
      ensures x in own
    {
      KeysByExact(keys, t == DNSKEY, x);
      assert x in multiset(own);
    }
    if own != [] {
      KeysByExact(keys, t == DNSKEY, own[0]);
      assert own[0] in multiset(keys);
    }
  }

  /** The split loop of `SignDB`. */
  method SplitKeys(keys: seq<SigningKey>) returns (ksks: seq<SigningKey>, zsks: seq<SigningKey>)
    ensures ksks == Signers(keys, DNSKEY)
    ensures forall t :: t != DNSKEY ==> zsks == Signers(keys, t)
  {
    ksks, zsks := [], [];
    var i := 0;
    while i < |keys|
      invariant 0 <= i <= |keys|
      invariant ksks == KeysBy(keys[..i], true) && zsks == KeysBy(keys[..i], false)
    {
      assert keys[..i + 1][..i] == keys[..i];
      if keys[i].IsKSK() {
        ksks := ksks + [keys[i]];
      } else {
        zsks := zsks + [keys[i]];
      }
      i := i + 1;
    }
    assert keys[..i] == keys;
    if |ksks| == 0 {
      ksks := zsks;
    }
    if |zsks| == 0 {
      zsks := ksks;
    }
  }

  lemma {:induction false} AllKeysBy(keys: seq<SigningKey>, ksk: bool)
    requires KeysBy(keys, !ksk) == []
    ensures KeysBy(keys, ksk) == keys
    decreases |keys|
  {
    if keys != [] {
      assert keys == keys[..|keys| - 1] + [keys[|keys| - 1]];
      AllKeysBy(keys[..|keys| - 1], ksk);
    }
  }

  /** Step 6 of `signDB` selects the same keys by `IsZSK`, falling back on all of them. */
  method ChainKeys(keys: seq<SigningKey>) returns (zsks: seq<SigningKey>)
    requires ValidKeys(keys)
    ensures zsks == Signers(keys, NSEC3)
  {
    zsks := [];
    var i := 0;
    while i < |keys|
      invariant 0 <= i <= |keys|
      invariant zsks == KeysBy(keys[..i], false)
    {
      assert keys[..i + 1][..i] == keys[..i];
      assert keys[i].IsKSK() || keys[i].IsZSK();
      if keys[i].IsZSK() {
        zsks := zsks + [keys[i]];
      }
      i := i + 1;
    }
    assert keys[..i] == keys;
    if |zsks| == 0 {
      AllKeysBy(keys, true);
      zsks := keys;
    }
  }

  // ----- one signature

  /** Section 3.1.3 of RFC 4034: neither the root label nor a leading wildcard counts. */
  function CountLabels(n: Name): (k: byte) {
    Byte(if n == [] then 1 else if n[0] == STAR then |n| - 1 else |n|)
  }

  predicate Supported(algorithm: byte) {
    algorithm == 8 || algorithm == 13 || algorithm == 14 || algorithm == 15
  }

  function SigFields(zone: Name, key: SigningKey, times: Times, rr: RR, signature: Bytes): (o: Opts)
    ensures o.OptsRRSIG? && o.typeCovered == WireType(rr.rtype)
  {
    OptsRRSIG(WireType(rr.rtype), key.algorithm, CountLabels(rr.name), rr.ttl, times.expiration, times.inception,
              key.keyTag, zone, signature)
  }

  /** The signature of `key` over the set, or nothing when the primitive refuses. */
  function Signature(env: Env, times: Times, zone: Name, rrset: seq<RR>, key: SigningKey): (s: Option<Bytes>)
    requires rrset != []
  {
    if !Supported(key.algorithm) then None
    else env.sign(key, SignedBytes(SigHeader(SigFields(zone, key, times, rrset[0], [])), rrset))
  }

  /** The RRSIG record for the set. */
  function SigRR(env: Env, times: Times, zone: Name, rrset: seq<RR>, key: SigningKey, id: nat): (r: RR)
    requires rrset != []
    ensures r.name == rrset[0].name && r.rtype == RRSIG && r.id == id
    ensures r.opts.OptsRRSIG? && r.opts.typeCovered == WireType(rrset[0].rtype)
  {
    var s := Signature(env, times, zone, rrset, key);
    RR(id, rrset[0].name, RRSIG, rrset[0].ttl,
       SigFields(zone, key, times, rrset[0], if s.Some? then s.value else []))
  }

  ghost predicate OneOwner(rrset: seq<RR>) {
    forall i :: 0 <= i < |rrset| ==> rrset[i].name == rrset[0].name
  }

  /** `SignRRset` followed by `AsRR`. */
  method SignRRset(env: Env, times: Times, zone: Name, rrset: seq<RR>, key: SigningKey, id: nat) returns (r: Option<RR>)
    requires OneOwner(rrset)
    ensures r.Some? <==> rrset != [] && Signature(env, times, zone, rrset, key).Some?
    ensures r.Some? ==> r.value == SigRR(env, times, zone, rrset, key, id)
  {
    if |rrset| == 0 {
      return None;
    }
    var header := SigHeader(SigFields(zone, key, times, rrset[0], []));
    var toSign := WriteSigned(header, rrset);
    if !Supported(key.algorithm) {
      return None;
    }
    var sig := env.sign(key, toSign);
    if sig.None? {
      return None;
    }
    r := Some(RR(id, rrset[0].name, RRSIG, rrset[0].ttl, SigFields(zone, key, times, rrset[0], sig.value)));
  }

  /** One signature per key; ids from `id` on. */
  function SigBlock(env: Env, times: Times, zone: Name, rrset: seq<RR>, keys: seq<SigningKey>, id: nat): (rs: seq<RR>)
    requires rrset != []
    ensures |rs| == |keys|
  {
    seq(|keys|, j requires 0 <= j < |keys| => SigRR(env, times, zone, rrset, keys[j], id + j))
  }

  /** Every key of the list can sign the set. */
  ghost predicate AllSign(env: Env, times: Times, zone: Name, rrset: seq<RR>, keys: seq<SigningKey>)
    requires rrset != []
  {
    forall k :: k in keys ==> Signature(env, times, zone, rrset, k).Some?
  }

  /** Every RRset but signatures can be signed by all keys of its role. */
  ghost predicate SetsSign(env: Env, zone: Name, rs: seq<RR>, keys: seq<SigningKey>) {
    forall n, t :: t != RRSIG && Pick(rs, RRset(n, t)) != [] ==>
      AllSign(env, env.zoneTimes, zone, Pick(rs, RRset(n, t)), Signers(keys, t))
  }

  method SignWithAll(env: Env, times: Times, zone: Name, rrset: seq<RR>, keys: seq<SigningKey>, id: nat)
    returns (r: Option<seq<RR>>)
    requires OneOwner(rrset) && rrset != []
    ensures r.Some? ==> r.value == SigBlock(env, times, zone, rrset, keys, id)
    ensures r.Some? <==> AllSign(env, times, zone, rrset, keys)
  {
    hide Signature, SigRR;
    var result := [];
    var i := 0;
    while i < |keys|
      invariant 0 <= i <= |keys| && |result| == i
      invariant forall j :: 0 <= j < i ==> result[j] == SigRR(env, times, zone, rrset, keys[j], id + j)
      invariant forall j :: 0 <= j < i ==> Signature(env, times, zone, rrset, keys[j]).Some?
    {
      var sig := SignRRset(env, times, zone, rrset, keys[i], id + i);
      if sig.None? {
        assert keys[i] in keys;
        return None;
      }
      result := result + [sig.value];
      i := i + 1;
    }
    assert result == SigBlock(env, times, zone, rrset, keys, id);
    r := Some(result);
  }

  lemma BlockMatches(env: Env, times: Times, zone: Name, rrset: seq<RR>, keys: seq<SigningKey>, id: nat, n: Name, covered: nat)
    requires rrset != []
    ensures var block := SigBlock(env, times, zone, rrset, keys, id);
      Pick(block, SigOver(n, covered)) ==
      if rrset[0].name == n && WireType(rrset[0].rtype) == covered then block else []
  {
    hide SigRR, WireType;
    var block := SigBlock(env, times, zone, rrset, keys, id);
    if rrset[0].name == n && WireType(rrset[0].rtype) == covered {
      PickAll(block, SigOver(n, covered));
    } else {
      PickNone(block, SigOver(n, covered));
    }
  }

  // ----- grouping

  type RRsetKey = (Name, RRType)

  /** The keys of the RRsets in the list, in order of first appearance; signatures are not signed. */
  function GroupOrder(rs: seq<RR>): (ks: seq<RRsetKey>) {
    if rs == [] then []
    else
      var before, r := GroupOrder(rs[..|rs| - 1]), rs[|rs| - 1];
      if r.rtype == RRSIG || (r.name, r.rtype) in before then before else before + [(r.name, r.rtype)]
  }

  lemma {:induction false} GroupOrderNoDup(rs: seq<RR>)
    ensures NoDup(GroupOrder(rs))
    decreases |rs|
  {
    if rs != [] {
      var before, r := GroupOrder(rs[..|rs| - 1]), rs[|rs| - 1];
      GroupOrderNoDup(rs[..|rs| - 1]);
      if (r.name, r.rtype) !in before {
        NoDupAppend(before, (r.name, r.rtype));
      }
    }
  }

  lemma {:induction false} GroupOrderExact(rs: seq<RR>, k: RRsetKey)
    ensures k in GroupOrder(rs) <==> k.1 != RRSIG && Pick(rs, RRset(k.0, k.1)) != []
    decreases |rs|
  {
    if rs != [] {
      GroupOrderExact(rs[..|rs| - 1], k);
    }
  }

  ghost predicate Grouped(rs: seq<RR>, rrsets: map<RRsetKey, seq<RR>>, order: seq<RRsetKey>) {
    && order == GroupOrder(rs) && rrsets.Keys == Elems(order)
    && forall k :: k in rrsets ==> rrsets[k] == Pick(rs, RRset(k.0, k.1))
  }

  lemma GroupStep(rs: seq<RR>, rrsets: map<RRsetKey, seq<RR>>, order: seq<RRsetKey>, r: RR)
    requires Grouped(rs, rrsets, order)
    ensures var k := (r.name, r.rtype);
      if r.rtype == RRSIG then Grouped(rs + [r], rrsets, order)
      else Grouped(rs + [r], rrsets[k := (if k in rrsets then rrsets[k] else []) + [r]],
                   if k in rrsets then order else order + [k])
  {
    var k := (r.name, r.rtype);
    assert (rs + [r])[..|rs|] == rs;
    ElemsAppend(order, k);
    GroupOrderExact(rs, k);
    forall w
      ensures Pick(rs + [r], w) == Pick(rs, w) + if Match(w, r) then [r] else []
    {
      PickAppend(rs, r, w);
    }
    hide Pick, Elems;
    assert r.rtype != RRSIG ==> (k in order <==> Pick(rs, RRset(k.0, k.1)) != []);
  }

  method GroupList(ghost before: seq<RR>, m: map<RRsetKey, seq<RR>>, o: seq<RRsetKey>, list: seq<RR>)
    returns (rrsets: map<RRsetKey, seq<RR>>, order: seq<RRsetKey>)
    requires Grouped(before, m, o)
    ensures Grouped(before + list, rrsets, order)
  {
    hide Grouped;
    rrsets, order := m, o;
    var i := 0;
    assert before + list[..0] == before;
    while i < |list|
      invariant 0 <= i <= |list|
      invariant Grouped(before + list[..i], rrsets, order)
    {
      var rr := list[i];
      GroupStep(before + list[..i], rrsets, order, rr);
      assert before + list[..i + 1] == before + list[..i] + [rr];
      if rr.rtype != RRSIG {
        var k := (rr.name, rr.rtype);
        if k !in rrsets {
          order := order + [k];
          rrsets := rrsets[k := [] + [rr]];
        } else {
          rrsets := rrsets[k := rrsets[k] + [rr]];
        }
      }
      i := i + 1;
    }
    assert list[..i] == list;
  }

  /** The first half of `SignDB`: walk the type index in map order and collect the RRsets. */
  method GroupRRsets(d: DB) returns (rrsets: map<RRsetKey, seq<RR>>, order: seq<RRsetKey>, ghost types: seq<RRType>)
    ensures IsOrder(d, types) && Grouped(Flatten(d, types), rrsets, order)
  {
    var todo := d.byType.Keys;
    types := [];
    rrsets, order := map[], [];
    assert Elems(types) == d.byType.Keys - todo;
    hide Grouped, NoDup, Elems;
    assert Grouped(Flatten(d, types), rrsets, order) by { EmptyGroup(d); }
    while todo != {}
      invariant todo <= d.byType.Keys && NoDup(types) && Elems(types) == d.byType.Keys - todo
      invariant Grouped(Flatten(d, types), rrsets, order)
      decreases |todo|
    {
      var t :| t in todo;
      OrderStep(d.byType.Keys, todo, types, t);
      FlattenAppend(d, types, t);
      rrsets, order := GroupList(Flatten(d, types), rrsets, order, d.byType[t]);
      types := types + [t];
      todo := todo - {t};
    }
  }

  lemma EmptyGroup(d: DB)
    ensures NoDup<RRType>([])
    ensures Grouped(Flatten(d, []), map[], [])
  {
    var m: map<RRsetKey, seq<RR>> := map[];
    assert m.Keys == Elems<RRsetKey>([]);
  }

  // ----- all signatures

  /** The signatures of the RRsets of `rs` named in `order`, RRset by RRset and key by key. */
  function SigList(env: Env, zone: Name, rs: seq<RR>, order: seq<RRsetKey>, keys: seq<SigningKey>, id: nat): (sigs: seq<RR>) {
    if order == [] then []
    else
      var before, k := SigList(env, zone, rs, order[..|order| - 1], keys, id), order[|order| - 1];
      var rrset := Pick(rs, RRset(k.0, k.1));
      if rrset == [] then before
      else before + SigBlock(env, env.zoneTimes, zone, rrset, Signers(keys, k.1), id + |before|)
  }

  lemma SigListNone(env: Env, zone: Name, rs: seq<RR>, keys: seq<SigningKey>, id: nat)
    ensures SigList(env, zone, rs, [], keys, id) == []
  {
  }

  lemma SigListNext(env: Env, zone: Name, rs: seq<RR>, order: seq<RRsetKey>, k: RRsetKey, keys: seq<SigningKey>, id: nat)
    ensures var before := SigList(env, zone, rs, order, keys, id);
      var rrset := Pick(rs, RRset(k.0, k.1));
      SigList(env, zone, rs, order + [k], keys, id) ==
      if rrset == [] then before else before + SigBlock(env, env.zoneTimes, zone, rrset, Signers(keys, k.1), id + |before|)
  {
    hide Pick, SigBlock, Signers;
    assert (order + [k])[..|order|] == order;
  }

  ghost predicate KeySigns(env: Env, zone: Name, rs: seq<RR>, k: RRsetKey, keys: seq<SigningKey>) {
    var rrset := Pick(rs, RRset(k.0, k.1));
    rrset != [] && AllSign(env, env.zoneTimes, zone, rrset, Signers(keys, k.1))
  }

  lemma SetRefused(env: Env, zone: Name, rs: seq<RR>, k: RRsetKey, keys: seq<SigningKey>)
    requires k.1 != RRSIG && Pick(rs, RRset(k.0, k.1)) != [] && !KeySigns(env, zone, rs, k, keys)
    ensures !SetsSign(env, zone, rs, keys)
  {
    hide Pick, AllSign, Signers;
  }

  lemma SetsAllSign(env: Env, zone: Name, rs: seq<RR>, order: seq<RRsetKey>, keys: seq<SigningKey>)
    requires order == GroupOrder(rs) && forall j :: 0 <= j < |order| ==> KeySigns(env, zone, rs, order[j], keys)
    ensures SetsSign(env, zone, rs, keys)
  {
    hide Pick, AllSign, Signers, GroupOrder;
    forall n, t | t != RRSIG && Pick(rs, RRset(n, t)) != []
      ensures AllSign(env, env.zoneTimes, zone, Pick(rs, RRset(n, t)), Signers(keys, t))
    {
      GroupOrderExact(rs, (n, t));
      var j :| 0 <= j < |order| && order[j] == (n, t);
      assert KeySigns(env, zone, rs, order[j], keys);
    }
  }

  lemma SetsSignSame(env: Env, zone: Name, a: seq<RR>, b: seq<RR>, keys: seq<SigningKey>)
    requires forall n, t :: Pick(a, RRset(n, t)) == Pick(b, RRset(n, t))
    ensures SetsSign(env, zone, a, keys) <==> SetsSign(env, zone, b, keys)
  {
    hide Pick, AllSign, Signers;
  }

  /** The second half of `SignDB`. */
  method SignGroups(env: Env, zone: Name, ghost rs: seq<RR>, rrsets: map<RRsetKey, seq<RR>>, order: seq<RRsetKey>,
                    keys: seq<SigningKey>, id: nat) returns (r: Option<seq<RR>>)
    requires Grouped(rs, rrsets, order)
    ensures r.Some? ==> r.value == SigList(env, zone, rs, order, keys, id)
    ensures r.Some? <==> SetsSign(env, zone, rs, keys)
  {
    hide Signers, Pick, SigBlock, SigList, Signature, AllSign, SetsSign;
    var ksks, zsks := SplitKeys(keys);
    var result := [];
    SigListNone(env, zone, rs, keys, id);
    assert order[..0] == [];
    var i := 0;
    while i < |order|
      invariant 0 <= i <= |order|
      invariant result == SigList(env, zone, rs, order[..i], keys, id)
      invariant forall j :: 0 <= j < i ==> KeySigns(env, zone, rs, order[j], keys)
    {
      var k := order[i];
      assert k in Elems(order);
      var rrset := rrsets[k];
      GroupOrderExact(rs, k);
      PickedOneOwner(rs, k.0, k.1);
      var signers := if k.1 == DNSKEY then ksks else zsks;
      assert order[..i + 1] == order[..i] + [k];
      SigListNext(env, zone, rs, order[..i], k, keys, id);
      var sigs := SignWithAll(env, env.zoneTimes, zone, rrset, signers, id + |result|);
      if sigs.None? {
        SetRefused(env, zone, rs, k, keys);
        return None;
      }
      result := result + sigs.value;
      i := i + 1;
    }
    assert order[..i] == order;
    SetsAllSign(env, zone, rs, order, keys);
    r := Some(result);
  }

  lemma PickedOneOwner(rs: seq<RR>, n: Name, t: RRType)
    ensures OneOwner(Pick(rs, RRset(n, t)))
    ensures forall i :: 0 <= i < |Pick(rs, RRset(n, t))| ==>
      Pick(rs, RRset(n, t))[i].name == n && Pick(rs, RRset(n, t))[i].rtype == t
  {
    PickMembers(rs, RRset(n, t));
  }

  /** `SignDB`: on success every RRset that is not RRSIG has been signed, in some order. */
  method SignDB(d: DB, ghost rs: seq<RR>, env: Env, keys: seq<SigningKey>, id: nat)
    returns (r: Option<seq<RR>>, ghost order: seq<RRsetKey>)
    requires Indexes(d, rs)
    ensures NoDup(order)
    ensures forall k :: k in order <==> k.1 != RRSIG && Pick(rs, RRset(k.0, k.1)) != []
    ensures r.Some? ==> r.value == SigList(env, d.zone, rs, order, keys, id)
    ensures r.Some? <==> SetsSign(env, d.zone, rs, keys)
  {
    ghost var types;
    var rrsets, ord;
    rrsets, ord, types := GroupRRsets(d);
    order := ord;
    ghost var walked := Flatten(d, types);
    FlattenWalk(d, rs, types);
    GroupOrderNoDup(walked);
    forall k
      ensures k in order <==> k.1 != RRSIG && Pick(rs, RRset(k.0, k.1)) != []
    {
      GroupOrderExact(walked, k);
    }
    hide Pick, Flatten, GroupOrder, SigList, SetsSign;
    SetsSignSame(env, d.zone, walked, rs, keys);
    r := SignGroups(env, d.zone, walked, rrsets, ord, keys, id);
    SigListSame(env, d.zone, walked, rs, order, keys, id);
  }

  /** Walking the type index meets each RRset with its records in list order. */
  lemma FlattenWalk(d: DB, rs: seq<RR>, types: seq<RRType>)
    requires Indexes(d, rs) && IsOrder(d, types)
    ensures forall n, t :: Pick(Flatten(d, types), RRset(n, t)) == Pick(rs, RRset(n, t))
  {
    var walked := Flatten(d, types);
    FlattenSame(d, Index(d.zone, rs), types);
    forall n, t
      ensures Pick(walked, RRset(n, t)) == Pick(rs, RRset(n, t))
    {
      PickFlatten(d.zone, rs, types, t);
      ScanTypeList(walked, n, t);
      ScanTypeList(rs, n, t);
      IndexedOwners(d, rs);
      if t !in types {
        assert t !in Elems(types);
        PickNone(rs, OfType(t));
      }
    }
  }

  lemma {:induction false} SigListSame(env: Env, zone: Name, a: seq<RR>, b: seq<RR>, order: seq<RRsetKey>,
                                       keys: seq<SigningKey>, id: nat)
    requires forall n, t :: Pick(a, RRset(n, t)) == Pick(b, RRset(n, t))
    ensures SigList(env, zone, a, order, keys, id) == SigList(env, zone, b, order, keys, id)
    decreases |order|
  {
    hide SigBlock, Pick, Signers;
    if order != [] {
      SigListSame(env, zone, a, b, order[..|order| - 1], keys, id);
    }
  }

  /** The signatures over (n, t): one per key of the role when the set was signed, otherwise none. */
  ghost predicate SigsOver(sigs: seq<RR>, signed: bool, env: Env, zone: Name, rrset: seq<RR>, keys: seq<SigningKey>,
                           n: Name, t: RRType, at: nat) {
    Pick(sigs, SigOver(n, WireType(t))) ==
    if signed && rrset != [] then SigBlock(env, env.zoneTimes, zone, rrset, Signers(keys, t), at) else []
  }

  /** Exactly one RRSIG per key of the role over an RRset that was signed, none over anything else. */
  lemma {:induction false} SigListExact(env: Env, zone: Name, rs: seq<RR>, order: seq<RRsetKey>, keys: seq<SigningKey>,
                                        id: nat, n: Name, t: RRType) returns (at: nat)
    requires NoDup(order)
    ensures SigsOver(SigList(env, zone, rs, order, keys, id), (n, t) in order, env, zone, Pick(rs, RRset(n, t)), keys, n, t, at)
    decreases |order|
  {
    hide SigsOver, Pick, SigList, NoDup;
    at := 0;
    if order == [] {
      NoSigsYet(env, zone, rs, keys, id, n, t);
    } else {
      var init, k := order[..|order| - 1], order[|order| - 1];
      assert order == init + [k];
      NoDupInit(order);
      at := SigListExact(env, zone, rs, init, keys, id, n, t);
      at := SigListStep(env, zone, rs, init, k, keys, id, n, t, at);
      assert (n, t) in order <==> (n, t) in init || (n, t) == k;
    }
  }

  lemma NoDupInit(order: seq<RRsetKey>)
    requires NoDup(order) && order != []
    ensures NoDup(order[..|order| - 1]) && order[|order| - 1] !in order[..|order| - 1]
  {
  }

  lemma NoSigsYet(env: Env, zone: Name, rs: seq<RR>, keys: seq<SigningKey>, id: nat, n: Name, t: RRType)
    ensures SigsOver(SigList(env, zone, rs, [], keys, id), false, env, zone, Pick(rs, RRset(n, t)), keys, n, t, 0)
  {
    assert SigList(env, zone, rs, [], keys, id) == [];
  }

  lemma SigListStep(env: Env, zone: Name, rs: seq<RR>, init: seq<RRsetKey>, k: RRsetKey, keys: seq<SigningKey>,
                    id: nat, n: Name, t: RRType, before: nat) returns (at: nat)
    requires k !in init
    requires SigsOver(SigList(env, zone, rs, init, keys, id), (n, t) in init, env, zone, Pick(rs, RRset(n, t)), keys, n, t, before)
    ensures SigsOver(SigList(env, zone, rs, init + [k], keys, id), (n, t) in init || (n, t) == k, env, zone,
                     Pick(rs, RRset(n, t)), keys, n, t, at)
  {
    hide SigBlock, Pick, WireType, Signers;
    var sigs, rrset := SigList(env, zone, rs, init, keys, id), Pick(rs, RRset(k.0, k.1));
    assert (init + [k])[..|init|] == init;
    at := before;
    if rrset != [] {
      var block := SigBlock(env, env.zoneTimes, zone, rrset, Signers(keys, k.1), id + |sigs|);
      PickConcat(sigs, block, SigOver(n, WireType(t)));
      PickedOneOwner(rs, k.0, k.1);
      BlockMatches(env, env.zoneTimes, zone, rrset, Signers(keys, k.1), id + |sigs|, n, WireType(t));
      if WireType(k.1) == WireType(t) {
        WireTypeInjective(k.1, t);
      }
      if (n, t) == k {
        at := id + |sigs|;
      }
    }
  }
}
