/** What a client reads in the DNSKEY, NSEC3 and NSEC3PARAM records of a signed zone. */
module ServedRecords {
  import opened Bytes
  import opened Names
  import opened Records
  import opened Database
  import opened Base32
  import opened Signing
  import opened Nsec3Chain
  import opened SignedZone
  import opened SignatureTheorems
  import opened ProofSignatures
  import opened Rdata

  // ----- keys

  /** Section 2 of RFC 4034: flags, protocol 3, algorithm and key. */
  ghost predicate ReadsKey(r: RR, zone: Name, key: SigningKey) {
    r.rtype == DNSKEY && r.name == zone &&
    ReadRdata(DNSKEY, Payload(r.opts)) == Some(PublicKey(key.flags % 65536, 3, key.algorithm, key.publicKey))
  }

  lemma KeyReads(zone: Name, keys: seq<SigningKey>, id: nat, i: nat)
    requires i < |keys|
    ensures ReadsKey(DnskeyRRs(zone, keys, id)[i], zone, keys[i])
  {
    var o := DnskeyRRs(zone, keys, id)[i].opts;
    hide Payload, ReadRdata;
    ReadPayload(o);
  }

  /** The keys are published, and every DNSKEY that the zone did not bring itself is one of them. */
  ghost predicate Published(signed: seq<RR>, rs: seq<RR>, zone: Name, keys: seq<SigningKey>) {
    && (forall i :: 0 <= i < |keys| ==> exists r :: r in signed && ReadsKey(r, zone, keys[i]))
    && forall r :: r in signed && r.rtype == DNSKEY && r !in rs ==> exists i :: 0 <= i < |keys| && ReadsKey(r, zone, keys[i])
  }

  lemma KeysServed(run: Run)
    requires run.Valid()
    ensures Hash20(run.Hash()) && Published(run.Signed(), run.rs, run.zone, run.keys)
  {
    hide *;
    HashIs20(run);
    RunTypes(run);
    RunAssembled(run);
    KeyedIs(run);
    FlatIs(run);
    var at := run.alloc + |run.Flat()|;
    var published := DnskeyRRs(run.zone, run.keys, at);
    forall i | 0 <= i < |run.keys|
      ensures ReadsKey(published[i], run.zone, run.keys[i])
    {
      KeyReads(run.zone, run.keys, at, i);
    }
    KeysAmong(run.Flat(), published, run.rs, run.zone, run.keys, run.Sigs(), run.ChainRRs(), run.Param(), run.ChainSigs(),
              run.ParamSigs());
  }

  lemma KeyedIs(run: Run)
    ensures run.Keyed() == run.Flat() + DnskeyRRs(run.zone, run.keys, run.alloc + |run.Flat()|)
  {
    hide Run.Flat, DnskeyRRs;
  }

  lemma FlatIs(run: Run)
    requires run.Valid()
    ensures multiset(run.Flat()) == multiset(run.rs)
  {
    hide Dedup, Flatten, Index, DnskeyRRs, Run.Hash, Hash20, IsOrder, NoDup, Elems, Owners, Run.Keyed, Run.ZoneSigned, Pick;
    FlattenPermutes(run.zone, run.rs, run.types);
  }

  lemma Members(flat: seq<RR>, published: seq<RR>, sigs: seq<RR>, chain: seq<RR>, param: RR, chainSigs: seq<RR>, paramSigs: seq<RR>)
    ensures forall r :: r in Assemble(flat + published, sigs, chain, param, chainSigs, paramSigs) <==>
      r in flat || r in published || r in sigs || r in chain || r == param || r in chainSigs || r in paramSigs
  {
  }

  lemma KeysAmong(flat: seq<RR>, published: seq<RR>, rs: seq<RR>, zone: Name, keys: seq<SigningKey>, sigs: seq<RR>, chain: seq<RR>,
                  param: RR, chainSigs: seq<RR>, paramSigs: seq<RR>)
    requires multiset(flat) == multiset(rs) && param.rtype == NSEC3PARAM && forall r :: r in chain ==> r.rtype == NSEC3
    requires forall r :: r in sigs || r in chainSigs || r in paramSigs ==> r.rtype == RRSIG
    requires |published| == |keys| && forall i :: 0 <= i < |keys| ==> ReadsKey(published[i], zone, keys[i])
    ensures Published(Assemble(flat + published, sigs, chain, param, chainSigs, paramSigs), rs, zone, keys)
  {
    var signed := Assemble(flat + published, sigs, chain, param, chainSigs, paramSigs);
    hide ReadsKey, Assemble;
    Members(flat, published, sigs, chain, param, chainSigs, paramSigs);
    forall i | 0 <= i < |keys|
      ensures exists r :: r in signed && ReadsKey(r, zone, keys[i])
    {
      assert published[i] in signed && ReadsKey(published[i], zone, keys[i]);
    }
    forall r | r in signed && r.rtype == DNSKEY && r !in rs
      ensures exists i :: 0 <= i < |keys| && ReadsKey(r, zone, keys[i])
    {
      MultisetMember(flat, rs, r);
      var i :| 0 <= i < |published| && published[i] == r;
      assert ReadsKey(published[i], zone, keys[i]);
    }
  }

  // ----- the chain

  /** A resolver's hash, from the inside out: the salt goes behind whatever is hashed, `k` times more. */
  function Resalted(sha: Bytes -> Bytes, x: Bytes, salt: Bytes, k: nat): (h: Bytes)
    decreases k
  {
    if k == 0 then sha(x + salt) else Resalted(sha, sha(x + salt), salt, k - 1)
  }

  /** The server's rounds, from the outside in, come to the same. */
  lemma {:induction false} RoundsAre(sha: Bytes -> Bytes, x: Bytes, salt: Bytes, k: nat)
    ensures Rounds(sha, x, salt, k) == Resalted(sha, x, salt, k)
    decreases k
  {
    if k > 0 {
      RoundsAre(sha, sha(x + salt), salt, k - 1);
      RoundsShift(sha, x, salt, k - 1);
    }
  }

  lemma {:induction false} RoundsShift(sha: Bytes -> Bytes, x: Bytes, salt: Bytes, k: nat)
    ensures Rounds(sha, x, salt, k + 1) == Rounds(sha, sha(x + salt), salt, k)
    decreases k
  {
    if k > 0 {
      RoundsShift(sha, x, salt, k - 1);
    }
  }

  /** What a resolver does with the parameters it reads: section 5 of RFC 5155. */
  ghost function HashedAs(sha: Bytes -> Bytes, n: Name, c: Rdata): (h: Bytes)
    requires c.Hashed?
  {
    Resalted(sha, Wire(n), c.salt, c.iterations)
  }

  /**
   Sections 3.1 and 3.2 of RFC 5155: hashing with the salt and the iterations of the record itself, a resolver finds the
   label it stands under and the hash it points to.
   */
  ghost predicate ReadsEntry(r: RR, sha: Bytes -> Bytes, zone: Name, n: Name, next: Name) {
    var c := ReadRdata(NSEC3, Payload(r.opts));
    && r.rtype == NSEC3 && c.Some? && c.value.Hashed? && c.value.hashAlgorithm == 1 && c.value.flags == 0
    && r.name != [] && r.name[1..] == zone && Decode(r.name[0]) == Some(HashedAs(sha, n, c.value))
    && c.value.nextHash == HashedAs(sha, next, c.value)
  }

  /** The record of the parameters tells the same salt and iterations. */
  ghost predicate SameParams(r: RR, param: RR) {
    var c, p := ReadRdata(NSEC3, Payload(r.opts)), ReadRdata(NSEC3PARAM, Payload(param.opts));
    && c.Some? && c.value.Hashed? && param.rtype == NSEC3PARAM
    && p == Some(HashParams(c.value.hashAlgorithm, c.value.flags, c.value.iterations, c.value.salt))
  }

  ghost predicate NoSalt(r: RR) {
    var c := ReadRdata(NSEC3, Payload(r.opts));
    c.Some? && c.value.Hashed? && c.value.hashAlgorithm == 1 && c.value.flags == c.value.iterations == 0 && c.value.salt == []
  }

  lemma EntryReads(sha: Bytes -> Bytes, d: DB, ns: seq<Name>, alloc: nat, i: nat)
    requires Hash20(Hasher(sha, DEFAULT_PARAMS)) && i < |ns|
    ensures var r := RecordAt(d, DEFAULT_PARAMS, Hasher(sha, DEFAULT_PARAMS), ns, alloc, i);
      ReadsEntry(r, sha, d.zone, ns[i], ns[(i + 1) % |ns|]) && r.ttl == SoaTTL(d) && NoSalt(r)
  {
    hide Payload, ReadRdata, SoaTTL, TypesAt, Rounds, Encode, Decode, NameList, TypeNumbers;
    var hash := Hasher(sha, DEFAULT_PARAMS);
    assert hash(ns[i]) == Rounds(sha, Wire(ns[i]), [], 0) && hash(ns[(i + 1) % |ns|]) == Rounds(sha, Wire(ns[(i + 1) % |ns|]), [], 0);
    RoundsAre(sha, Wire(ns[i]), [], 0);
    RoundsAre(sha, Wire(ns[(i + 1) % |ns|]), [], 0);
    NumbersOf(d, ns[i]);
    PayloadReads(alloc + i, d.zone, SoaTTL(d), hash(ns[i]), hash(ns[(i + 1) % |ns|]), TypesAt(NameList(d, ns[i])));
  }

  lemma PayloadReads(id: nat, zone: Name, ttl: nat, owner: Bytes, next: Bytes, types: seq<int>)
    requires |owner| == |next| == 20 && TypeNumbers(types)
    ensures var r := EntryRR(id, zone, ttl, DEFAULT_PARAMS, owner, next, types);
      && ReadRdata(NSEC3, Payload(r.opts)) == Some(Hashed(1, 0, 0, [], next, Elems(types)))
      && r.rtype == NSEC3 && r.ttl == ttl && r.name != [] && r.name[1..] == zone && Decode(r.name[0]) == Some(owner)
  {
    hide ReadRdata, Payload, Encode, Decode, TypeNumbers, Elems, Nsec3Owner;
    RoundTrip(owner);
    OwnerRead(zone, owner);
    EntryContent(next, types);
  }

  lemma EntryContent(next: Bytes, types: seq<int>)
    requires |next| == 20 && TypeNumbers(types)
    ensures ReadRdata(NSEC3, Payload(OptsNSEC3(1, 0, 0, [], next, types))) == Some(Hashed(1, 0, 0, [], next, Elems(types)))
  {
    hide Payload, ReadRdata, TypeNumbers, Elems;
    ReadPayload(OptsNSEC3(1, 0, 0, [], next, types));
  }

  lemma OwnerRead(zone: Name, owner: Bytes)
    requires |owner| == 20
    ensures var n := Nsec3Owner(zone, owner);
      n != [] && n[1..] == zone && n[0] == Encode(owner)
  {
    hide Encode;
  }

  lemma NumbersOf(d: DB, n: Name)
    ensures TypeNumbers(TypesAt(NameList(d, n)))
  {
    TypesAtExact(NameList(d, n));
    WireNumbers(TypesAt(NameList(d, n)), NameList(d, n));
  }

  lemma ParamReads(id: nat, zone: Name, ttl: nat)
    ensures var r := ParamRR(id, zone, ttl, DEFAULT_PARAMS);
      ReadRdata(NSEC3PARAM, Payload(r.opts)) == Some(HashParams(1, 0, 0, []))
  {
    var r := ParamRR(id, zone, ttl, DEFAULT_PARAMS);
    hide Payload, ReadRdata;
    ReadPayload(r.opts);
  }

  lemma ParamTTL(id: nat, zone: Name, ttl: nat)
    ensures ParamRR(id, zone, ttl, DEFAULT_PARAMS).ttl == ttl
  {
  }

  /** The TTL of the SOA, or 300 where there is none. */
  ghost function ZoneTTL(rs: seq<RR>): (ttl: nat) {
    var soas := Pick(rs, OfType(SOA));
    if soas == [] then 300 else soas[0].ttl
  }

  /** Every record of the chain and of its parameters, as a resolver reads it in the served zone. */
  ghost predicate ChainReads(run: Run, i: nat)
    requires Hash20(run.Hash()) && i < |run.ns|
  {
    && |run.ChainRRs()| == |run.ns| && run.ChainRRs()[i] in run.Signed() && run.Param() in run.Signed()
    && ReadsEntry(run.ChainRRs()[i], run.env.sha, run.zone, run.ns[i], run.ns[(i + 1) % |run.ns|])
    && SameParams(run.ChainRRs()[i], run.Param()) && run.Param().name == run.zone
    && run.ChainRRs()[i].ttl == run.Param().ttl == ZoneTTL(run.rs)
  }

  lemma ChainServes(run: Run, i: nat)
    requires run.Valid() && i < |run.ns|
    ensures ChainReads(run, i)
  {
    hide *;
    HashIs20(run);
    HashOf(run);
    ChainIs(run, i);
    EntryReads(run.env.sha, Index(run.zone, run.ZoneSigned()), run.ns, run.alloc + |run.ZoneSigned()|, i);
    ParamReads(run.alloc + |run.ZoneSigned()| + |run.ns|, run.zone, SoaTTL(Index(run.zone, run.ZoneSigned())));
    SoaKept(run);
    ParamTTL(run.alloc + |run.ZoneSigned()| + |run.ns|, run.zone, SoaTTL(Index(run.zone, run.ZoneSigned())));
    ReadTogether(run, i);
  }

  lemma ChainIs(run: Run, i: nat)
    requires Hash20(run.Hash()) && i < |run.ns|
    ensures |run.ChainRRs()| == |run.ns| && Index(run.zone, run.ZoneSigned()).zone == run.zone
    ensures run.ChainRRs()[i] ==
            RecordAt(Index(run.zone, run.ZoneSigned()), DEFAULT_PARAMS, run.Hash(), run.ns, run.alloc + |run.ZoneSigned()|, i)
    ensures run.Param() ==
            ParamRR(run.alloc + |run.ZoneSigned()| + |run.ns|, run.zone, SoaTTL(Index(run.zone, run.ZoneSigned())), DEFAULT_PARAMS)
    ensures run.ChainRRs()[i] in run.Signed() && run.Param() in run.Signed()
  {
    hide RecordAt, ParamRR, Index, SigSingles, SigBlock, Run.ZoneSigned, SoaTTL;
    IndexZoneIs(run);
    assert run.ChainRRs()[i] in run.ChainRRs() && run.Param() in [run.Param()];
    assert run.ChainRRs()[i] in run.Chained() && run.Param() in run.Chained();
  }

  lemma IndexZoneIs(run: Run)
    ensures Index(run.zone, run.ZoneSigned()).zone == run.zone
  {
    OwnersOfIndex(run.zone, run.ZoneSigned());
  }

  lemma SoaKept(run: Run)
    requires run.Valid()
    ensures SoaTTL(Index(run.zone, run.ZoneSigned())) == ZoneTTL(run.rs)
  {
    RunTypes(run);
    forall r | r in run.KeyRRs()
      ensures r.rtype == DNSKEY
    {
      KeyMember(run, r);
    }
    FlattenCount(run.zone, run.rs, run.types, SOA);
    assert Pick(run.Flat(), OfType(SOA)) == Pick(run.rs, OfType(SOA));
    assert run.ZoneSigned() == run.Flat() + run.KeyRRs() + run.Sigs();
    IndexedType(run.zone, run.ZoneSigned(), SOA);
    hide Pick, Run.Flat, Run.KeyRRs, Run.Sigs, Run.ZoneSigned, Index, TypeList, Run.Valid, Run.Hash, Hash20;
    PickConcat(run.Flat() + run.KeyRRs(), run.Sigs(), OfType(SOA));
    PickConcat(run.Flat(), run.KeyRRs(), OfType(SOA));
    PickNone(run.KeyRRs(), OfType(SOA));
    PickNone(run.Sigs(), OfType(SOA));
  }

  lemma ReadTogether(run: Run, i: nat)
    requires Hash20(run.Hash()) && i < |run.ns| && |run.ChainRRs()| == |run.ns|
    requires run.ChainRRs()[i] in run.Signed() && run.Param() in run.Signed()
    requires ReadsEntry(run.ChainRRs()[i], run.env.sha, run.zone, run.ns[i], run.ns[(i + 1) % |run.ns|]) && NoSalt(run.ChainRRs()[i])
    requires ReadRdata(NSEC3PARAM, Payload(run.Param().opts)) == Some(HashParams(1, 0, 0, []))
    requires run.ChainRRs()[i].ttl == run.Param().ttl == ZoneTTL(run.rs)
    ensures ChainReads(run, i)
  {
    hide ReadRdata, Payload, Run.ChainRRs, Run.Signed, ZoneTTL, Run.ZoneSigned, ReadsEntry;
  }
}
