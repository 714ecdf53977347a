/** What a client reads in the RRSIGs it is served: whose key, over what, from when to when, and whether a wildcard answered. */
module SignatureReading {
  import opened Bytes
  import opened Names
  import opened Records
  import opened Database
  import opened Resolver
  import opened SigningBytes
  import opened Signing
  import opened SignedZone
  import opened SignatureTheorems
  import opened ProofSignatures
  import opened Response
  import opened Verifier
  import opened DenialTheorems
  import opened Replication
  import opened EndToEnd
  import opened Nsec3Chain

  /** Section 3.1.3 of RFC 4034: labels of the owner but for the root and a leading `*`. */
  ghost predicate LabelsOf(labels: byte, n: Name) {
    n != [] && |n| < 256 ==> labels as int == if n[0] == STAR then |n| - 1 else |n|
  }

  /** The client reads, field by field and octet by octet, the key, the RRset, the zone and the validity. */
  ghost predicate ReadsAs(s: RR, env: Env, times: Times, zone: Name, rrset: seq<RR>, key: SigningKey)
    requires rrset != []
  {
    var rdata := Payload(s.opts);
    var p := ReadSig(rdata);
    && s.rtype == RRSIG && s.name == rrset[0].name && s.ttl == rrset[0].ttl && s.opts.OptsRRSIG?
    && p.Some? && |rdata| >= 18
    && p.value.typeCovered == WireType(rrset[0].rtype) && p.value.algorithm == key.algorithm
    && LabelsOf(p.value.labels, rrset[0].name) && p.value.origTTL == rrset[0].ttl % 0x1_0000_0000
    && p.value.expiration == times.expiration % 0x1_0000_0000 && GetU32(rdata, 8) == times.expiration % 0x1_0000_0000
    && p.value.inception == times.inception % 0x1_0000_0000 && GetU32(rdata, 12) == times.inception % 0x1_0000_0000
    && p.value.keyTag == key.keyTag % 65536 && p.value.signerName == Text(zone)
    && rdata == p.value.headerRdata + p.value.signature
  }

  /** The signature is the key's, over the fields the client reads and the records of the set. */
  ghost predicate Verifies(s: RR, env: Env, rrset: seq<RR>, key: SigningKey)
    requires rrset != []
  {
    var p := ReadSig(Payload(s.opts));
    p.Some? && Supported(key.algorithm) && env.sign(key, SignedBytes(p.value.headerRdata, rrset)) == Some(p.value.signature)
  }

  /** Every RRSIG that signing an RRset returns. */
  lemma SignatureReads(env: Env, times: Times, zone: Name, rrset: seq<RR>, key: SigningKey, id: nat)
    requires rrset != [] && zone != []
    ensures ReadsAs(SigRR(env, times, zone, rrset, key, id), env, times, zone, rrset, key)
    ensures Signature(env, times, zone, rrset, key).Some? ==> Verifies(SigRR(env, times, zone, rrset, key, id), env, rrset, key)
  {
    hide *;
    var s := SigRR(env, times, zone, rrset, key, id);
    SigOctets(env, times, zone, rrset, key, id);
    SigRoundTrip(s.opts);
    Octets(s.opts);
    Labels(rrset[0].name);
    FieldsAsRead(s, env, times, zone, rrset, key);
    if Signature(env, times, zone, rrset, key).Some? {
      HeaderOf(env, times, zone, rrset, key, id);
      SignedAsRead(s, env, times, zone, rrset, key);
    }
  }

  lemma SigOctets(env: Env, times: Times, zone: Name, rrset: seq<RR>, key: SigningKey, id: nat)
    requires rrset != []
    ensures var s := SigRR(env, times, zone, rrset, key, id);
      && s.opts.OptsRRSIG? && s.opts == SigFields(zone, key, times, rrset[0], s.opts.signature)
      && s.opts.signerName == zone && s.rtype == RRSIG && s.name == rrset[0].name && s.ttl == rrset[0].ttl
      && (Signature(env, times, zone, rrset, key).Some? ==> Signature(env, times, zone, rrset, key) == Some(s.opts.signature))
  {
    hide Signature, WireType;
  }

  lemma FieldsAsRead(s: RR, env: Env, times: Times, zone: Name, rrset: seq<RR>, key: SigningKey)
    requires rrset != [] && s.opts.OptsRRSIG? && s.opts == SigFields(zone, key, times, rrset[0], s.opts.signature)
    requires s.rtype == RRSIG && s.name == rrset[0].name && s.ttl == rrset[0].ttl && LabelsOf(CountLabels(rrset[0].name), rrset[0].name)
    requires |Payload(s.opts)| >= 18 && Payload(s.opts) == SigHeader(s.opts) + s.opts.signature
    requires GetU32(Payload(s.opts), 8) == s.opts.expiration % 0x1_0000_0000
    requires GetU32(Payload(s.opts), 12) == s.opts.inception % 0x1_0000_0000
    requires var o := s.opts;
      ReadSig(Payload(o)) ==
      Some(ParsedSig(o.typeCovered % 65536, o.algorithm, o.labels, o.origTTL % 0x1_0000_0000, o.expiration % 0x1_0000_0000,
                     o.inception % 0x1_0000_0000, o.keyTag % 65536, Text(o.signerName), SigHeader(o), o.signature))
    ensures ReadsAs(s, env, times, zone, rrset, key)
  {
    assert WireType(rrset[0].rtype) % 65536 == WireType(rrset[0].rtype);
    hide Payload, ReadSig, SigHeader, WireType, GetU32, Text, LabelsOf, CountLabels;
  }

  lemma SignedAsRead(s: RR, env: Env, times: Times, zone: Name, rrset: seq<RR>, key: SigningKey)
    requires rrset != [] && s.opts.OptsRRSIG? && Signature(env, times, zone, rrset, key) == Some(s.opts.signature)
    requires SigHeader(s.opts) == SigHeader(SigFields(zone, key, times, rrset[0], []))
    requires ReadSig(Payload(s.opts)).Some? && ReadSig(Payload(s.opts)).value.headerRdata == SigHeader(s.opts)
    requires ReadSig(Payload(s.opts)).value.signature == s.opts.signature
    ensures Verifies(s, env, rrset, key)
  {
    hide Payload, ReadSig, SigHeader, SignedBytes, SigFields;
  }

  lemma HeaderOf(env: Env, times: Times, zone: Name, rrset: seq<RR>, key: SigningKey, id: nat)
    requires rrset != []
    ensures var o := SigRR(env, times, zone, rrset, key, id).opts;
      o.OptsRRSIG? && SigHeader(o) == SigHeader(SigFields(zone, key, times, rrset[0], []))
  {
    hide U16, U32, Wire, Signature, WireType;
  }

  lemma Octets(o: Opts)
    requires o.OptsRRSIG?
    ensures |Payload(o)| >= 18 && Payload(o) == SigHeader(o) + o.signature
    ensures GetU32(Payload(o), 8) == o.expiration % 0x1_0000_0000 && GetU32(Payload(o), 12) == o.inception % 0x1_0000_0000
  {
    assert Payload(o) == SigHeader(o) + o.signature;
    hide SigHeader, Payload, GetU32;
    CutAt(SigHeader(o), o.signature);
    SigFieldsRead(Payload(o), o);
  }

  lemma Labels(n: Name)
    ensures LabelsOf(CountLabels(n), n)
  {
  }

  // ----- every RRSIG of a signed zone

  ghost predicate CoversSome(s: RR, t: RRType) {
    t != RRSIG && s.opts.OptsRRSIG? && s.opts.typeCovered == WireType(t)
  }

  lemma BlockCovers(env: Env, times: Times, zone: Name, rrset: seq<RR>, keys: seq<SigningKey>, id: nat, s: RR)
    requires rrset != [] && s in SigBlock(env, times, zone, rrset, keys, id) && rrset[0].rtype != RRSIG
    ensures CoversSome(s, rrset[0].rtype)
  {
    hide SigRR;
    var block := SigBlock(env, times, zone, rrset, keys, id);
    var j :| 0 <= j < |block| && block[j] == s;
  }

  lemma {:induction false} ListCovers(env: Env, zone: Name, rs: seq<RR>, order: seq<RRsetKey>, keys: seq<SigningKey>, id: nat, s: RR)
    returns (t: RRType)
    requires s in SigList(env, zone, rs, order, keys, id) && forall k :: k in order ==> k.1 != RRSIG
    ensures CoversSome(s, t)
    decreases |order|
  {
    hide SigBlock, Signers, Pick, CoversSome;
    var init, k := order[..|order| - 1], order[|order| - 1];
    assert order == init + [k];
    var before := SigList(env, zone, rs, init, keys, id);
    if s in before {
      t := ListCovers(env, zone, rs, init, keys, id, s);
    } else {
      var rrset := Pick(rs, RRset(k.0, k.1));
      PickedOneOwner(rs, k.0, k.1);
      BlockCovers(env, env.zoneTimes, zone, rrset, Signers(keys, k.1), id + |before|, s);
      t := k.1;
    }
  }

  lemma {:induction false} SinglesCoverType(env: Env, zone: Name, rs: seq<RR>, keys: seq<SigningKey>, id: nat, s: RR)
    requires s in SigSingles(env, zone, rs, keys, id) && forall r :: r in rs ==> r.rtype == NSEC3
    ensures CoversSome(s, NSEC3)
    decreases |rs|
  {
    hide SigBlock, CoversSome;
    var init, last := rs[..|rs| - 1], rs[|rs| - 1];
    assert rs == init + [last];
    var before := SigSingles(env, zone, init, keys, id);
    if s in before {
      SinglesCoverType(env, zone, init, keys, id, s);
    } else {
      BlockCovers(env, env.chainTimes, zone, [last], keys, id + |before|, s);
    }
  }

  lemma PartsCover(env: Env, zone: Name, keys: seq<SigningKey>, order: seq<RRsetKey>, ids: (nat, nat, nat), keyed: seq<RR>,
                   sigs: seq<RR>, chain: seq<RR>, param: RR, chainSigs: seq<RR>, paramSigs: seq<RR>, s: RR)
    returns (t: RRType)
    requires Parts(env, zone, keys, order, ids, keyed, sigs, chain, param, chainSigs, paramSigs)
    requires s in Assemble(keyed, sigs, chain, param, chainSigs, paramSigs) && s.rtype == RRSIG
    ensures CoversSome(s, t)
  {
    hide SigList, SigSingles, SigBlock, Signers, Pick, CoversSome, NoDup, DistinctNames;
    if s in sigs {
      t := ListCovers(env, zone, keyed, order, keys, ids.0, s);
    } else if s in chainSigs {
      SinglesCoverType(env, zone, chain, Signers(keys, NSEC3), ids.1, s);
      t := NSEC3;
    } else {
      assert s in paramSigs;
      BlockCovers(env, env.chainTimes, zone, [param], Signers(keys, NSEC3), ids.2, s);
      t := NSEC3PARAM;
    }
  }

  /** The RRset a pipeline signs has been signed with every key of its role. */
  lemma SetSigns(run: Run, n: Name, t: RRType)
    requires run.Valid() && DnssecFree(run.rs) && Injective(run.Hash(), Elems(run.ns)) && t != RRSIG && run.Signs()
    requires Pick(run.Signed(), RRset(n, t)) != []
    ensures AllSign(run.env, TimesFor(run.env, t), run.zone, Pick(run.Signed(), RRset(n, t)), Signers(run.keys, t))
  {
    var ids := RunParts(run);
    RunAssembled(run);
    hide Pick, Run.Signed, Run.Keyed, Run.Sigs, Run.ChainRRs, Run.Param, Run.ChainSigs, Run.ParamSigs, SigList, SigSingles,
         SigBlock, Signers, Assemble, AllSign, NoDup, Run.Valid, Injective, Elems;
    RRsetSegments(run.env, run.zone, run.keys, run.order, ids, run.Keyed(), run.Sigs(), run.ChainRRs(), run.Param(),
                  run.ChainSigs(), run.ParamSigs(), n, t);
    SegmentSigns(run.env, run.zone, run.keys, run.Keyed(), run.ChainRRs(), run.Param(), n, t);
  }

  lemma SegmentSigns(env: Env, zone: Name, keys: seq<SigningKey>, keyed: seq<RR>, chain: seq<RR>, param: RR, n: Name, t: RRType)
    requires DnssecFree(keyed) && (forall r :: r in chain ==> r.rtype == NSEC3) && DistinctNames(chain) && param.rtype == NSEC3PARAM
    requires SetsSign(env, zone, keyed, keys) && ChainSigns(env, zone, chain, keys) && t != RRSIG
    requires AllSign(env, env.chainTimes, zone, [param], Signers(keys, NSEC3))
    ensures var rrset := Pick(keyed, RRset(n, t)) + Pick(chain, RRset(n, t)) + Pick([param], RRset(n, t));
      rrset != [] ==> AllSign(env, TimesFor(env, t), zone, rrset, Signers(keys, t))
  {
    assert Signers(keys, NSEC3PARAM) == Signers(keys, NSEC3);
    hide Pick, AllSign, Signers, DistinctNames;
    if t != NSEC3 && t != NSEC3PARAM {
      NotOfType(chain, n, t);
      NotOfType([param], n, t);
      Padded(Pick(keyed, RRset(n, t)));
    } else {
      NotOfType(keyed, n, t);
      if t == NSEC3 {
        NotOfType([param], n, t);
        Padded(Pick(chain, RRset(n, t)));
        RecordSigns(env, zone, chain, keys, n);
      } else {
        NotOfType(chain, n, t);
        Padded(Pick([param], RRset(n, t)));
        EmptyPick(RRset(n, t));
        PickAppend([], param, RRset(n, t));
        assert [] + [param] == [param];
      }
    }
  }

  lemma RecordSigns(env: Env, zone: Name, chain: seq<RR>, keys: seq<SigningKey>, n: Name)
    requires DistinctNames(chain) && ChainSigns(env, zone, chain, keys)
    ensures var rrset := Pick(chain, RRset(n, NSEC3));
      rrset != [] ==> AllSign(env, env.chainTimes, zone, rrset, Signers(keys, NSEC3))
  {
    hide Pick, AllSign, Signers, DistinctNames;
    if Pick(chain, RRset(n, NSEC3)) != [] {
      var r := Pick(chain, RRset(n, NSEC3))[0];
      PickMember(chain, RRset(n, NSEC3), r);
      PickedAlone(chain, r);
    }
  }

  /** The client's view of one RRSIG of the zone: the RRset and the key it is for. */
  ghost predicate SignatureOf(run: Run, s: RR, t: RRType, key: SigningKey)
    requires Hash20(run.Hash())
  {
    var rrset := Pick(run.Signed(), RRset(s.name, t));
    && t != RRSIG && rrset != [] && key in Signers(run.keys, t)
    && ReadsAs(s, run.env, TimesFor(run.env, t), run.zone, rrset, key)
    && (run.Signs() ==> Verifies(s, run.env, rrset, key))
  }

  /**
   Every RRSIG of a signed zone, read by a client: it names the type, TTL and labels of an RRset that is served, the tag and
   algorithm of a key of its role, the zone, and the times it is valid from and to; and it is that key's signature.
   */
  lemma EverySignature(run: Run, s: RR) returns (t: RRType, key: SigningKey)
    requires run.Valid() && DnssecFree(run.rs) && Injective(run.Hash(), Elems(run.ns)) && run.zone != []
    requires s in run.Signed() && s.rtype == RRSIG
    ensures SignatureOf(run, s, t, key)
  {
    hide *;
    HashIs20(run);
    t := CoveredBySignature(run, s);
    var at := EveryRRsetSigned(run, s.name, t);
    var j := InBlock(run, s, t, at);
    key := Signers(run.keys, t)[j];
    SignatureReads(run.env, TimesFor(run.env, t), run.zone, Pick(run.Signed(), RRset(s.name, t)), key, at + j);
    if run.Signs() {
      SetSigns(run, s.name, t);
      KeyOf(run.env, TimesFor(run.env, t), run.zone, Pick(run.Signed(), RRset(s.name, t)), Signers(run.keys, t), key);
    }
    SignatureIs(run, s, t, key);
  }

  lemma SignatureIs(run: Run, s: RR, t: RRType, key: SigningKey)
    requires Hash20(run.Hash()) && t != RRSIG && Pick(run.Signed(), RRset(s.name, t)) != [] && key in Signers(run.keys, t)
    requires ReadsAs(s, run.env, TimesFor(run.env, t), run.zone, Pick(run.Signed(), RRset(s.name, t)), key)
    requires run.Signs() ==> Verifies(s, run.env, Pick(run.Signed(), RRset(s.name, t)), key)
    ensures SignatureOf(run, s, t, key)
  {
  }

  lemma KeyOf(env: Env, times: Times, zone: Name, rrset: seq<RR>, keys: seq<SigningKey>, key: SigningKey)
    requires rrset != [] && AllSign(env, times, zone, rrset, keys) && key in keys
    ensures Signature(env, times, zone, rrset, key).Some?
  {
  }

  lemma CoveredBySignature(run: Run, s: RR) returns (t: RRType)
    requires run.Valid() && DnssecFree(run.rs) && Injective(run.Hash(), Elems(run.ns))
    requires s in run.Signed() && s.rtype == RRSIG
    ensures t != RRSIG && s in Pick(run.Signed(), SigOver(s.name, WireType(t)))
  {
    var ids := RunParts(run);
    RunAssembled(run);
    hide Pick, Run.Signed, Run.Keyed, Run.Sigs, Run.ChainRRs, Run.Param, Run.ChainSigs, Run.ParamSigs, Parts, Assemble, WireType,
         Run.Valid, Injective, Elems, DnssecFree;
    t := PartsCover(run.env, run.zone, run.keys, run.order, ids, run.Keyed(), run.Sigs(), run.ChainRRs(), run.Param(),
                    run.ChainSigs(), run.ParamSigs(), s);
    PickMember(run.Signed(), SigOver(s.name, WireType(t)), s);
  }

  lemma InBlock(run: Run, s: RR, t: RRType, at: nat) returns (j: nat)
    requires Hash20(run.Hash()) && SignedOnce(run.Signed(), run.env, run.zone, run.keys, s.name, t, at)
    requires s in Pick(run.Signed(), SigOver(s.name, WireType(t)))
    ensures var rrset := Pick(run.Signed(), RRset(s.name, t));
      rrset != [] && j < |Signers(run.keys, t)| &&
      s == SigRR(run.env, TimesFor(run.env, t), run.zone, rrset, Signers(run.keys, t)[j], at + j)
  {
    hide Pick, Run.Signed, SigRR, Signers, WireType;
    var block := Pick(run.Signed(), SigOver(s.name, WireType(t)));
    var k :| 0 <= k < |block| && block[k] == s;
    j := k;
  }

  // ----- wildcards

  /** An answer comes from the name itself or from a wildcard no longer than it. */
  lemma AnswerOwner(rs: seq<RR>, zone: Name, q: Name, t: RRType)
    requires Resolve(rs, zone, q, t).answers != []
    ensures var owner := Resolve(rs, zone, q, t).effectiveOwner;
      if q in Owners(rs) then owner == q else owner != [] && owner[0] == STAR && |owner| <= |q|
  {
    hide Owners, Pick, Addresses, Targets, ClosestEncloser;
    if q !in Owners(rs) && ClosestEncloser(Owners(rs), zone, q).Some? {
      EncloserUpToSpec(Owners(rs), q, Floor(zone, q), |q| - 1);
      assert ClosestEncloser(Owners(rs), zone, q) == EncloserUpTo(Owners(rs), q, Floor(zone, q), |q| - 1) by { EncloserIs(Owners(rs), zone, q); }
    }
  }

  lemma EncloserIs(owners: set<Name>, zone: Name, q: Name)
    ensures ClosestEncloser(owners, zone, q) == EncloserUpTo(owners, q, Floor(zone, q), |q| - 1)
  {
  }

  /** What `labels` tells of an answer to `q`: fewer than `q` has means a wildcard. */
  ghost predicate MarksExpansion(s: RR, q: Name, owner: Name) {
    var p := ReadSig(Payload(s.opts));
    p.Some? && owner != [] && (p.value.labels as int < |q| <==> owner[0] == STAR)
  }

  /** Every signature tells, and for a name without a leading `*` it tells whether the name itself was there. */
  ghost predicate AnswerMarked(rs: seq<RR>, q: Name, owner: Name, sigs: seq<RR>) {
    && owner != [] && q != [] && (q[0] != STAR ==> (owner[0] == STAR <==> q !in Owners(rs)))
    && forall s :: s in sigs ==> MarksExpansion(s, q, owner)
  }

  /**
   Any slave serving a copy of a signed zone: in the RRSIGs behind a positive answer, and in no others, the client reads
   fewer labels than it asked for exactly when a wildcard gave the answer.
   */
  lemma ExpansionMarked(run: Run, served: Content, chain: Option<Chain>, q: Name, t: RRType, authority: seq<RR>)
    returns (sigs: seq<RR>)
    requires run.Valid() && DnssecFree(run.rs) && Injective(run.Hash(), Elems(run.ns)) && t != RRSIG && run.zone != []
    requires Copy(Output(run), served) && ChainOf(served, chain) && 0 < |q| < 256
    requires Resolve(served.rs, served.zone, q, t).answers != []
    ensures chain.Some? && Hash20(Hasher(run.env.sha, chain.value.params))
    ensures var reply := Resolve(served.rs, served.zone, q, t);
      && DnssecSections(DBOf(served), served.rs, chain, run.env.sha, q, reply.effectiveOwner, WireType(t), reply.rcode,
                        reply.answers, authority, true) == Sections(reply.answers + sigs, authority, None)
      && AnswerMarked(served.rs, q, reply.effectiveOwner, sigs)
  {
    hide *;
    var a, at := ServedAnswer(run, served, chain, q, t, authority);
    var owner := Resolve(served.rs, served.zone, q, t).effectiveOwner;
    var rrset := Pick(served.rs, RRset(owner, a));
    assert rrset != [];
    sigs := SigBlock(run.env, TimesFor(run.env, a), run.zone, rrset, Signers(run.keys, a), at);
    AnswerOwner(served.rs, served.zone, q, t);
    assert rrset[0].name == owner by { FirstOwner(served.rs, owner, a); }
    AllMarked(run.env, TimesFor(run.env, a), run.zone, rrset, Signers(run.keys, a), at, q);
    MarkedAnswer(served.rs, q, owner, sigs);
  }

  lemma MarkedAnswer(rs: seq<RR>, q: Name, owner: Name, sigs: seq<RR>)
    requires q != [] && (if q in Owners(rs) then owner == q else owner != [] && owner[0] == STAR && |owner| <= |q|)
    requires forall s :: s in sigs ==> MarksExpansion(s, q, owner)
    ensures AnswerMarked(rs, q, owner, sigs)
  {
    hide Owners, MarksExpansion;
  }

  lemma FirstOwner(rs: seq<RR>, n: Name, t: RRType)
    ensures Pick(rs, RRset(n, t)) != [] ==> Pick(rs, RRset(n, t))[0].name == n
  {
    PickedOneOwner(rs, n, t);
    hide Pick;
  }

  lemma AllMarked(env: Env, times: Times, zone: Name, rrset: seq<RR>, keys: seq<SigningKey>, id: nat, q: Name)
    requires rrset != [] && zone != [] && 0 < |q| < 256
    requires var owner := rrset[0].name; owner == q || (owner != [] && owner[0] == STAR && |owner| <= |q|)
    ensures forall s :: s in SigBlock(env, times, zone, rrset, keys, id) ==> MarksExpansion(s, q, rrset[0].name)
  {
    hide SigBlock, MarksExpansion;
    forall s | s in SigBlock(env, times, zone, rrset, keys, id)
      ensures MarksExpansion(s, q, rrset[0].name)
    {
      MarkedBy(env, times, zone, rrset, keys, id, s, q);
    }
  }

  lemma MarkedBy(env: Env, times: Times, zone: Name, rrset: seq<RR>, keys: seq<SigningKey>, id: nat, s: RR, q: Name)
    requires rrset != [] && s in SigBlock(env, times, zone, rrset, keys, id) && zone != [] && 0 < |q| < 256
    requires var owner := rrset[0].name; owner == q || (owner != [] && owner[0] == STAR && |owner| <= |q|)
    ensures MarksExpansion(s, q, rrset[0].name)
  {
    hide SigRR, Payload, ReadSig, WireType, Text, GetU32;
    var block := SigBlock(env, times, zone, rrset, keys, id);
    var j :| 0 <= j < |block| && block[j] == s;
    SignatureReads(env, times, zone, rrset, keys[j], id + j);
  }
}
