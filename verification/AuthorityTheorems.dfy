/** For which replies the authority section denies what sections 7.2.2 to 7.2.6 of RFC 5155 have it deny. */
module AuthorityTheorems {
  import opened Bytes
  import opened Names
  import opened Records
  import opened Database
  import opened Resolver
  import opened Nsec3Chain
  import opened Nsec3Proof
  import opened SignedZone
  import opened SignatureTheorems
  import opened Response
  import opened Signing
  import opened ProofSignatures
  import opened DenialTheorems
  import opened Replication
  import opened EndToEnd

  /** What `AppendNegativeAuthority` adds for a DO client of a signed zone. */
  ghost function Negative(rs: seq<RR>, zone: Name): (list: seq<RR>) {
    Pick(rs, RRset(zone, SOA)) + Pick(rs, SigOver(zone, WireType(SOA)))
  }

  /** The authority section of the reply to a DO client. */
  ghost function Authority(served: Content, chain: Option<Chain>, sha: Bytes -> Bytes, q: Name, t: RRType): (auth: seq<RR>)
    requires chain.Some? ==> Hash20(Hasher(sha, chain.value.params))
  {
    var reply := Resolve(served.rs, served.zone, q, t);
    var s := DnssecSections(DBOf(served), served.rs, chain, sha, q, reply.effectiveOwner, WireType(t), reply.rcode,
                            reply.answers, [], true);
    if reply.rcode == NX_DOMAIN || reply.answers == [] then s.authority + Negative(served.rs, served.zone) else s.authority
  }

  /** The methods of the slave, one after the other, write that section. */
  method WriteAuthority(d: DB, ghost served: Content, chain: Option<Chain>, sha: Bytes -> Bytes, q: Name, t: RRType)
    returns (auth: seq<RR>)
    requires d == DBOf(served) && d.dnssecEnabled && (chain.Some? ==> Hash20(Hasher(sha, chain.value.params)))
    ensures auth == Authority(served, chain, sha, q, t)
  {
    assert Indexes(d, served.rs) && d.zone == served.zone;
    RcodeOf(served.rs, served.zone, q, t);
    hide Indexes, Pick, DnssecSections, Resolve, Index, Hasher;
    var reply := LookupRRset(d, served.rs, q, t);
    var s := AppendDNSSEC(d, served.rs, chain, sha, q, reply.effectiveOwner, WireType(t), reply.rcode, reply.answers, [], true);
    SomeAnswers(d, served.rs, chain, sha, q, reply, WireType(t));
    auth := AppendNegativeAuthority(d, served.rs, reply.rcode, s.answers, s.authority, true);
    Assoc(s.authority, Pick(served.rs, RRset(d.zone, SOA)), Pick(served.rs, SigOver(d.zone, WireType(SOA))));
  }

  lemma RcodeOf(rs: seq<RR>, zone: Name, q: Name, t: RRType)
    ensures var reply := Resolve(rs, zone, q, t);
      reply.rcode == NX_DOMAIN || reply.rcode == NO_ERROR
  {
    hide Pick, Owners, WildcardOwner, Addresses, Targets;
  }

  lemma SomeAnswers(d: DB, rs: seq<RR>, chain: Option<Chain>, sha: Bytes -> Bytes, q: Name, reply: Reply, qtype: nat)
    requires chain.Some? ==> Hash20(Hasher(sha, chain.value.params))
    ensures var s := DnssecSections(d, rs, chain, sha, q, reply.effectiveOwner, qtype, reply.rcode, reply.answers, [], true);
      s.answers == [] <==> reply.answers == []
  {
    hide Pick, ProofFor, Hasher, Covered;
  }

  // ----- what has to be denied

  /** A record of the chain that matches the name, among these. */
  ghost predicate Matched(run: Run, n: Name, auth: seq<RR>)
    requires Hash20(run.Hash())
  {
    exists k :: 0 <= k < |run.ns| && run.ns[k] == n && run.ChainRRs()[k] in auth
  }

  /** A record of the chain that covers the name, among these. */
  ghost predicate CoveredBy(run: Run, n: Name, auth: seq<RR>)
    requires Hash20(run.Hash())
  {
    exists r :: r in run.ChainRRs() && r in auth && RecordCovers(r, run.Hash()(n))
  }

  /** NXDOMAIN (section 7.2.2): the closest encloser is matched, its child toward the name and its wildcard covered. */
  ghost predicate DeniesName(run: Run, q: Name, auth: seq<RR>)
    requires Hash20(run.Hash())
  {
    exists ce, p :: IsClosestEncloser(Owners(run.Signed()), run.zone, q, ce) && Below(q, ce) && DeniesAt(Ok(p), run, q, ce) &&
                    p.closestEncloser in auth && p.nextCloser in auth && p.wildcardAtCE in auth
  }

  /**
   What the section has to show, by kind of reply: NXDOMAIN; no data at the name (section 7.2.3); an answer or no data
   from a wildcard (sections 7.2.6 and 7.2.5), for which the child of the wildcard's parent toward the name is covered.
   */
  ghost predicate DeniesWhatItMust(run: Run, q: Name, reply: Reply, auth: seq<RR>)
    requires Hash20(run.Hash())
  {
    var wc := reply.effectiveOwner;
    if reply.rcode == NX_DOMAIN then DeniesName(run, q, auth)
    else if wc == q then reply.answers != [] || Matched(run, q, auth)
    else && 1 <= |wc| <= |q| && CoveredBy(run, q[|q| - |wc|..], auth)
         && (reply.answers == [] ==> Matched(run, wc, auth) && Matched(run, wc[1..], auth))
  }

  // ----- the theorem

  lemma NoChainRecord(run: Run, served: Content, r: RR)
    requires Hash20(run.Hash()) && r in run.ChainRRs()
    ensures r !in Negative(served.rs, served.zone)
  {
    hide Run.ChainRRs, Pick, ChainOwners;
    ChainMember(run, r);
    PickMember(served.rs, RRset(served.zone, SOA), r);
    PickMember(served.rs, SigOver(served.zone, WireType(SOA)), r);
  }

  /** Only NXDOMAIN brings records of the chain. */
  lemma QuietAuthority(run: Run, served: Content, chain: Option<Chain>, sha: Bytes -> Bytes, q: Name, t: RRType, r: RR)
    requires Hash20(run.Hash()) && r in run.ChainRRs() && (chain.Some? ==> Hash20(Hasher(sha, chain.value.params)))
    requires Resolve(served.rs, served.zone, q, t).rcode == NO_ERROR
    ensures r !in Authority(served, chain, sha, q, t)
  {
    NoChainRecord(run, served, r);
    hide Run.ChainRRs, Negative, Resolve, Pick, ProofFor, Hasher, Covered;
  }

  /** The closest encloser of the lookup owned records before signing. */
  ghost predicate EncloserOwns(run: Run, q: Name)
    requires Hash20(run.Hash())
  {
    forall ce :: IsClosestEncloser(Owners(run.Signed()), run.zone, q, ce) ==> ce in Owners(run.rs)
  }

  /**
   Any slave serving a copy of a signed zone, any name and type: the authority section denies what it must if and only if
   the reply is a positive one from the name itself, or NXDOMAIN at a closest encloser that owned records before signing.
   Replies without data, and all that come from a wildcard, go without their denial.
   */
  lemma AuthorityExact(run: Run, served: Content, chain: Option<Chain>, q: Name, t: RRType)
    requires run.Valid() && run.zone in Owners(run.rs) && run.zone != [] && DnssecFree(run.rs)
    requires Injective(run.Hash(), Involved(Owners(run.rs), q)) && AtOrBelow(q, run.zone)
    requires Copy(Output(run), served) && ChainOf(served, chain)
    ensures chain.Some? && Hash20(run.Hash()) && Hash20(Hasher(run.env.sha, chain.value.params))
    ensures var reply := Resolve(served.rs, served.zone, q, t);
      DeniesWhatItMust(run, q, reply, Authority(served, chain, run.env.sha, q, t)) <==>
      if reply.rcode == NX_DOMAIN then EncloserOwns(run, q) else reply.answers != [] && reply.effectiveOwner == q
  {
    hide *;
    HashKnown(run);
    CopyServes(run, served, chain);
    InjectiveOwners(run, q);
    SlaveChainIsMasters(run, DBOf(served), chain.value);
    SameAnswers(run, served, q, t);
    RcodeOf(served.rs, served.zone, q, t);
    if Resolve(served.rs, served.zone, q, t).rcode == NX_DOMAIN {
      Denied(run, served, chain, q, t);
    } else {
      Undenied(run, served, chain, q, t);
    }
  }

  lemma Undenied(run: Run, served: Content, chain: Option<Chain>, q: Name, t: RRType)
    requires Hash20(run.Hash()) && (chain.Some? ==> Hash20(Hasher(run.env.sha, chain.value.params)))
    requires Resolve(served.rs, served.zone, q, t).rcode == NO_ERROR
    ensures var reply := Resolve(served.rs, served.zone, q, t);
      DeniesWhatItMust(run, q, reply, Authority(served, chain, run.env.sha, q, t)) <==>
      reply.answers != [] && reply.effectiveOwner == q
  {
    var auth := Authority(served, chain, run.env.sha, q, t);
    ChainLength(run);
    hide Authority, Resolve, Run.ChainRRs, RecordCovers, Run.Hash, Hasher;
    forall r | r in run.ChainRRs()
      ensures r !in auth
    {
      QuietAuthority(run, served, chain, run.env.sha, q, t, r);
    }
  }

  lemma ChainLength(run: Run)
    requires Hash20(run.Hash())
    ensures |run.ChainRRs()| == |run.ns|
  {
    hide Run.ZoneSigned;
  }

  lemma Denied(run: Run, served: Content, chain: Option<Chain>, q: Name, t: RRType)
    requires run.Valid() && run.zone in Owners(run.rs) && run.zone != [] && DnssecFree(run.rs)
    requires Injective(run.Hash(), Involved(Owners(run.rs), q)) && AtOrBelow(q, run.zone)
    requires Serves(DBOf(served), run) && chain.Some? && IsRebuild(DBOf(served), chain.value) && DBOf(served).dnssecEnabled
    requires Hash20(Hasher(run.env.sha, chain.value.params)) && chain.value.params == DEFAULT_PARAMS
    requires Resolve(run.Signed(), run.zone, q, t) == Resolve(served.rs, served.zone, q, t)
    requires Resolve(served.rs, served.zone, q, t).rcode == NX_DOMAIN
    ensures Hash20(run.Hash())
    ensures DeniesWhatItMust(run, q, Resolve(served.rs, served.zone, q, t), Authority(served, chain, run.env.sha, q, t)) <==>
            EncloserOwns(run, q)
  {
    hide *;
    HashKnown(run);
    BelowApex(run, q, t);
    var ce := DenialExact(run, DBOf(served), chain.value, q, t);
    var auth := Authority(served, chain, run.env.sha, q, t);
    OwnsIs(run, q, ce);
    if ce in Owners(run.rs) {
      InjectiveOwners(run, q);
      ChainDistinct(run);
      var p := DeniedProof(run, DBOf(served), chain.value, q, ce);
      ProofFromChain(run, q, ce, p);
      ShownInFull(run, served, chain, q, t, p);
      assert InProof(p, p.closestEncloser) && InProof(p, p.nextCloser) && InProof(p, p.wildcardAtCE) by { OwnRecords(p); }
      NameDenied(run, q, ce, p, auth);
    }
    if DeniesName(run, q, auth) {
      DeniedOwns(run, q, ce, auth);
    }
    MustDeny(run, q, Resolve(served.rs, served.zone, q, t), auth);
  }

  lemma MustDeny(run: Run, q: Name, reply: Reply, auth: seq<RR>)
    requires Hash20(run.Hash()) && reply.rcode == NX_DOMAIN
    ensures DeniesWhatItMust(run, q, reply, auth) <==> DeniesName(run, q, auth)
  {
    hide DeniesName, CoveredBy, Matched;
  }

  lemma BelowApex(run: Run, q: Name, t: RRType)
    requires run.Valid() && run.zone in Owners(run.rs) && AtOrBelow(q, run.zone)
    requires Resolve(run.Signed(), run.zone, q, t).rcode == NX_DOMAIN
    ensures Below(q, run.zone)
  {
    assert Hash20(run.Hash());
    hide Run.Signed, Run.Valid, Owners, Resolve, ChainOwners;
    SignedOwners(run);
    NxDomainExact(run.Signed(), run.zone, q, t);
    assert |q| == |run.zone| ==> q == run.zone;
  }

  lemma OwnsIs(run: Run, q: Name, ce: Name)
    requires Hash20(run.Hash()) && IsClosestEncloser(Owners(run.Signed()), run.zone, q, ce)
    ensures EncloserOwns(run, q) <==> ce in Owners(run.rs)
  {
    hide Run.Signed, Owners, IsClosestEncloser;
    forall x | IsClosestEncloser(Owners(run.Signed()), run.zone, q, x)
      ensures x == ce
    {
      EncloserSame(Owners(run.Signed()), run.zone, q, x, ce);
    }
  }

  lemma DeniedOwns(run: Run, q: Name, ce: Name, auth: seq<RR>)
    requires run.Valid() && run.zone in Owners(run.rs) && DeniesName(run, q, auth)
    requires IsClosestEncloser(Owners(run.Signed()), run.zone, q, ce)
    ensures ce in Owners(run.rs)
  {
    ChainNames(run);
    hide Run.Signed, Owners, Elems, IsClosestEncloser, DeniesAt, Run.Valid, Run.Hash;
    var x, p :| IsClosestEncloser(Owners(run.Signed()), run.zone, q, x) && Below(q, x) && DeniesAt(Ok(p), run, q, x) &&
                p.closestEncloser in auth && p.nextCloser in auth && p.wildcardAtCE in auth;
    EncloserSame(Owners(run.Signed()), run.zone, q, x, ce);
    DeniesOwner(Ok(p), run, q, x);
  }

  lemma NameDenied(run: Run, q: Name, ce: Name, p: EncloserProof, auth: seq<RR>)
    requires Hash20(run.Hash()) && IsClosestEncloser(Owners(run.Signed()), run.zone, q, ce) && Below(q, ce)
    requires DeniesAt(Ok(p), run, q, ce) && p.closestEncloser in auth && p.nextCloser in auth && p.wildcardAtCE in auth
    ensures DeniesName(run, q, auth)
  {
    hide Run.Signed, Owners, IsClosestEncloser, DeniesAt, Below;
  }

  /** The section holds the whole proof. */
  lemma ShownInFull(run: Run, served: Content, chain: Option<Chain>, q: Name, t: RRType, p: EncloserProof)
    requires Hash20(run.Hash()) && DistinctNames(run.ChainRRs()) && FromChain(run, p)
    requires chain.Some? && Hash20(Hasher(run.env.sha, chain.value.params)) && DBOf(served).dnssecEnabled
    requires ProofFor(chain.value, Hasher(run.env.sha, chain.value.params), q, DBOf(served).zone, DBOf(served)) == Ok(p)
    requires Resolve(served.rs, served.zone, q, t).rcode == NX_DOMAIN
    ensures forall r :: InProof(p, r) ==> r in Authority(served, chain, run.env.sha, q, t)
  {
    ProofListed(run, p);
    hide FromChain, DistinctNames, InProof, Run.ChainRRs;
    NxReply(served.rs, served.zone, q, t);
    ProofShown(DBOf(served), served.rs, chain.value, run.env.sha, q, WireType(t), [], p);
    hide ProofFor, ProofList, ChainSignatures, Hasher, DBOf, Resolve, DnssecSections, Negative;
  }

  lemma NxReply(rs: seq<RR>, zone: Name, q: Name, t: RRType)
    requires Resolve(rs, zone, q, t).rcode == NX_DOMAIN
    ensures var reply := Resolve(rs, zone, q, t);
      reply.answers == [] && reply.effectiveOwner == q
  {
    hide Pick, Owners, WildcardOwner, Addresses, Targets;
  }

  lemma OwnRecords(p: EncloserProof)
    ensures InProof(p, p.closestEncloser) && InProof(p, p.nextCloser) && InProof(p, p.wildcardAtCE)
  {
  }

  // ----- the whole section

  /** The SOA of a negative reply with one signature per key over it. */
  ghost predicate SoaSigned(run: Run, served: Content, at: nat, part: seq<RR>) {
    var soas := Pick(served.rs, RRset(run.zone, SOA));
    part == soas + if soas == [] then [] else SigBlock(run.env, run.env.zoneTimes, run.zone, soas, Signers(run.keys, SOA), at)
  }

  /** The longest owner above the name settles the proof: none if it has a wildcard, else one that denies the name there. */
  ghost predicate ProofPart(run: Run, q: Name, owner: Name, p: Option<EncloserProof>, added: seq<RR>)
    requires Hash20(run.Hash())
  {
    && LongestOwner(Owners(run.rs), run.zone, q, owner) && Below(q, owner)
    && match p
       case None => [STAR] + owner in Owners(run.rs) && added == []
       case Some(proof) =>
         [STAR] + owner !in Owners(run.rs) && DeniesAt(Ok(proof), run, q, owner) && ProofAdded(run, proof, added)
  }

  /**
   The authority section to the last record, for every name and type: nothing with an answer, the signed SOA without one,
   and before it, on NXDOMAIN, the signed records of the proof, if there is one.
   */
  lemma AuthorityWhole(run: Run, served: Content, chain: Option<Chain>, q: Name, t: RRType)
    returns (owner: Name, p: Option<EncloserProof>, added: seq<RR>, soa: seq<RR>, at: nat)
    requires run.Valid() && run.zone in Owners(run.rs) && run.zone != [] && DnssecFree(run.rs)
    requires Injective(run.Hash(), Involved(Owners(run.rs), q)) && AtOrBelow(q, run.zone)
    requires Copy(Output(run), served) && ChainOf(served, chain)
    ensures Hash20(run.Hash()) && chain.Some? && Hash20(Hasher(run.env.sha, chain.value.params))
    ensures SoaSigned(run, served, at, soa)
    ensures var reply := Resolve(served.rs, served.zone, q, t);
      Authority(served, chain, run.env.sha, q, t) ==
      if reply.rcode == NX_DOMAIN then added + soa else if reply.answers == [] then soa else []
    ensures Resolve(served.rs, served.zone, q, t).rcode == NX_DOMAIN ==> ProofPart(run, q, owner, p, added)
  {
    hide *;
    HashKnown(run);
    CopyServes(run, served, chain);
    InjectiveOwners(run, q);
    SlaveChainIsMasters(run, DBOf(served), chain.value);
    SameAnswers(run, served, q, t);
    RcodeOf(served.rs, served.zone, q, t);
    soa := Negative(served.rs, served.zone);
    at := SoaCovered(run, served);
    IndexZone(served);
    owner, p, added := q, None, [];
    if Resolve(served.rs, served.zone, q, t).rcode == NX_DOMAIN {
      owner, p, added := ProofServed(run, served, chain, q, t);
    } else {
      QuietSection(served, chain, run.env.sha, q, t);
    }
  }

  lemma SoaCovered(run: Run, served: Content) returns (at: nat)
    requires run.Valid() && DnssecFree(run.rs) && Injective(run.Hash(), Elems(run.ns)) && Copy(Output(run), served)
    ensures SoaSigned(run, served, at, Negative(served.rs, served.zone))
  {
    hide *;
    HashKnown(run);
    at := EveryRRsetSigned(run, run.zone, SOA);
    ServedSignatures(run, served);
    CopyRRset(Output(run), served, run.zone, SOA);
    CopyFields(Output(run), served);
    OutputIs(run);
    SoaPart(run, served, at);
  }

  lemma SoaPart(run: Run, served: Content, at: nat)
    requires Hash20(run.Hash()) && SignedOnce(run.Signed(), run.env, run.zone, run.keys, run.zone, SOA, at)
    requires Pick(served.rs, SigOver(run.zone, WireType(SOA))) == Pick(run.Signed(), SigOver(run.zone, WireType(SOA)))
    requires Pick(served.rs, RRset(run.zone, SOA)) == Pick(run.Signed(), RRset(run.zone, SOA)) && served.zone == run.zone
    ensures SoaSigned(run, served, at, Negative(served.rs, served.zone))
  {
    hide Pick, Run.Signed, SigBlock, Signers, WireType;
  }

  lemma QuietSection(served: Content, chain: Option<Chain>, sha: Bytes -> Bytes, q: Name, t: RRType)
    requires chain.Some? ==> Hash20(Hasher(sha, chain.value.params))
    requires Resolve(served.rs, served.zone, q, t).rcode == NO_ERROR
    ensures Authority(served, chain, sha, q, t) ==
            if Resolve(served.rs, served.zone, q, t).answers == [] then Negative(served.rs, served.zone) else []
  {
    hide Negative, Resolve, Pick, ProofFor, Hasher, Covered, DBOf;
  }

  /** The part of the section that denies. */
  lemma ProofServed(run: Run, served: Content, chain: Option<Chain>, q: Name, t: RRType)
    returns (owner: Name, p: Option<EncloserProof>, added: seq<RR>)
    requires run.Valid() && run.zone in Owners(run.rs) && run.zone != [] && DnssecFree(run.rs) && Copy(Output(run), served)
    requires Injective(run.Hash(), Involved(Owners(run.rs), q)) && AtOrBelow(q, run.zone) && Injective(run.Hash(), Elems(run.ns))
    requires Serves(DBOf(served), run) && chain.Some? && IsRebuild(DBOf(served), chain.value) && DBOf(served).dnssecEnabled
    requires Hash20(Hasher(run.env.sha, chain.value.params)) && chain.value.params == DEFAULT_PARAMS
    requires Resolve(run.Signed(), run.zone, q, t) == Resolve(served.rs, served.zone, q, t) && DBOf(served).zone == run.zone
    requires Resolve(served.rs, served.zone, q, t).rcode == NX_DOMAIN
    ensures Hash20(run.Hash()) && ProofPart(run, q, owner, p, added)
    ensures Authority(served, chain, run.env.sha, q, t) == added + Negative(served.rs, served.zone)
  {
    hide *;
    HashKnown(run);
    BelowApex(run, q, t);
    var ce := NxDomainFacts(run, q, t);
    owner := LongestAbove(run, q);
    SlaveProof(run, DBOf(served), chain.value, q, owner);
    HashOf(run);
    NxReply(served.rs, served.zone, q, t);
    added := [];
    if [STAR] + owner in Owners(run.rs) {
      p := None;
      PartIs(run, q, owner, p, []);
      UnprovenSection(served, chain, run.env.sha, q, t);
    } else {
      var proof := OkProof(ProofFor(chain.value, run.Hash(), q, run.zone, DBOf(served)), run, q, owner);
      ProofFromChain(run, q, owner, proof);
      ServedSignatures(run, served);
      added := SectionSigned(run, DBOf(served), served.rs, chain.value, q, WireType(t), [], proof);
      p := Some(proof);
      PartIs(run, q, owner, p, added);
      ProvenSection(served, chain, run.env.sha, q, t, added);
    }
  }

  lemma OkProof(r: Result<EncloserProof, ProofError>, run: Run, q: Name, owner: Name) returns (p: EncloserProof)
    requires Hash20(run.Hash()) && Below(q, owner) && DeniesAt(r, run, q, owner)
    ensures r == Ok(p) && DeniesAt(Ok(p), run, q, owner)
  {
    p := r.value;
  }

  lemma PartIs(run: Run, q: Name, owner: Name, p: Option<EncloserProof>, added: seq<RR>)
    requires Hash20(run.Hash()) && LongestOwner(Owners(run.rs), run.zone, q, owner) && Below(q, owner)
    requires p.None? ==> [STAR] + owner in Owners(run.rs) && added == []
    requires p.Some? ==> [STAR] + owner !in Owners(run.rs) && DeniesAt(Ok(p.value), run, q, owner) && ProofAdded(run, p.value, added)
    ensures ProofPart(run, q, owner, p, added)
  {
  }

  lemma LongestAbove(run: Run, q: Name) returns (owner: Name)
    requires Below(q, run.zone) && run.zone in Owners(run.rs) && q !in Owners(run.rs)
    ensures LongestOwner(Owners(run.rs), run.zone, q, owner) && Below(q, owner)
  {
    owner := FindLongestOwner(Owners(run.rs), run.zone, q, 0);
    assert |owner| == |q| ==> owner == q;
  }

  lemma UnprovenSection(served: Content, chain: Option<Chain>, sha: Bytes -> Bytes, q: Name, t: RRType)
    requires chain.Some? && Hash20(Hasher(sha, chain.value.params))
    requires ProofFor(chain.value, Hasher(sha, chain.value.params), q, DBOf(served).zone, DBOf(served)).Err?
    requires var reply := Resolve(served.rs, served.zone, q, t);
      reply.rcode == NX_DOMAIN && reply.answers == [] && reply.effectiveOwner == q
    ensures Authority(served, chain, sha, q, t) == [] + Negative(served.rs, served.zone)
  {
    hide Negative, Resolve, Pick, ProofFor, Hasher, Covered, DBOf;
  }

  lemma ProvenSection(served: Content, chain: Option<Chain>, sha: Bytes -> Bytes, q: Name, t: RRType, added: seq<RR>)
    requires chain.Some? && Hash20(Hasher(sha, chain.value.params))
    requires DnssecSections(DBOf(served), served.rs, chain, sha, q, q, WireType(t), NX_DOMAIN, [], [], true) ==
             Sections([], [] + added, None)
    requires var reply := Resolve(served.rs, served.zone, q, t);
      reply.rcode == NX_DOMAIN && reply.answers == [] && reply.effectiveOwner == q
    ensures Authority(served, chain, sha, q, t) == added + Negative(served.rs, served.zone)
  {
    hide Negative, Resolve, Pick, DnssecSections, Hasher, DBOf;
    assert [] + added == added;
  }
}
