/** Lookup and denial proof agree on the closest encloser; answers and proofs are signed. */
module DenialTheorems {
  import opened Bytes
  import opened Names
  import opened Records
  import opened Database
  import opened Resolver
  import opened Sorting
  import opened Signing
  import opened Nsec3Chain
  import opened Nsec3Proof
  import opened SignedZone
  import opened SigningTheorems
  import opened SignatureTheorems
  import opened Response
  import opened ProofSignatures

  // ----- signatures on answers

  /** Positive replies are a whole RRset of the effective owner, renamed for a wildcard. */
  lemma PositiveReply(rs: seq<RR>, zone: Name, q: Name, t: RRType) returns (a: RRType)
    requires Resolve(rs, zone, q, t).answers != [] && t != RRSIG
    ensures var reply := Resolve(rs, zone, q, t);
      && (a == t || a == CNAME) && reply.rcode == NO_ERROR
      && (var rrset := Pick(rs, RRset(reply.effectiveOwner, a));
          rrset != [] && (reply.answers == rrset || reply.answers == Synthesise(rrset, q)))
      && Covered(reply.answers, WireType(t)) == WireType(a)
  {
    var reply := Resolve(rs, zone, q, t);
    hide WildcardOwner, Owners, Addresses, Targets, Pick;
    var owner := reply.effectiveOwner;
    a := if Pick(rs, RRset(owner, t)) != [] then t else CNAME;
    PickMember(rs, RRset(owner, a), Pick(rs, RRset(owner, a))[0]);
    assert reply.answers[0].rtype == a;
  }

  /** A positive answer to a DO query carries one signature per key of the answered type's role, over that RRset. */
  lemma AnswersSigned(run: Run, q: Name, t: RRType) returns (a: RRType, at: nat)
    requires run.Valid() && DnssecFree(run.rs) && Injective(run.Hash(), Elems(run.ns)) && t != RRSIG
    requires Resolve(run.Signed(), run.zone, q, t).answers != []
    ensures var reply := Resolve(run.Signed(), run.zone, q, t);
      var rrset := Pick(run.Signed(), RRset(reply.effectiveOwner, a));
      && (a == t || a == CNAME) && reply.rcode == NO_ERROR
      && rrset != [] && (reply.answers == rrset || reply.answers == Synthesise(rrset, q))
      && Pick(run.Signed(), SigOver(reply.effectiveOwner, Covered(reply.answers, WireType(t)))) ==
         SigBlock(run.env, TimesFor(run.env, a), run.zone, rrset, Signers(run.keys, a), at)
  {
    hide Run.Signed, Resolve, Pick, SigBlock, Signers, WireType, Covered;
    var signed := run.Signed();
    a := PositiveReply(signed, run.zone, q, t);
    at := EveryRRsetSigned(run, Resolve(signed, run.zone, q, t).effectiveOwner, a);
  }

  // ----- the chain a slave rebuilds from the signed zone

  lemma {:induction false} OfTypeSegment(rs: seq<RR>, t: RRType)
    ensures (forall r :: r in rs ==> r.rtype == t) ==> Pick(rs, OfType(t)) == rs
    ensures (forall r :: r in rs ==> r.rtype != t) ==> Pick(rs, OfType(t)) == []
  {
    if forall r :: r in rs ==> r.rtype == t {
      PickAll(rs, OfType(t));
    }
    if forall r :: r in rs ==> r.rtype != t {
      PickNone(rs, OfType(t));
    }
  }

  lemma ChainServed(run: Run)
    requires run.Valid() && DnssecFree(run.rs)
    ensures Pick(run.Signed(), OfType(NSEC3)) == run.ChainRRs()
    ensures Pick(run.Signed(), OfType(NSEC3PARAM)) == [run.Param()]
  {
    RunTypes(run);
    KeyedFree(run);
    RunAssembled(run);
    var keyed, sigs, chain, param, chainSigs, paramSigs :=
      run.Keyed(), run.Sigs(), run.ChainRRs(), run.Param(), run.ChainSigs(), run.ParamSigs();
    hide Run.Signed, Run.Keyed, Run.Sigs, Run.ChainRRs, Run.Param, Run.ChainSigs, Run.ParamSigs, Run.Valid;
    ServedByType(keyed, sigs, chain, param, chainSigs, paramSigs);
  }

  lemma ServedByType(keyed: seq<RR>, sigs: seq<RR>, chain: seq<RR>, param: RR, chainSigs: seq<RR>, paramSigs: seq<RR>)
    requires DnssecFree(keyed) && (forall r :: r in chain ==> r.rtype == NSEC3) && param.rtype == NSEC3PARAM
    requires forall r :: r in sigs || r in chainSigs || r in paramSigs ==> r.rtype == RRSIG
    ensures var signed := Assemble(keyed, sigs, chain, param, chainSigs, paramSigs);
      Pick(signed, OfType(NSEC3)) == chain && Pick(signed, OfType(NSEC3PARAM)) == [param]
  {
    hide Pick, Assemble;
    PickSegments(keyed, sigs, chain, param, chainSigs, paramSigs, OfType(NSEC3));
    PickSegments(keyed, sigs, chain, param, chainSigs, paramSigs, OfType(NSEC3PARAM));
    OfTypeSegment(keyed, NSEC3);
    OfTypeSegment(sigs, NSEC3);
    OfTypeSegment(chain, NSEC3);
    OfTypeSegment([param], NSEC3);
    OfTypeSegment(chainSigs, NSEC3);
    OfTypeSegment(paramSigs, NSEC3);
    OfTypeSegment(keyed, NSEC3PARAM);
    OfTypeSegment(sigs, NSEC3PARAM);
    OfTypeSegment(chain, NSEC3PARAM);
    OfTypeSegment([param], NSEC3PARAM);
    OfTypeSegment(chainSigs, NSEC3PARAM);
    OfTypeSegment(paramSigs, NSEC3PARAM);
  }

  /** The database `BuildNSEC3Chain` was given, and the first address it used. */
  ghost function Source(run: Run): (d: DB) { Index(run.zone, run.ZoneSigned()) }

  ghost function SourceAlloc(run: Run): (id: nat) { run.alloc + |run.ZoneSigned()| }

  /** `e` serves the signed zone: its type index is that of the signed list, as it is after any push or poll. */
  ghost predicate Serves(e: DB, run: Run)
    requires Hash20(run.Hash())
  {
    e.zone == run.zone && e.byType == Index(run.zone, run.Signed()).byType
  }

  lemma SourceOf(run: Run)
    requires Hash20(run.Hash())
    ensures Source(run).zone == run.zone
    ensures run.ChainRRs() == ChainRecords(Source(run), DEFAULT_PARAMS, run.Hash(), run.ns, SourceAlloc(run))
  {
    hide ChainRecords, Run.ZoneSigned;
  }

  lemma ChainStrict(run: Run)
    requires run.Valid() && Injective(run.Hash(), Elems(run.ns))
    ensures Hash20(run.Hash()) && StrictBy(run.Hash(), run.ns)
  {
    hide Run.Hash, Index, Run.Keyed, Run.ZoneSigned, IsOrder, Pick;
    HashesDistinct(run.Hash(), run.ns);
  }

  lemma ServedLists(run: Run, e: DB)
    requires run.Valid() && DnssecFree(run.rs) && Serves(e, run)
    ensures TypeList(e, NSEC3) == run.ChainRRs() && TypeList(e, NSEC3PARAM) == [run.Param()]
  {
    ChainServed(run);
    hide Run.Signed, Run.ChainRRs, Run.Param, Run.Valid, Pick;
    IndexedType(run.zone, run.Signed(), NSEC3);
    IndexedType(run.zone, run.Signed(), NSEC3PARAM);
  }

  lemma ServedRebuilds(run: Run, e: DB)
    requires Hash20(run.Hash()) && TypeList(e, NSEC3) == run.ChainRRs() && TypeList(e, NSEC3PARAM) == [run.Param()]
    ensures Rebuildable(e) && ParamsIn(e) == DEFAULT_PARAMS
  {
    hide Run.ChainRRs, Run.ZoneSigned, TypeList, SoaTTL;
    forall r | r in run.ChainRRs()
      ensures r.opts.OptsNSEC3?
    {
      ChainMember(run, r);
    }
  }

  /** A slave that rebuilds the chain from the signed zone gets the chain the master built. */
  lemma SlaveChainIsMasters(run: Run, e: DB, c: Chain)
    requires run.Valid() && DnssecFree(run.rs) && Injective(run.Hash(), Elems(run.ns)) && Serves(e, run) && IsRebuild(e, c)
    ensures Rebuildable(e)
    ensures TypeList(e, NSEC3) == run.ChainRRs()
    ensures c == Chain(DEFAULT_PARAMS, run.ChainRRs(), ByHash(run.ChainRRs()))
  {
    ServedLists(run, e);
    ServedRebuilds(run, e);
    ChainStrict(run);
    hide *;
    SourceOf(run);
    RebuildIsBuild(Source(run), DEFAULT_PARAMS, run.Hash(), run.ns, SourceAlloc(run), e, c);
  }

  // ----- denial

  /** Every in-zone owner has all its ancestors down to the apex among the owners: no empty non-terminals. */
  ghost predicate AncestorClosed(owners: set<Name>, zone: Name) {
    forall n, p :: n in owners && Below(n, p) && AtOrBelow(p, zone) ==> p in owners
  }

  lemma NxDomainFacts(run: Run, q: Name, t: RRType) returns (ce: Name)
    requires run.Valid() && run.zone in Owners(run.rs) && Below(q, run.zone)
    requires Resolve(run.Signed(), run.zone, q, t).rcode == NX_DOMAIN
    ensures q !in Owners(run.rs) && IsClosestEncloser(Owners(run.Signed()), run.zone, q, ce)
    ensures Owners(run.rs) <= Owners(run.Signed()) && [STAR] + ce !in Owners(run.rs)
  {
    assert Hash20(run.Hash());
    hide Run.Signed, ChainOwners, Resolve, Run.Valid, Owners, IsClosestEncloser;
    SignedOwners(run);
    NxDomainExact(run.Signed(), run.zone, q, t);
    ce := SomeEncloser(Owners(run.Signed()), run.zone, q);
  }

  /** Below an apex that owns records there is always a closest encloser. */
  lemma SomeEncloser(owners: set<Name>, zone: Name, q: Name) returns (ce: Name)
    requires zone in owners && Below(q, zone)
    ensures IsClosestEncloser(owners, zone, q, ce)
  {
    EncloserUpToSpec(owners, q, Floor(zone, q), |q| - 1);
    assert NodeExists(owners, zone);
    ce := ClosestEncloser(owners, zone, q).value;
    ClosestEncloserSpec(owners, zone, q, ce);
  }

  lemma {:induction false} FindLongestOwner(owners: set<Name>, zone: Name, q: Name, i: nat) returns (ce: Name)
    requires AtOrBelow(q, zone) && zone in owners && i <= |q| - |zone|
    requires forall j :: 0 <= j < i ==> q[j..] !in owners
    ensures LongestOwner(owners, zone, q, ce)
    decreases |q| - i
  {
    if q[i..] in owners {
      ce := q[i..];
      assert q[|q| - |ce|..] == ce;
    } else {
      assert i < |q| - |zone| by { assert q[|q| - |zone|..] == zone; }
      ce := FindLongestOwner(owners, zone, q, i + 1);
    }
  }

  lemma LongestIsEncloser(owners: set<Name>, all: set<Name>, zone: Name, q: Name, ce: Name)
    requires owners <= all && q !in owners && Below(q, zone) && IsClosestEncloser(all, zone, q, ce) && ce in owners
    ensures LongestOwner(owners, zone, q, ce)
  {
    forall i | 0 <= i < |q| - |ce|
      ensures q[i..] !in owners
    {
      if i > 0 {
        assert Below(q, q[i..]) by { assert q[|q| - |q[i..]|..] == q[i..]; }
      }
    }
  }

  lemma EncloserUnique(owners: set<Name>, zone: Name, q: Name, a: Name, b: Name)
    requires LongestOwner(owners, zone, q, a) && LongestOwner(owners, zone, q, b)
    ensures a == b
  {
    assert a == q[|q| - |a|..] && b == q[|q| - |b|..];
  }

  /** `r` is a proof with the closest encloser the lookup found, its child toward the name, and its wildcard. */
  ghost predicate DeniesAt(r: Result<EncloserProof, ProofError>, run: Run, q: Name, ce: Name)
    requires Hash20(run.Hash()) && Below(q, ce)
  {
    r.Ok? && Proves(r.value, Source(run), DEFAULT_PARAMS, run.Hash(), run.ns, SourceAlloc(run), ce, q[|q| - |ce| - 1..])
  }

  /** The proof a slave gives on the chain it rebuilt, relative to the longest owner above the name. */
  lemma SlaveProof(run: Run, e: DB, c: Chain, q: Name, owner: Name)
    requires run.Valid() && run.zone in Owners(run.rs) && run.zone != [] && DnssecFree(run.rs)
    requires Injective(run.Hash(), Involved(Owners(run.rs), q))
    requires Serves(e, run) && IsRebuild(e, c)
    requires Below(q, run.zone) && q !in Owners(run.rs) && LongestOwner(Owners(run.rs), run.zone, q, owner)
    ensures var r := ProofFor(c, run.Hash(), q, run.zone, e);
      if [STAR] + owner in Owners(run.rs) then r == Err(NoWildcard) else DeniesAt(r, run, q, owner)
  {
    ChainNames(run);
    InjectivePart(run.Hash(), Involved(Owners(run.rs), q), Owners(run.rs));
    hide Injective, Run.ChainRRs, Run.Signed, Run.Valid, ChainRecords, ByHash, Resolve, ProofFor, Involved,
         ChainOwners, StrictBy, TypeList, Hasher, Run.Hash, NoDup, Serves, IsRebuild, Rebuildable, LongestOwner,
         Proves, Run.ZoneSigned, Run.Keyed, SortedBy, Owners, Elems, Source, SourceAlloc, Pick;
    SlaveChainIsMasters(run, e, c);
    ChainStrict(run);
    SourceOf(run);
    assert multiset(TypeList(e, NSEC3)) == multiset(ChainRecords(Source(run), DEFAULT_PARAMS, run.Hash(), run.ns, SourceAlloc(run)));
    ProofExact(Source(run), DEFAULT_PARAMS, run.Hash(), run.ns, SourceAlloc(run), e, q, owner);
  }

  /** A proof matches its closest encloser's hash, so it shows one name only. */
  lemma DeniesOwner(r: Result<EncloserProof, ProofError>, run: Run, q: Name, ce: Name)
    requires Hash20(run.Hash()) && Below(q, ce) && DeniesAt(r, run, q, ce)
    ensures ce in Elems(run.ns)
  {
    hide ChainRecords;
  }

  /**
   The exact condition, for every name below the apex that is answered NXDOMAIN: the proof denies it at the closest
   encloser the lookup used if and only if that encloser owned records before signing. It did not if it is an empty
   non-terminal, or an owner of the chain.
   */
  lemma DenialExact(run: Run, e: DB, c: Chain, q: Name, t: RRType) returns (ce: Name)
    requires run.Valid() && run.zone in Owners(run.rs) && run.zone != [] && DnssecFree(run.rs)
    requires Injective(run.Hash(), Involved(Owners(run.rs), q))
    requires Serves(e, run) && IsRebuild(e, c) && Below(q, run.zone)
    requires Resolve(run.Signed(), run.zone, q, t).rcode == NX_DOMAIN
    ensures Below(q, ce) && IsClosestEncloser(Owners(run.Signed()), run.zone, q, ce)
    ensures DeniesAt(ProofFor(c, run.Hash(), q, run.zone, e), run, q, ce) <==> ce in Owners(run.rs)
  {
    ce := NxDomainFacts(run, q, t);
    ChainNames(run);
    assert Below(q, ce);
    hide Injective, Run.Signed, Resolve, ProofFor, Involved, Serves, IsRebuild, DeniesAt, Owners, Elems, Run.Valid,
         IsClosestEncloser, DnssecFree, Run.Hash;
    var owner := FindLongestOwner(Owners(run.rs), run.zone, q, 0);
    SlaveProof(run, e, c, q, owner);
    var r := ProofFor(c, run.Hash(), q, run.zone, e);
    if ce in Owners(run.rs) {
      LongestIsEncloser(Owners(run.rs), Owners(run.Signed()), run.zone, q, ce);
      EncloserUnique(Owners(run.rs), run.zone, q, ce, owner);
    }
    if DeniesAt(r, run, q, ce) {
      DeniesOwner(r, run, q, ce);
    }
  }

  /** An owner of the chain above the name that the zone itself does not have. */
  ghost predicate UnderNewOwner(run: Run, q: Name)
    requires Hash20(run.Hash())
  {
    exists h :: h in ChainOwners(run) && Below(q, h) && h !in Owners(run.rs)
  }

  lemma ClosedEncloser(owners: set<Name>, extra: set<Name>, zone: Name, q: Name, ce: Name)
    requires AncestorClosed(owners, zone) && zone in owners && HashNames(zone, extra)
    requires Below(q, zone) && IsClosestEncloser(owners + extra, zone, q, ce)
    ensures ce in owners <==> forall h :: h in extra && Below(q, h) ==> h in owners
  {
    AncestorsNest(q, zone, ce);
    forall h | h in extra && Below(q, h) && h !in owners
      ensures ce !in owners
    {
      assert NodeExists(owners + extra, h);
      assert |h| <= |ce|;
      AncestorsNest(q, h, ce);
      assert AtOrBelow(h, zone) && (ce == h || Below(ce, h));
    }
    forall k | k in owners + extra && Below(k, ce)
      ensures ce in owners
    {
      if k in extra {
        AncestorsNest(k, ce, zone);
      }
    }
  }

  /** In a zone without empty non-terminals, the names that miss their proof are those below a new owner of the chain. */
  lemma ClosedDenial(run: Run, e: DB, c: Chain, q: Name, t: RRType) returns (ce: Name)
    requires run.Valid() && run.zone in Owners(run.rs) && run.zone != [] && DnssecFree(run.rs)
    requires Injective(run.Hash(), Involved(Owners(run.rs), q)) && AncestorClosed(Owners(run.rs), run.zone)
    requires Serves(e, run) && IsRebuild(e, c) && Below(q, run.zone)
    requires Resolve(run.Signed(), run.zone, q, t).rcode == NX_DOMAIN
    ensures Below(q, ce) && IsClosestEncloser(Owners(run.Signed()), run.zone, q, ce)
    ensures DeniesAt(ProofFor(c, run.Hash(), q, run.zone, e), run, q, ce) <==> !UnderNewOwner(run, q)
  {
    assert Hash20(run.Hash());
    hide Run.Signed, ProofFor, Resolve, Involved, Hasher, DeniesAt, Injective, Serves, IsRebuild, AncestorClosed, Run.Valid,
         Owners, ChainOwners, HashNames, IsClosestEncloser, DnssecFree;
    ce := DenialExact(run, e, c, q, t);
    SignedOwners(run);
    ChainOwnersAreHashNames(run);
    ClosedEncloser(Owners(run.rs), ChainOwners(run), run.zone, q, ce);
  }

  /** Lookup and denial proof agree: every other NXDOMAIN of such a zone gets its proof, at the lookup's encloser. */
  lemma DenialComplete(run: Run, e: DB, c: Chain, q: Name, t: RRType) returns (ce: Name)
    requires run.Valid() && run.zone in Owners(run.rs) && run.zone != [] && DnssecFree(run.rs)
    requires Injective(run.Hash(), Involved(Owners(run.rs), q)) && AncestorClosed(Owners(run.rs), run.zone)
    requires Serves(e, run) && IsRebuild(e, c) && Below(q, run.zone) && !UnderNewOwner(run, q)
    requires Resolve(run.Signed(), run.zone, q, t).rcode == NX_DOMAIN
    ensures Below(q, ce) && IsClosestEncloser(Owners(run.Signed()), run.zone, q, ce)
    ensures DeniesAt(ProofFor(c, run.Hash(), q, run.zone, e), run, q, ce)
  {
    ce := ClosedDenial(run, e, c, q, t);
  }

  /**
   Below an owner of the chain where the zone has nothing: the lookup says NXDOMAIN and takes that owner for the closest
   encloser, and no three records of the chain, let alone the ones chosen, deny the name there.
   */
  lemma ChainOwnerDefeatsProof(run: Run, q: Name, h: Name, t: RRType, r: Result<EncloserProof, ProofError>)
    requires run.Valid() && run.zone in Owners(run.rs)
    requires h in ChainOwners(run) && Below(q, h) && !NodeExists(Owners(run.rs), h)
    ensures Resolve(run.Signed(), run.zone, q, t).rcode == NX_DOMAIN
    ensures IsClosestEncloser(Owners(run.Signed()), run.zone, q, h)
    ensures !DeniesAt(r, run, q, h)
  {
    assert Hash20(run.Hash());
    hide Run.Signed, Resolve, Run.Hash, DeniesAt, Run.Valid, Owners, ChainOwners, HashNames, IsClosestEncloser,
         WildcardOwner, NodeExists, Elems;
    ChainOwnersAreHashNames(run);
    SignedOwners(run);
    ShadowedBelow(Owners(run.rs), ChainOwners(run), run.zone, q, h);
    NoWildcardDenies(run.Signed(), run.zone, q, t);
    ChainNames(run);
    if DeniesAt(r, run, q, h) {
      DeniesOwner(r, run, q, h);
      assert false;
    }
  }

  lemma ShadowedBelow(owners: set<Name>, extra: set<Name>, zone: Name, q: Name, h: Name)
    requires zone in owners && HashNames(zone, extra) && h in extra && Below(q, h) && !NodeExists(owners, h)
    ensures Below(q, zone) && q !in owners + extra && h !in owners
    ensures IsClosestEncloser(owners + extra, zone, q, h) && WildcardOwner(owners + extra, zone, q) == None
  {
    BelowTrans(q, h, zone);
    forall p | Below(q, p) && |h| < |p|
      ensures !NodeExists(owners, p) && !NodeExists(owners + extra, p)
    {
      NodesAbove(owners, extra, zone, q, h, p);
      NothingDeeper(owners, q, h, p);
    }
    OnlyApexShorter(owners, extra, zone, q, h);
    ShadowedWildcard(owners, extra, zone, q, h);
    OwnerBelowExists(owners, q, h);
  }

  lemma NoWildcardDenies(rs: seq<RR>, zone: Name, q: Name, t: RRType)
    requires q !in Owners(rs) && WildcardOwner(Owners(rs), zone, q) == None
    ensures Resolve(rs, zone, q, t).rcode == NX_DOMAIN
  {
    hide Owners, WildcardOwner;
  }

  /**
   What the client sees: the NXDOMAIN reply of a slave carries that proof, each of its records with its signatures, once
   and nothing else, and no error.
   */
  lemma DeniedReply(run: Run, e: DB, c: Chain, q: Name, t: RRType, authority: seq<RR>)
    returns (ce: Name, p: EncloserProof, added: seq<RR>)
    requires run.Valid() && run.zone in Owners(run.rs) && run.zone != [] && DnssecFree(run.rs)
    requires Injective(run.Hash(), Involved(Owners(run.rs), q)) && AncestorClosed(Owners(run.rs), run.zone)
    requires Serves(e, run) && IsRebuild(e, c) && e.dnssecEnabled
    requires Below(q, run.zone) && !UnderNewOwner(run, q)
    requires Resolve(run.Signed(), run.zone, q, t).rcode == NX_DOMAIN
    ensures IsClosestEncloser(Owners(run.Signed()), run.zone, q, ce) && DeniesAt(Ok(p), run, q, ce)
    ensures c.params == DEFAULT_PARAMS && ProofAdded(run, p, added)
    ensures DnssecSections(e, run.Signed(), Some(c), run.env.sha, q, q, WireType(t), NX_DOMAIN, [], authority, true) ==
            Sections([], authority + added, None)
  {
    hide *;
    ce := DenialComplete(run, e, c, q, t);
    p := DeniedProof(run, e, c, q, ce);
    ProofFromChain(run, q, ce, p);
    InjectiveOwners(run, q);
    added := SectionSigned(run, e, run.Signed(), c, q, WireType(t), authority, p);
  }

  lemma InjectiveOwners(run: Run, q: Name)
    requires run.Valid() && run.zone in Owners(run.rs) && Injective(run.Hash(), Involved(Owners(run.rs), q))
    ensures Injective(run.Hash(), Elems(run.ns))
  {
    ChainNames(run);
    InvolvedMembers(Owners(run.rs), q, 0);
    InjectivePart(run.Hash(), Involved(Owners(run.rs), q), Owners(run.rs));
    hide Owners, Elems, Involved, Injective;
  }

  lemma ProofFromChain(run: Run, q: Name, ce: Name, p: EncloserProof)
    requires Hash20(run.Hash()) && Below(q, ce) && DeniesAt(Ok(p), run, q, ce)
    ensures FromChain(run, p)
  {
    SourceOf(run);
    hide ChainRecords, RecordCovers, Source, Run.ChainRRs;
  }

  lemma DeniedProof(run: Run, e: DB, c: Chain, q: Name, ce: Name) returns (p: EncloserProof)
    requires run.Valid() && run.zone in Owners(run.rs) && DnssecFree(run.rs) && Below(q, ce)
    requires Injective(run.Hash(), Involved(Owners(run.rs), q)) && Serves(e, run) && IsRebuild(e, c)
    requires DeniesAt(ProofFor(c, run.Hash(), q, run.zone, e), run, q, ce)
    ensures DeniesAt(Ok(p), run, q, ce) && c.params == DEFAULT_PARAMS && e.zone == run.zone
    ensures Hash20(run.Hash()) && Hash20(Hasher(run.env.sha, c.params))
    ensures ProofFor(c, Hasher(run.env.sha, c.params), q, e.zone, e) == Ok(p)
  {
    p := ProofFor(c, run.Hash(), q, run.zone, e).value;
    ChainNames(run);
    InvolvedMembers(Owners(run.rs), q, 0);
    InjectivePart(run.Hash(), Involved(Owners(run.rs), q), Owners(run.rs));
    hide Run.Valid, Run.Signed, ProofFor, Involved, Hasher, Injective, IsRebuild, Proves, Owners, Elems, Run.ChainRRs,
         ByHash, TypeList, Rebuildable, DnssecFree, Index, Pick;
    SlaveChainIsMasters(run, e, c);
  }

  lemma ProofShown(e: DB, signed: seq<RR>, c: Chain, sha: Bytes -> Bytes, q: Name, qtype: nat, authority: seq<RR>, p: EncloserProof)
    requires e.dnssecEnabled && Hash20(Hasher(sha, c.params)) && ProofFor(c, Hasher(sha, c.params), q, e.zone, e) == Ok(p)
    ensures DnssecSections(e, signed, Some(c), sha, q, q, qtype, NX_DOMAIN, [], authority, true) ==
            Sections([], authority + ProofList(p) + ChainSignatures(signed, ProofList(p)), None)
  {
    hide ProofFor, ProofList, ChainSignatures, Hasher;
  }

  /** The section of a reply whose proof is known, whatever list serves the signatures. */
  lemma SectionSigned(run: Run, e: DB, rs: seq<RR>, c: Chain, q: Name, qtype: nat, authority: seq<RR>, p: EncloserProof)
    returns (added: seq<RR>)
    requires run.Valid() && DnssecFree(run.rs) && Injective(run.Hash(), Elems(run.ns)) && FromChain(run, p)
    requires forall n :: Pick(rs, SigOver(n, WireType(NSEC3))) == Pick(run.Signed(), SigOver(n, WireType(NSEC3)))
    requires e.dnssecEnabled && Hash20(Hasher(run.env.sha, c.params))
    requires ProofFor(c, Hasher(run.env.sha, c.params), q, e.zone, e) == Ok(p)
    ensures ProofAdded(run, p, added)
    ensures DnssecSections(e, rs, Some(c), run.env.sha, q, q, qtype, NX_DOMAIN, [], authority, true) ==
            Sections([], authority + added, None)
  {
    hide *;
    added := ProofList(p) + ChainSignatures(rs, ProofList(p));
    ProofIsAdded(run, rs, p);
    ProofShown(e, rs, c, run.env.sha, q, qtype, authority, p);
    Assoc(authority, ProofList(p), ChainSignatures(rs, ProofList(p)));
  }

  // ----- an empty non-terminal breaks the proof

  lemma EntOwners(zone: Name, a: Label, b: Label, x: Label)
    requires x != a && a != STAR && b != STAR
    ensures var owners := {zone, [a, b] + zone, [STAR] + zone};
      && [x, b] + zone !in owners && IsClosestEncloser(owners, zone, [x, b] + zone, [b] + zone)
      && [STAR] + ([b] + zone) !in owners
      && LongestOwner(owners, zone, [x, b] + zone, zone) && Below([x, b] + zone, zone)
  {
    var owners, q, ce := {zone, [a, b] + zone, [STAR] + zone}, [x, b] + zone, [b] + zone;
    assert q[0] == x && q[1] == b && q[1..] == ce && q[2..] == zone && q[|q| - |zone|..] == zone;
    assert ([a, b] + zone)[1..] == ce && ([a, b] + zone)[0] == a && ([STAR] + zone)[0] == STAR && ce[0] == b;
    assert ([STAR] + ([b] + zone))[0] == STAR;
    assert q[0..] == q;
    assert Below([a, b] + zone, ce);
    assert |ce| == |zone| + 1 && |q| == |zone| + 2;
  }

  /** With a.b and * in the zone, and nothing at b, the name x.b is answered NXDOMAIN but no proof is found for it. */
  lemma EntDefeatsProof(run: Run, e: DB, c: Chain, a: Label, b: Label, x: Label, t: RRType)
    requires run.Valid() && run.zone != [] && DnssecFree(run.rs)
    requires x != a && a != STAR && b != STAR && Owners(run.rs) == {run.zone, [a, b] + run.zone, [STAR] + run.zone}
    requires Injective(run.Hash(), Involved(Owners(run.rs), [x, b] + run.zone)) && Serves(e, run) && IsRebuild(e, c)
    ensures Resolve(run.Signed(), run.zone, [x, b] + run.zone, t).rcode == NX_DOMAIN
    ensures ProofFor(c, run.Hash(), [x, b] + run.zone, run.zone, e) == Err(NoWildcard)
  {
    hide *;
    var q := [x, b] + run.zone;
    EntOwners(run.zone, a, b, x);
    EntDefeats(run, e, c, q, [b] + run.zone, t);
  }

  lemma EntDefeats(run: Run, e: DB, c: Chain, q: Name, ent: Name, t: RRType)
    requires run.Valid() && run.zone != [] && DnssecFree(run.rs) && Below(q, run.zone) && q !in Owners(run.rs)
    requires IsClosestEncloser(Owners(run.rs), run.zone, q, ent) && |ent| == |run.zone| + 1 && [STAR] + ent !in Owners(run.rs)
    requires LongestOwner(Owners(run.rs), run.zone, q, run.zone) && [STAR] + run.zone in Owners(run.rs)
    requires Injective(run.Hash(), Involved(Owners(run.rs), q)) && Serves(e, run) && IsRebuild(e, c)
    ensures Resolve(run.Signed(), run.zone, q, t).rcode == NX_DOMAIN
    ensures ProofFor(c, run.Hash(), q, run.zone, e) == Err(NoWildcard)
  {
    assert run.zone in Owners(run.rs) && Hash20(run.Hash());
    hide Run.Valid, Run.Signed, ProofFor, Resolve, ChainOwners, Involved, Run.Hash, Injective, IsRebuild, Owners, Serves,
         IsClosestEncloser, LongestOwner, DeniesAt, DnssecFree, HashNames, Below, AtOrBelow, ClosestEncloser;
    ChainOwnersAreHashNames(run);
    SlaveProof(run, e, c, q, run.zone);
    SignedOwners(run);
    EntDenied(Owners(run.rs), ChainOwners(run), run.zone, q, ent);
    NxDomainExact(run.Signed(), run.zone, q, t);
  }

  lemma EncloserSame(owners: set<Name>, zone: Name, q: Name, a: Name, b: Name)
    requires IsClosestEncloser(owners, zone, q, a) && IsClosestEncloser(owners, zone, q, b)
    ensures a == b
  {
    ClosestEncloserSpec(owners, zone, q, a);
    ClosestEncloserSpec(owners, zone, q, b);
  }

  lemma EntDenied(owners: set<Name>, extra: set<Name>, zone: Name, q: Name, ent: Name)
    requires zone in owners && HashNames(zone, extra) && Below(q, zone) && q !in owners
    requires IsClosestEncloser(owners, zone, q, ent) && |ent| == |zone| + 1 && [STAR] + ent !in owners
    ensures q !in owners + extra
    ensures forall x :: IsClosestEncloser(owners + extra, zone, q, x) ==> [STAR] + x !in owners + extra
  {
    forall h | h in extra && Below(q, h)
      ensures NodeExists(owners, h)
    {
      SameLength(q, h, ent);
    }
    EncloserStays(owners, extra, zone, q);
    assert Below(q, ent);
    ClosestEncloserSpec(owners, zone, q, ent);
    hide NodeExists, IsClosestEncloser;
    forall x | IsClosestEncloser(owners + extra, zone, q, x)
      ensures [STAR] + x !in owners + extra
    {
      ClosestEncloserSpec(owners + extra, zone, q, x);
      assert |[STAR] + x| == |zone| + 2;
    }
  }
}
