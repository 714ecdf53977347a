/** What a proof brings to the authority section: its records, and one signature per key over each of them. */
module ProofSignatures {
  import opened Bytes
  import opened Names
  import opened Records
  import opened Database
  import opened Sorting
  import opened Signing
  import opened Nsec3Chain
  import opened Nsec3Proof
  import opened SignedZone
  import opened SignatureTheorems
  import opened Response

  ghost predicate InProof(p: EncloserProof, r: RR) {
    r == p.closestEncloser || r == p.nextCloser || r == p.wildcardAtCE
  }

  /** The RRSIGs over NSEC3 of the record's owner among these are one per key of the role, over this one record. */
  ghost predicate SignedIn(run: Run, r: RR, added: seq<RR>) {
    exists at: nat :: Pick(added, SigOver(r.name, WireType(NSEC3))) ==
                      SigBlock(run.env, run.env.chainTimes, run.zone, [r], Signers(run.keys, NSEC3), at)
  }

  /** Each record of the proof once, each with its signatures, and nothing else. */
  ghost predicate ProofAdded(run: Run, p: EncloserProof, added: seq<RR>) {
    && NoDup(added)
    && (forall r :: InProof(p, r) ==> Pick(added, RRset(r.name, NSEC3)) == [r] && SignedIn(run, r, added))
    && forall x :: x in added ==> InProof(p, x) || exists r :: InProof(p, r) && Match(SigOver(r.name, WireType(NSEC3)), x)
  }

  // ----- the list of the proof

  lemma {:induction false} NameSeen(list: seq<RR>, r: RR)
    requires r in list && forall a, b :: a in list && b in list && a.name == b.name ==> a == b
    ensures r in FirstByName(list)
    decreases |list|
  {
    var init, last := list[..|list| - 1], list[|list| - 1];
    assert list == init + [last];
    if r in init {
      NameSeen(init, r);
    } else if last.name in Owners(FirstByName(init)) {
      var x :| x in FirstByName(init) && x.name == last.name;
      FromList(init, x);
    }
  }

  lemma {:induction false} FromList(list: seq<RR>, r: RR)
    requires r in FirstByName(list)
    ensures r in list
    decreases |list|
  {
    var init := list[..|list| - 1];
    assert list == init + [list[|list| - 1]];
    if r in FirstByName(init) {
      FromList(init, r);
    }
  }

  lemma {:induction false} FirstDistinct(list: seq<RR>)
    ensures DistinctNames(FirstByName(list))
    decreases |list|
  {
    if list != [] {
      FirstDistinct(list[..|list| - 1]);
      var before := FirstByName(list[..|list| - 1]);
      assert forall i :: 0 <= i < |before| ==> before[i].name in Owners(before);
    }
  }

  ghost predicate FromChain(run: Run, p: EncloserProof)
    requires Hash20(run.Hash())
  {
    p.closestEncloser in run.ChainRRs() && p.nextCloser in run.ChainRRs() && p.wildcardAtCE in run.ChainRRs()
  }

  lemma OneName(recs: seq<RR>, a: RR, b: RR)
    requires DistinctNames(recs) && a in recs && b in recs && a.name == b.name
    ensures a == b
  {
    var i :| 0 <= i < |recs| && recs[i] == a;
    var j :| 0 <= j < |recs| && recs[j] == b;
  }

  /** The three records of a proof all reach the list, whichever of them coincide. */
  lemma ProofListed(run: Run, p: EncloserProof)
    requires Hash20(run.Hash()) && DistinctNames(run.ChainRRs()) && FromChain(run, p)
    ensures forall r :: r in ProofList(p) <==> InProof(p, r)
    ensures DistinctNames(ProofList(p))
  {
    hide Run.ChainRRs, ProofList, DistinctNames, Hash20, Run.Hash;
    ProofNames(run.ChainRRs(), p);
    ListedOnce(p);
  }

  lemma ProofNames(recs: seq<RR>, p: EncloserProof)
    requires DistinctNames(recs) && p.closestEncloser in recs && p.nextCloser in recs && p.wildcardAtCE in recs
    ensures forall a, b :: InProof(p, a) && InProof(p, b) && a.name == b.name ==> a == b
  {
    hide DistinctNames;
    forall a, b | InProof(p, a) && InProof(p, b) && a.name == b.name
      ensures a == b
    {
      OneName(recs, a, b);
    }
  }

  lemma ListedOnce(p: EncloserProof)
    requires forall a, b :: InProof(p, a) && InProof(p, b) && a.name == b.name ==> a == b
    ensures forall r :: r in ProofList(p) <==> InProof(p, r)
    ensures DistinctNames(ProofList(p))
  {
    hide FirstByName, DistinctNames;
    var list := [p.closestEncloser, p.nextCloser, p.wildcardAtCE];
    FirstDistinct(list);
    assert list[0] == p.closestEncloser && list[1] == p.nextCloser && list[2] == p.wildcardAtCE;
    assert forall x :: x in list <==> InProof(p, x);
    hide InProof;
    forall r
      ensures r in ProofList(p) <==> r in list
    {
      if r in list {
        NameSeen(list, r);
      }
      if r in ProofList(p) {
        FromList(list, r);
      }
    }
  }

  // ----- the signatures behind it

  lemma ChainSignaturesNext(rs: seq<RR>, proof: seq<RR>, r: RR)
    ensures ChainSignatures(rs, proof + [r]) == ChainSignatures(rs, proof) + Pick(rs, SigOver(r.name, WireType(NSEC3)))
  {
    hide Pick;
    assert (proof + [r])[..|proof|] == proof;
  }

  lemma PickedAgain(rs: seq<RR>, n: Name, m: Name, covered: nat)
    ensures Pick(Pick(rs, SigOver(m, covered)), SigOver(n, covered)) == if m == n then Pick(rs, SigOver(n, covered)) else []
  {
    if m == n {
      PickPick(rs, SigOver(m, covered), SigOver(n, covered));
    } else {
      PickMembers(rs, SigOver(m, covered));
      PickNone(Pick(rs, SigOver(m, covered)), SigOver(n, covered));
    }
  }

  /** Of the signatures behind a list with distinct owners, those of one owner are the ones served. */
  lemma {:induction false} SignaturesOf(rs: seq<RR>, proof: seq<RR>, n: Name)
    requires DistinctNames(proof)
    ensures Pick(ChainSignatures(rs, proof), SigOver(n, WireType(NSEC3))) ==
            if n in Owners(proof) then Pick(rs, SigOver(n, WireType(NSEC3))) else []
    decreases |proof|
  {
    hide Pick, WireType;
    if proof == [] {
      EmptyPick(SigOver(n, WireType(NSEC3)));
    } else {
      var init, last := proof[..|proof| - 1], proof[|proof| - 1];
      assert proof == init + [last];
      SignaturesOf(rs, init, n);
      ChainSignaturesNext(rs, init, last);
      PickConcat(ChainSignatures(rs, init), Pick(rs, SigOver(last.name, WireType(NSEC3))), SigOver(n, WireType(NSEC3)));
      PickedAgain(rs, n, last.name, WireType(NSEC3));
      OwnersAppend(init, last);
      assert last.name !in Owners(init);
      Padded(Pick(rs, SigOver(n, WireType(NSEC3))));
    }
  }

  /** No other records come along. */
  lemma {:induction false} SignatureOrigin(rs: seq<RR>, proof: seq<RR>, x: RR)
    requires x in ChainSignatures(rs, proof)
    ensures exists r :: r in proof && Match(SigOver(r.name, WireType(NSEC3)), x)
    decreases |proof|
  {
    hide Pick, WireType, Match;
    if proof != [] {
      var init, last := proof[..|proof| - 1], proof[|proof| - 1];
      assert proof == init + [last];
      ChainSignaturesNext(rs, init, last);
      if x in ChainSignatures(rs, init) {
        SignatureOrigin(rs, init, x);
        assert forall r :: r in init ==> r in proof;
      } else {
        PickMember(rs, SigOver(last.name, WireType(NSEC3)), x);
        assert last in proof;
      }
    }
  }

  lemma BlockOnce(env: Env, times: Times, zone: Name, rrset: seq<RR>, keys: seq<SigningKey>, id: nat, x: RR)
    requires rrset != [] && x in SigBlock(env, times, zone, rrset, keys, id)
    ensures multiset(SigBlock(env, times, zone, rrset, keys, id))[x] == 1
  {
    var block := SigBlock(env, times, zone, rrset, keys, id);
    assert forall j :: 0 <= j < |block| ==> block[j].id == id + j;
    hide SigRR, SigBlock;
    DistinctOnce(block, id, x);
  }

  lemma {:induction false} DistinctOnce(block: seq<RR>, id: nat, x: RR)
    requires (forall j :: 0 <= j < |block| ==> block[j].id == id + j) && x in block
    ensures multiset(block)[x] == 1
    decreases |block|
  {
    var init, last := block[..|block| - 1], block[|block| - 1];
    assert block == init + [last];
    if x != last {
      DistinctOnce(init, id, x);
    }
  }

  /** The signatures over one record of the chain. */
  lemma RecordSigned(run: Run, r: RR) returns (at: nat)
    requires run.Valid() && DnssecFree(run.rs) && Injective(run.Hash(), Elems(run.ns)) && r in run.ChainRRs()
    ensures r.rtype == NSEC3
    ensures Pick(run.Signed(), SigOver(r.name, WireType(NSEC3))) ==
            SigBlock(run.env, run.env.chainTimes, run.zone, [r], Signers(run.keys, NSEC3), at)
  {
    hide *;
    at := EveryRRsetSigned(run, r.name, NSEC3);
    ServedRecord(run, r);
    SignedBlock(run, r, at);
  }

  lemma SignedBlock(run: Run, r: RR, at: nat)
    requires Hash20(run.Hash()) && SignedOnce(run.Signed(), run.env, run.zone, run.keys, r.name, NSEC3, at)
    requires Pick(run.Signed(), RRset(r.name, NSEC3)) == [r]
    ensures Pick(run.Signed(), SigOver(r.name, WireType(NSEC3))) ==
            SigBlock(run.env, run.env.chainTimes, run.zone, [r], Signers(run.keys, NSEC3), at)
  {
    hide Pick, Run.Signed, SigBlock, Signers, WireType;
  }

  lemma ServedRecord(run: Run, r: RR)
    requires run.Valid() && DnssecFree(run.rs) && Injective(run.Hash(), Elems(run.ns)) && r in run.ChainRRs()
    ensures Hash20(run.Hash()) && r.rtype == NSEC3 && Pick(run.Signed(), RRset(r.name, NSEC3)) == [r]
  {
    var ids := RunParts(run);
    RunAssembled(run);
    hide Pick, Run.Signed, Run.Keyed, Run.Sigs, Run.ChainRRs, Run.Param, Run.ChainSigs, Run.ParamSigs, SigList, SigSingles,
         SigBlock, Signers, Assemble;
    RRsetSegments(run.env, run.zone, run.keys, run.order, ids, run.Keyed(), run.Sigs(), run.ChainRRs(), run.Param(),
                  run.ChainSigs(), run.ParamSigs(), r.name, NSEC3);
    NotOfType(run.Keyed(), r.name, NSEC3);
    NotOfType([run.Param()], r.name, NSEC3);
    PickedAlone(run.ChainRRs(), r);
    Padded(Pick(run.ChainRRs(), RRset(r.name, NSEC3)));
  }

  lemma {:induction false} PickedAlone(recs: seq<RR>, r: RR)
    requires DistinctNames(recs) && r in recs
    ensures Pick(recs, RRset(r.name, r.rtype)) == [r]
    decreases |recs|
  {
    var init, last := recs[..|recs| - 1], recs[|recs| - 1];
    assert recs == init + [last];
    PickAppend(init, last, RRset(r.name, r.rtype));
    if r == last {
      PickNone(init, RRset(r.name, r.rtype));
    } else {
      if r.name == last.name {
        OneName(recs, r, last);
      }
      PickedAlone(init, r);
    }
  }

  // ----- together

  /** What a list of signatures has to be to go behind the proof. */
  ghost predicate Behind(run: Run, proof: seq<RR>, sigs: seq<RR>) {
    && (forall r :: r in proof ==> r.rtype == NSEC3 && SignedIn(run, r, sigs))
    && forall x :: x in sigs ==> exists r :: r in proof && Match(SigOver(r.name, WireType(NSEC3)), x)
  }

  lemma ChainBehind(run: Run, rs: seq<RR>, proof: seq<RR>)
    requires run.Valid() && DnssecFree(run.rs) && Injective(run.Hash(), Elems(run.ns)) && DistinctNames(proof)
    requires forall r :: r in proof ==> r in run.ChainRRs()
    requires forall n :: Pick(rs, SigOver(n, WireType(NSEC3))) == Pick(run.Signed(), SigOver(n, WireType(NSEC3)))
    ensures Behind(run, proof, ChainSignatures(rs, proof))
  {
    assert Hash20(run.Hash());
    hide Pick, Run.Signed, Run.ChainRRs, ChainSignatures, Signers, SigBlock, WireType, Run.Valid, DnssecFree, Injective, Match,
         DistinctNames, Run.Hash, Hash20, Elems;
    var sigs := ChainSignatures(rs, proof);
    forall r | r in proof
      ensures r.rtype == NSEC3 && SignedIn(run, r, sigs)
    {
      var at := RecordSigned(run, r);
      SignaturesOf(rs, proof, r.name);
      assert r.name in Owners(proof);
    }
    forall x | x in sigs
      ensures exists r :: r in proof && Match(SigOver(r.name, WireType(NSEC3)), x)
    {
      SignatureOrigin(rs, proof, x);
    }
  }

  lemma PickedBoth(run: Run, proof: seq<RR>, sigs: seq<RR>, r: RR)
    requires DistinctNames(proof) && Behind(run, proof, sigs) && r in proof
    ensures Pick(proof + sigs, RRset(r.name, NSEC3)) == [r] && SignedIn(run, r, proof + sigs)
  {
    hide Pick, SigBlock, Signers, WireType;
    PickConcat(proof, sigs, RRset(r.name, NSEC3));
    PickConcat(proof, sigs, SigOver(r.name, WireType(NSEC3)));
    NoSigs(proof, r.name, WireType(NSEC3));
    NotOfType(sigs, r.name, NSEC3);
    PickedAlone(proof, r);
    Padded(Pick(sigs, SigOver(r.name, WireType(NSEC3))));
    Padded([r]);
  }

  lemma OnceEach(run: Run, proof: seq<RR>, sigs: seq<RR>)
    requires DistinctNames(proof) && Behind(run, proof, sigs)
    ensures NoDup(proof + sigs)
  {
    hide Pick, SigBlock, Signers, WireType, NoDup, DistinctNames;
    var added := proof + sigs;
    forall x | x in added
      ensures multiset(added)[x] == 1
    {
      if x in proof {
        PickedBoth(run, proof, sigs, x);
        PickCount(added, RRset(x.name, NSEC3), x);
        assert multiset([x])[x] == 1;
      } else {
        var r :| r in proof && Match(SigOver(r.name, WireType(NSEC3)), x);
        PickedBoth(run, proof, sigs, r);
        var at: nat :| Pick(added, SigOver(r.name, WireType(NSEC3))) ==
                       SigBlock(run.env, run.env.chainTimes, run.zone, [r], Signers(run.keys, NSEC3), at);
        PickMember(added, SigOver(r.name, WireType(NSEC3)), x);
        PickCount(added, SigOver(r.name, WireType(NSEC3)), x);
        BlockOnce(run.env, run.env.chainTimes, run.zone, [r], Signers(run.keys, NSEC3), at, x);
      }
    }
    NoDupCount(added);
  }

  /** What the slave puts behind its authority section, whatever list serves the signatures. */
  lemma ProofIsAdded(run: Run, rs: seq<RR>, p: EncloserProof)
    requires run.Valid() && DnssecFree(run.rs) && Injective(run.Hash(), Elems(run.ns)) && FromChain(run, p)
    requires forall n :: Pick(rs, SigOver(n, WireType(NSEC3))) == Pick(run.Signed(), SigOver(n, WireType(NSEC3)))
    ensures ProofAdded(run, p, ProofList(p) + ChainSignatures(rs, ProofList(p)))
  {
    hide *;
    HashIs20(run);
    ChainDistinct(run);
    ProofListed(run, p);
    var proof, sigs := ProofList(p), ChainSignatures(rs, ProofList(p));
    ListFromChain(run, p, proof);
    ChainBehind(run, rs, proof);
    OnceEach(run, proof, sigs);
    Together(run, p, proof, sigs);
  }

  lemma HashIs20(run: Run)
    requires run.Valid()
    ensures Hash20(run.Hash())
  {
  }

  lemma ListFromChain(run: Run, p: EncloserProof, proof: seq<RR>)
    requires Hash20(run.Hash()) && FromChain(run, p) && forall r :: r in proof <==> InProof(p, r)
    ensures forall r :: r in proof ==> r in run.ChainRRs()
  {
    hide Run.ChainRRs;
  }

  lemma Together(run: Run, p: EncloserProof, proof: seq<RR>, sigs: seq<RR>)
    requires DistinctNames(proof) && Behind(run, proof, sigs) && NoDup(proof + sigs)
    requires forall r :: r in proof <==> InProof(p, r)
    ensures ProofAdded(run, p, proof + sigs)
  {
    hide Pick, WireType, Match, DistinctNames, SignedIn, NoDup, InProof;
    forall r | InProof(p, r)
      ensures Pick(proof + sigs, RRset(r.name, NSEC3)) == [r] && SignedIn(run, r, proof + sigs)
    {
      PickedBoth(run, proof, sigs, r);
    }
    forall x | x in proof + sigs
      ensures InProof(p, x) || exists r :: InProof(p, r) && Match(SigOver(r.name, WireType(NSEC3)), x)
    {
      if x !in proof {
        var r :| r in proof && Match(SigOver(r.name, WireType(NSEC3)), x);
        assert InProof(p, r);
      }
    }
  }
}
