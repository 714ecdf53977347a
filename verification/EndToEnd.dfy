/** What a slave serves, all the way: published, signed, replicated, denied with proof. */
module EndToEnd {
  import opened Bytes
  import opened Names
  import opened Records
  import opened Database
  import opened Resolver
  import opened Sanity
  import opened Signing
  import opened Nsec3Chain
  import opened Nsec3Proof
  import opened SignedZone
  import opened SignatureTheorems
  import opened Response
  import opened ProofSignatures
  import opened DenialTheorems
  import opened Replication

  /** The signed zone as the master publishes it. */
  ghost function Output(run: Run): (c: Content)
    requires Hash20(run.Hash())
  {
    Content(run.zone, run.Signed(), true)
  }

  /** Behind every signed database a slave serves stands one run of the pipeline over a zone that passed the checks. */
  lemma BehindServed(states: seq<State>, steps: seq<Step>, k: nat, i: nat) returns (run: Run)
    requires Trace(states, steps) && Init(states[0]) && k < |states| && i < |states[k].slaves|
    requires states[k].slaves[i].db.Some? && states[k].slaves[i].db.value.signed
    ensures run.Valid() && Verdict(run.rs, run.zone) == None
    ensures Hash20(run.Hash()) && Output(run) in states[k].published && Copy(Output(run), states[k].slaves[i].db.value)
    ensures ChainOf(states[k].slaves[i].db.value, states[k].slaves[i].chain)
  {
    InitSafe(states[0]);
    RunSafe(states, steps, k);
    hide Trace, Init, Verdict, Run.Signed, ChainOf, Next;
    var s := states[k];
    var c := s.slaves[i].db.value;
    assert SlaveSafe(s.published, s.slaves[i]);
    var p :| p in s.published && Copy(p, c);
    assert Publishable(p);
    hide Inv, Copy;
    run := RunOf(p, c);
  }

  lemma RunOf(p: Content, c: Content) returns (run: Run)
    requires Publishable(p) && Copy(p, c) && c.signed
    ensures run.Valid() && Verdict(run.rs, run.zone) == None && Hash20(run.Hash()) && Output(run) == p
  {
    hide Verdict, NoDup, Pick, Run.Signed;
    var base :| Verdict(base, p.zone) == None && BuiltFrom(p, base);
    run :| run.Valid() && run.zone == p.zone && run.rs == base && p.rs == run.Signed();
  }

  lemma CopyServes(run: Run, served: Content, chain: Option<Chain>)
    requires run.Valid() && DnssecFree(run.rs) && Copy(Output(run), served) && ChainOf(served, chain)
    ensures Serves(DBOf(served), run) && chain.Some? && IsRebuild(DBOf(served), chain.value)
    ensures DBOf(served).dnssecEnabled && served.zone == run.zone
  {
    CopySame(Output(run), served);
    hide Run.Signed, Run.Valid, Copy, Rebuildable, IsRebuild, Pick, Owners, SameType, Index;
    assert served.signed && served.zone == run.zone by { CopyFields(Output(run), served); }
    IndexZone(served);
    IndexZone(Output(run));
    ServedLists(run, DBOf(served));
    ServedRebuilds(run, DBOf(served));
  }

  lemma CopyFields(a: Content, b: Content)
    requires Copy(a, b)
    ensures a.zone == b.zone && a.signed == b.signed
  {
  }

  lemma IndexZone(c: Content)
    ensures DBOf(c).zone == c.zone && DBOf(c).byType == Index(c.zone, c.rs).byType && DBOf(c).dnssecEnabled == c.signed
  {
  }

  /**
   Any slave serving a copy of a signed zone without empty non-terminals: where its lookup says NXDOMAIN, its reply
   carries a proof that matches the closest encloser the lookup used, each record with its signatures, and no error.
   */
  lemma ServedDenial(run: Run, served: Content, chain: Option<Chain>, q: Name, t: RRType, authority: seq<RR>)
    returns (ce: Name, p: EncloserProof, added: seq<RR>)
    requires run.Valid() && run.zone in Owners(run.rs) && run.zone != [] && DnssecFree(run.rs)
    requires Injective(run.Hash(), Involved(Owners(run.rs), q)) && AncestorClosed(Owners(run.rs), run.zone)
    requires Copy(Output(run), served) && ChainOf(served, chain)
    requires Below(q, run.zone) && !UnderNewOwner(run, q)
    requires Resolve(served.rs, served.zone, q, t).rcode == NX_DOMAIN
    ensures IsClosestEncloser(Owners(served.rs), run.zone, q, ce) && Below(q, ce) && DeniesAt(Ok(p), run, q, ce)
    ensures chain.Some? && chain.value.params == DEFAULT_PARAMS && Hash20(Hasher(run.env.sha, chain.value.params))
    ensures ProofAdded(run, p, added)
    ensures DnssecSections(DBOf(served), served.rs, chain, run.env.sha, q, q, WireType(t), NX_DOMAIN, [], authority, true) ==
            Sections([], authority + added, None)
  {
    hide *;
    HashKnown(run);
    CopyServes(run, served, chain);
    SameAnswers(run, served, q, t);
    ce := DenialComplete(run, DBOf(served), chain.value, q, t);
    p := DeniedProof(run, DBOf(served), chain.value, q, ce);
    assert Below(q, ce) by { EncloserAbove(Owners(served.rs), run.zone, q, ce); }
    ProofFromChain(run, q, ce, p);
    InjectiveOwners(run, q);
    ServedSignatures(run, served);
    added := SectionSigned(run, DBOf(served), served.rs, chain.value, q, WireType(t), authority, p);
  }

  lemma ServedSignatures(run: Run, served: Content)
    requires Hash20(run.Hash()) && Copy(Output(run), served)
    ensures forall n, covered :: Pick(served.rs, SigOver(n, covered)) == Pick(run.Signed(), SigOver(n, covered))
  {
    hide Pick, Run.Signed, Copy;
    forall n, covered
      ensures Pick(served.rs, SigOver(n, covered)) == Pick(run.Signed(), SigOver(n, covered))
    {
      CopySignatures(Output(run), served, n, covered);
    }
  }

  lemma SameAnswers(run: Run, served: Content, q: Name, t: RRType)
    requires Hash20(run.Hash()) && Copy(Output(run), served)
    ensures Owners(run.Signed()) == Owners(served.rs)
    ensures Resolve(run.Signed(), run.zone, q, t) == Resolve(served.rs, served.zone, q, t)
  {
    CopySame(Output(run), served);
    CopyReplies(Output(run), served, q, t);
  }

  lemma EncloserAbove(owners: set<Name>, zone: Name, q: Name, ce: Name)
    requires IsClosestEncloser(owners, zone, q, ce)
    ensures Below(q, ce)
  {
  }

  lemma HashKnown(run: Run)
    requires run.Valid()
    ensures Hash20(run.Hash()) && Hash20(Hasher(run.env.sha, DEFAULT_PARAMS))
  {
  }

  // ----- positive replies

  lemma CopySignatures(a: Content, b: Content, n: Name, covered: nat)
    requires Copy(a, b)
    ensures Pick(a.rs, SigOver(n, covered)) == Pick(b.rs, SigOver(n, covered))
  {
    PickPick(a.rs, OfType(RRSIG), SigOver(n, covered));
    PickPick(b.rs, OfType(RRSIG), SigOver(n, covered));
    hide Pick, NoDup;
  }

  lemma CopyRRset(a: Content, b: Content, n: Name, t: RRType)
    requires Copy(a, b)
    ensures Pick(a.rs, RRset(n, t)) == Pick(b.rs, RRset(n, t))
  {
    CopySame(a, b);
    assert SameType(a.rs, b.rs, t);
    hide Pick, NoDup, Owners;
  }

  /**
   Any slave serving a copy of a signed zone: behind a positive reply it appends exactly the signatures of the answered
   RRset, one per key of its role, and nothing else.
   */
  lemma ServedAnswer(run: Run, served: Content, chain: Option<Chain>, q: Name, t: RRType, authority: seq<RR>)
    returns (a: RRType, at: nat)
    requires run.Valid() && DnssecFree(run.rs) && Injective(run.Hash(), Elems(run.ns)) && t != RRSIG
    requires Copy(Output(run), served) && ChainOf(served, chain)
    requires Resolve(served.rs, served.zone, q, t).answers != []
    ensures chain.Some? && Hash20(Hasher(run.env.sha, chain.value.params))
    ensures var reply := Resolve(served.rs, served.zone, q, t);
      var rrset := Pick(served.rs, RRset(reply.effectiveOwner, a));
      && (a == t || a == CNAME) && rrset != [] && (reply.answers == rrset || reply.answers == Synthesise(rrset, q))
      && DnssecSections(DBOf(served), served.rs, chain, run.env.sha, q, reply.effectiveOwner, WireType(t), reply.rcode,
                        reply.answers, authority, true) ==
         Sections(reply.answers + SigBlock(run.env, TimesFor(run.env, a), run.zone, rrset, Signers(run.keys, a), at), authority, None)
  {
    hide *;
    HashKnown(run);
    CopyServes(run, served, chain);
    SlaveChainIsMasters(run, DBOf(served), chain.value);
    SameAnswers(run, served, q, t);
    var signed := Output(run);
    var reply := Resolve(served.rs, served.zone, q, t);
    var owner := reply.effectiveOwner;
    assert signed.rs == run.Signed() && signed.zone == run.zone by { OutputIs(run); }
    a, at := AnswersSigned(run, q, t);
    CopySignatures(signed, served, owner, Covered(reply.answers, WireType(t)));
    CopyRRset(signed, served, owner, a);
    SignaturesShown(DBOf(served), served.rs, chain, run.env.sha, q, owner, WireType(t), reply.answers, authority);
  }

  lemma OutputIs(run: Run)
    requires Hash20(run.Hash())
    ensures Output(run).rs == run.Signed() && Output(run).zone == run.zone
  {
  }

  lemma SignaturesShown(e: DB, rs: seq<RR>, chain: Option<Chain>, sha: Bytes -> Bytes, q: Name, owner: Name, qtype: nat,
                        answers: seq<RR>, authority: seq<RR>)
    requires e.dnssecEnabled && answers != [] && (chain.Some? ==> Hash20(Hasher(sha, chain.value.params)))
    ensures DnssecSections(e, rs, chain, sha, q, owner, qtype, NO_ERROR, answers, authority, true) ==
            Sections(answers + Pick(rs, SigOver(owner, Covered(answers, qtype))), authority, None)
  {
    hide Pick, ProofFor, Hasher, Covered, Hash20;
  }
}
