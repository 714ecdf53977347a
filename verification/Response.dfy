/** The DNSSEC part of a reply: signatures on answers, denial proofs, the SOA of negative replies. */
module Response {
  import opened Bytes
  import opened Names
  import opened Records
  import opened Database
  import opened Resolver
  import opened Nsec3Chain
  import opened Nsec3Proof

  datatype Sections = Sections(answers: seq<RR>, authority: seq<RR>, error: Option<ProofError>)

  /** The wire type whose signatures belong to the answers. */
  function Covered(answers: seq<RR>, qtype: nat): (w: nat) {
    if answers == [] then qtype
    else if answers[0].rtype == RRSIG then Covered(answers[1..], qtype)
    else WireType(answers[0].rtype)
  }

  method CoveredType(answers: seq<RR>, qtype: nat) returns (w: nat)
    ensures w == Covered(answers, qtype)
  {
    var i := 0;
    while i < |answers|
      invariant 0 <= i <= |answers|
      invariant Covered(answers, qtype) == Covered(answers[i..], qtype)
    {
      if answers[i].rtype != RRSIG {
        return WireType(answers[i].rtype);
      }
      assert answers[i..][1..] == answers[i + 1..];
      i := i + 1;
    }
    w := qtype;
  }

  lemma SigTest(rs: seq<RR>, owner: Name, covered: nat, r: RR)
    requires r in Pick(rs, RRset(owner, RRSIG))
    ensures Match(SigOver(owner, covered), r) <==> r.opts.OptsRRSIG? && r.opts.typeCovered == covered
  {
    PickMember(rs, RRset(owner, RRSIG), r);
  }

  /** The signature loop: RRSIG records of the owner that cover the type. */
  method SignaturesAt(d: DB, ghost rs: seq<RR>, owner: Name, covered: nat) returns (sigs: seq<RR>)
    requires Indexes(d, rs)
    ensures sigs == Pick(rs, SigOver(owner, covered))
  {
    PickPick(rs, RRset(owner, RRSIG), SigOver(owner, covered));
    hide Indexes, TypeList, Pick, Match;
    IndexedRRset(d, rs, owner, RRSIG);
    var rrsigs := LookupByType(d, owner, RRSIG);
    sigs := [];
    var i := 0;
    PickNone([], SigOver(owner, covered));
    while i < |rrsigs|
      invariant 0 <= i <= |rrsigs|
      invariant sigs == Pick(rrsigs[..i], SigOver(owner, covered))
    {
      assert rrsigs[..i + 1] == rrsigs[..i] + [rrsigs[i]];
      PickAppend(rrsigs[..i], rrsigs[i], SigOver(owner, covered));
      SigTest(rs, owner, covered, rrsigs[i]);
      if rrsigs[i].opts.OptsRRSIG? && rrsigs[i].opts.typeCovered == covered {
        sigs := sigs + [rrsigs[i]];
      }
      i := i + 1;
    }
    assert rrsigs[..i] == rrsigs;
  }

  /** Records of the list whose owner has not come up before. */
  function FirstByName(rs: seq<RR>): (r: seq<RR>) {
    if rs == [] then []
    else
      var before, last := FirstByName(rs[..|rs| - 1]), rs[|rs| - 1];
      if last.name in Owners(before) then before else before + [last]
  }

  /** The NSEC3 signatures of each record's owner. */
  function ChainSignatures(rs: seq<RR>, proof: seq<RR>): (sigs: seq<RR>) {
    if proof == [] then []
    else ChainSignatures(rs, proof[..|proof| - 1]) + Pick(rs, SigOver(proof[|proof| - 1].name, WireType(NSEC3)))
  }

  function ProofList(p: EncloserProof): (r: seq<RR>) {
    FirstByName([p.closestEncloser, p.nextCloser, p.wildcardAtCE])
  }

  /** What `appendDNSSEC` returns. */
  ghost function DnssecSections(d: DB, rs: seq<RR>, chain: Option<Chain>, sha: Bytes -> Bytes, name: Name, owner: Name,
                                qtype: nat, rcode: nat, answers: seq<RR>, authority: seq<RR>, doBit: bool): (s: Sections)
    requires chain.Some? ==> Hash20(Hasher(sha, chain.value.params))
  {
    if !doBit || !d.dnssecEnabled then Sections(answers, authority, None)
    else if rcode == NO_ERROR && answers != [] then
      Sections(answers + Pick(rs, SigOver(owner, Covered(answers, qtype))), authority, None)
    else if rcode == NX_DOMAIN && chain.Some? then
      match ProofFor(chain.value, Hasher(sha, chain.value.params), name, d.zone, d)
      case Err(e) => Sections(answers, authority, Some(e))
      case Ok(p) => Sections(answers, authority + ProofList(p) + ChainSignatures(rs, ProofList(p)), None)
    else Sections(answers, authority, None)
  }

  method DedupProof(list: seq<RR>) returns (r: seq<RR>)
    ensures r == FirstByName(list)
  {
    var seen: set<Name> := {};
    r := [];
    var i := 0;
    while i < |list|
      invariant 0 <= i <= |list|
      invariant r == FirstByName(list[..i]) && seen == Owners(r)
    {
      assert list[..i + 1][..i] == list[..i];
      if list[i].name !in seen {
        seen := seen + {list[i].name};
        OwnersAppend(r, list[i]);
        r := r + [list[i]];
      }
      i := i + 1;
    }
    assert list[..i] == list;
  }

  lemma OwnersAppend(rs: seq<RR>, r: RR)
    ensures Owners(rs + [r]) == Owners(rs) + {r.name}
  {
    assert forall x :: x in rs + [r] <==> x in rs || x == r;
  }

  method SignProof(d: DB, ghost rs: seq<RR>, proof: seq<RR>) returns (sigs: seq<RR>)
    requires Indexes(d, rs)
    ensures sigs == ChainSignatures(rs, proof)
  {
    hide Indexes, Pick;
    sigs := [];
    var i := 0;
    while i < |proof|
      invariant 0 <= i <= |proof|
      invariant sigs == ChainSignatures(rs, proof[..i])
    {
      assert proof[..i + 1][..i] == proof[..i];
      var s := SignaturesAt(d, rs, proof[i].name, WireType(NSEC3));
      sigs := sigs + s;
      i := i + 1;
    }
    assert proof[..i] == proof;
  }

  /** `appendDNSSEC`. */
  method AppendDNSSEC(d: DB, ghost rs: seq<RR>, chain: Option<Chain>, sha: Bytes -> Bytes, name: Name, owner: Name,
                      qtype: nat, rcode: nat, answers: seq<RR>, authority: seq<RR>, doBit: bool) returns (s: Sections)
    requires Indexes(d, rs) && (chain.Some? ==> Hash20(Hasher(sha, chain.value.params)))
    ensures s == DnssecSections(d, rs, chain, sha, name, owner, qtype, rcode, answers, authority, doBit)
  {
    hide Indexes, Pick, ProofFor, FirstByName, ChainSignatures, Covered, Hasher;
    if !doBit || !d.dnssecEnabled {
      return Sections(answers, authority, None);
    }
    if rcode == NO_ERROR {
      if |answers| > 0 {
        var covered := CoveredType(answers, qtype);
        var sigs := SignaturesAt(d, rs, owner, covered);
        return Sections(answers + sigs, authority, None);
      }
    } else if rcode == NX_DOMAIN {
      if chain.Some? {
        var proof := ClosestEncloserProof(chain.value, sha, name, d.zone, d);
        if proof.Err? {
          return Sections(answers, authority, Some(proof.error));
        }
        var p := proof.value;
        var proofRRs := DedupProof([p.closestEncloser, p.nextCloser, p.wildcardAtCE]);
        var sigs := SignProof(d, rs, proofRRs);
        return Sections(answers, authority + proofRRs + sigs, None);
      }
    }
    s := Sections(answers, authority, None);
  }

  /** `appendNegativeAuthority`: SOA, and its signatures for DO clients, on NXDOMAIN and NODATA only. */
  method AppendNegativeAuthority(d: DB, ghost rs: seq<RR>, rcode: nat, answers: seq<RR>, authority: seq<RR>, doBit: bool)
    returns (r: seq<RR>)
    requires Indexes(d, rs)
    ensures r == if rcode == NX_DOMAIN || (rcode == NO_ERROR && answers == [])
                 then authority + Pick(rs, RRset(d.zone, SOA)) +
                      (if doBit && d.dnssecEnabled then Pick(rs, SigOver(d.zone, WireType(SOA))) else [])
                 else authority
  {
    if rcode != NX_DOMAIN && !(rcode == NO_ERROR && |answers| == 0) {
      return authority;
    }
    IndexedRRset(d, rs, d.zone, SOA);
    hide Indexes, Pick, TypeList;
    var soas := LookupByType(d, d.zone, SOA);
    r := authority + soas;
    if doBit && d.dnssecEnabled {
      var sigs := SignaturesAt(d, rs, d.zone, WireType(SOA));
      r := r + sigs;
    }
  }
}
