/** Signing preserves meaning: replies to ordinary queries and the verdict of the sanity checks. */
module SigningTheorems {
  import opened Bytes
  import opened Names
  import opened Records
  import opened Database
  import opened Resolver
  import opened Sanity
  import opened Nsec3Chain
  import opened SignedZone

  /** The names lie one label below the zone, and that label is no wildcard. */
  ghost predicate HashNames(zone: Name, extra: set<Name>) {
    forall n :: n in extra ==> Below(n, zone) && |n| == |zone| + 1 && n[0] != STAR
  }

  lemma ChainOwnersAreHashNames(run: Run)
    requires Hash20(run.Hash())
    ensures HashNames(run.zone, ChainOwners(run))
  {
    hide Hasher, Nsec3Chain.HashLabel;
    forall n | n in ChainOwners(run)
      ensures Below(n, run.zone) && |n| == |run.zone| + 1 && n[0] != STAR
    {
      var i :| 0 <= i < |run.ns| && Nsec3Owner(run.zone, run.Hash()(run.ns[i])) == n;
      assert n[1..] == run.zone;
    }
  }

  /** Names beside the path to `q` add no existing ancestor of `q`. */
  lemma NodeKept(owners: set<Name>, extra: set<Name>, zone: Name, q: Name, p: Name)
    requires zone in owners && HashNames(zone, extra) && Below(q, p)
    requires forall n :: n in extra ==> !Below(q, n)
    ensures NodeExists(owners + extra, p) <==> NodeExists(owners, p)
  {
    forall k | k in extra && Below(k, p)
      ensures NodeExists(owners, p)
    {
      assert AtOrBelow(k, zone);
      AncestorsNest(k, p, zone);
      if zone != p {
        assert Below(zone, p);
      }
    }
    if NodeExists(owners, p) && p !in owners {
      var k :| k in owners && Below(k, p);
      assert k in owners + extra;
    }
  }

  lemma SameOrdinary(run: Run, t: RRType)
    requires run.Valid() && Ordinary(t)
    ensures SameType(run.Signed(), run.rs, t)
  {
    forall n
      ensures Pick(run.Signed(), RRset(n, t)) == Pick(run.rs, RRset(n, t))
    {
      OrdinaryKept(run, RRset(n, t));
    }
  }

  /** The name falls to the wildcard at the apex, past an owner of the chain with nothing at or below it in the zone. */
  ghost predicate Shadowed(owners: set<Name>, extra: set<Name>, zone: Name, q: Name) {
    [STAR] + zone in owners && exists h :: h in extra && Below(q, h) && !NodeExists(owners, h)
  }

  /** Signing takes the name's answer away: it became an owner of the chain, or lies below one. */
  ghost predicate Lost(owners: set<Name>, extra: set<Name>, zone: Name, q: Name) {
    q !in owners && (q in extra || Shadowed(owners, extra, zone, q))
  }

  /** An owner of the chain above `q` is the child of the apex toward `q`. */
  lemma OneChainOwner(zone: Name, extra: set<Name>, q: Name, h: Name, k: Name)
    requires HashNames(zone, extra) && h in extra && k in extra && AtOrBelow(q, h) && AtOrBelow(q, k)
    ensures h == k
  {
  }

  /** Of the ancestors of `q`, only the chain owner above it can come into being. */
  lemma NodesAbove(owners: set<Name>, extra: set<Name>, zone: Name, q: Name, h: Name, p: Name)
    requires zone in owners && HashNames(zone, extra) && h in extra && Below(q, h) && Below(q, p)
    ensures NodeExists(owners + extra, p) <==> NodeExists(owners, p) || p == h
  {
    if NodeExists(owners, p) {
      assert forall k :: k in owners ==> k in owners + extra;
    }
    if p == h {
      assert h in owners + extra;
    } else if NodeExists(owners + extra, p) && p !in owners {
      if p in extra {
        OneChainOwner(zone, extra, q, h, p);
      }
      var k :| k in owners + extra && Below(k, p);
      if k in extra {
        ApexAbove(zone, q, h, k, p);
      }
    }
  }

  lemma ApexAbove(zone: Name, q: Name, h: Name, k: Name, p: Name)
    requires Below(h, zone) && Below(k, zone) && |k| == |zone| + 1 && Below(k, p) && Below(q, h) && Below(q, p)
    ensures p == zone || Below(zone, p)
  {
    AncestorsNest(k, p, zone);
  }

  /** Below a chain owner that was no node before, it is now the closest encloser, and has no wildcard. */
  lemma ShadowedWildcard(owners: set<Name>, extra: set<Name>, zone: Name, q: Name, h: Name)
    requires zone in owners && HashNames(zone, extra) && h in extra && Below(q, h) && !NodeExists(owners, h)
    ensures WildcardOwner(owners + extra, zone, q) == None
    ensures WildcardOwner(owners, zone, q) == if [STAR] + zone in owners then Some([STAR] + zone) else None
  {
    BelowTrans(q, h, zone);
    forall p | Below(q, p) && |h| < |p|
      ensures !NodeExists(owners, p) && !NodeExists(owners + extra, p)
    {
      NodesAbove(owners, extra, zone, q, h, p);
      NothingDeeper(owners, q, h, p);
    }
    OnlyApexShorter(owners, extra, zone, q, h);
    ClosestEncloserSpec(owners + extra, zone, q, h);
    ClosestEncloserSpec(owners, zone, q, zone);
    assert |[STAR] + h| == |zone| + 2 && ([STAR] + h)[1..] == h;
    assert [STAR] + h in owners ==> NodeExists(owners, h) by { assert Below([STAR] + h, h); }
  }

  lemma NothingDeeper(owners: set<Name>, q: Name, h: Name, p: Name)
    requires !NodeExists(owners, h) && Below(q, h) && Below(q, p) && |h| < |p|
    ensures !NodeExists(owners, p)
  {
    AncestorsNest(q, h, p);
    forall k | k in owners && AtOrBelow(k, p)
      ensures NodeExists(owners, h)
    {
      BelowTrans(k, p, h);
    }
  }

  lemma OnlyApexShorter(owners: set<Name>, extra: set<Name>, zone: Name, q: Name, h: Name)
    requires zone in owners && HashNames(zone, extra) && h in extra && Below(q, h) && !NodeExists(owners, h)
    requires Below(q, zone)
    requires forall p :: Below(q, p) && |h| < |p| ==> !NodeExists(owners, p) && !NodeExists(owners + extra, p)
    ensures IsClosestEncloser(owners + extra, zone, q, h) && IsClosestEncloser(owners, zone, q, zone)
  {
    assert h in owners + extra;
    forall p | Below(q, p) && |zone| < |p|
      ensures !NodeExists(owners, p)
    {
      if |p| == |h| {
        SameLength(q, p, h);
      }
    }
  }

  /** Where no new chain owner stands above `q`, its closest encloser stays. */
  lemma EncloserStays(owners: set<Name>, extra: set<Name>, zone: Name, q: Name)
    requires zone in owners && HashNames(zone, extra)
    requires forall h :: h in extra && Below(q, h) ==> NodeExists(owners, h)
    ensures ClosestEncloser(owners + extra, zone, q) == ClosestEncloser(owners, zone, q)
  {
    if h :| h in extra && Below(q, h) {
      forall p | Below(q, p)
        ensures NodeExists(owners + extra, p) <==> NodeExists(owners, p)
      {
        NodesAbove(owners, extra, zone, q, h, p);
      }
    } else {
      forall p | Below(q, p)
        ensures NodeExists(owners + extra, p) <==> NodeExists(owners, p)
      {
        NodeKept(owners, extra, zone, q, p);
      }
    }
    SameEnclosers(owners, owners + extra, q, Floor(zone, q), |q| - 1);
  }

  lemma WildcardStays(owners: set<Name>, extra: set<Name>, zone: Name, q: Name)
    requires zone in owners && HashNames(zone, extra)
    requires forall h :: h in extra && Below(q, h) ==> NodeExists(owners, h)
    ensures WildcardOwner(owners + extra, zone, q) == WildcardOwner(owners, zone, q)
  {
    EncloserStays(owners, extra, zone, q);
    var ce := ClosestEncloser(owners, zone, q);
    if ce.Some? {
      assert ([STAR] + ce.value)[0] == STAR;
    }
  }

  lemma {:induction false} SameEnclosers(a: set<Name>, b: set<Name>, q: Name, floor: nat, len: int)
    requires len < |q| && forall p :: Below(q, p) ==> (NodeExists(a, p) <==> NodeExists(b, p))
    ensures EncloserUpTo(a, q, floor, len) == EncloserUpTo(b, q, floor, len)
    decreases len + 1
  {
    hide NodeExists;
    if floor <= len {
      assert Below(q, q[|q| - len..]);
      SameEnclosers(a, b, q, floor, len - 1);
    }
  }

  /** The same records of four types under more owners: the reply changes exactly where an answer is lost. */
  lemma RepliesUnderMoreOwners(a: seq<RR>, b: seq<RR>, extra: set<Name>, zone: Name, q: Name, t: RRType)
    requires SameType(a, b, t) && SameType(a, b, CNAME) && SameType(a, b, A) && SameType(a, b, AAAA)
    requires Owners(a) == Owners(b) + extra && zone in Owners(b) && HashNames(zone, extra)
    ensures Resolve(a, zone, q, t) == Resolve(b, zone, q, t) <==> !Lost(Owners(b), extra, zone, q)
  {
    hide SameType, Owners, Resolve, HashNames, WildcardOwner, NodeExists;
    var owners := Owners(b);
    if q !in owners && q in extra {
      NewOwnerNoData(a, b, zone, q, t);
    } else if q !in owners && exists h :: h in extra && Below(q, h) && !NodeExists(owners, h) {
      var h :| h in extra && Below(q, h) && !NodeExists(owners, h);
      ShadowedWildcard(owners, extra, zone, q, h);
      if [STAR] + zone in owners {
        WildcardGone(a, b, zone, q, t);
      } else {
        ResolveCongruence(a, b, zone, q, t);
      }
    } else if q in owners {
      OwnerCongruence(a, b, zone, q, t);
    } else {
      WildcardStays(owners, extra, zone, q);
      ResolveCongruence(a, b, zone, q, t);
    }
  }

  lemma WildcardGone(a: seq<RR>, b: seq<RR>, zone: Name, q: Name, t: RRType)
    requires q !in Owners(a) && q !in Owners(b)
    requires WildcardOwner(Owners(a), zone, q) == None && WildcardOwner(Owners(b), zone, q).Some?
    ensures Resolve(a, zone, q, t).rcode == NX_DOMAIN && Resolve(b, zone, q, t).rcode == NO_ERROR
  {
    hide Owners, Pick, WildcardOwner, Addresses, Targets;
  }

  lemma OwnerCongruence(a: seq<RR>, b: seq<RR>, zone: Name, q: Name, t: RRType)
    requires SameType(a, b, t) && SameType(a, b, CNAME) && SameType(a, b, A) && SameType(a, b, AAAA)
    requires q in Owners(a) && q in Owners(b)
    ensures Resolve(a, zone, q, t) == Resolve(b, zone, q, t)
  {
    hide Pick, Owners, Addresses, Targets;
    AddressesSame(a, b, Targets(Pick(a, RRset(q, t))));
    AddressesSame(a, b, Targets(Pick(a, RRset(q, CNAME))));
    assert Pick(a, RRset(q, t)) == Pick(b, RRset(q, t)) && Pick(a, RRset(q, CNAME)) == Pick(b, RRset(q, CNAME));
  }

  /**
   Every name, inside or outside the zone, at, below or beside the chain: for an ordinary type signing keeps rcode,
   answers with their order, additional records and effective owner, if and only if the name's answer is not lost.
   */
  lemma SigningReplies(run: Run, q: Name, t: RRType)
    requires run.Valid() && run.zone in Owners(run.rs) && Ordinary(t)
    ensures Resolve(run.Signed(), run.zone, q, t) == Resolve(run.rs, run.zone, q, t) <==>
            !Lost(Owners(run.rs), ChainOwners(run), run.zone, q)
  {
    assert Hash20(run.Hash());
    hide SameType, Owners, Resolve, Run.Signed, Run.Valid, ChainOwners, HashNames, Lost;
    SignedOwners(run);
    ChainOwnersAreHashNames(run);
    SameOrdinary(run, t);
    SameOrdinary(run, CNAME);
    SameOrdinary(run, A);
    SameOrdinary(run, AAAA);
    RepliesUnderMoreOwners(run.Signed(), run.rs, ChainOwners(run), run.zone, q, t);
  }

  /** In particular at every owner of the zone, and at every name not at or below an owner of the chain. */
  lemma SigningKeepsReplies(run: Run, q: Name, t: RRType)
    requires run.Valid() && run.zone in Owners(run.rs) && Ordinary(t)
    requires q in Owners(run.rs) || forall n :: n in ChainOwners(run) ==> !AtOrBelow(q, n)
    ensures Resolve(run.Signed(), run.zone, q, t) == Resolve(run.rs, run.zone, q, t)
  {
    SigningReplies(run, q, t);
    assert AtOrBelow(q, q);
    hide Owners, Resolve, Run.Signed, Run.Valid, ChainOwners;
  }

  lemma NewOwnerNoData(a: seq<RR>, b: seq<RR>, zone: Name, q: Name, t: RRType)
    requires SameType(a, b, t) && SameType(a, b, CNAME) && q in Owners(a) && q !in Owners(b)
    ensures Resolve(a, zone, q, t) == NoData(q)
    ensures Resolve(a, zone, q, t) != Resolve(b, zone, q, t)
  {
    OwnerOfRRset(b, q, t);
    OwnerOfRRset(b, q, CNAME);
    hide Owners, Pick, ClosestEncloser;
    assert Pick(a, RRset(q, t)) == Pick(b, RRset(q, t)) == [];
    assert Pick(a, RRset(q, CNAME)) == Pick(b, RRset(q, CNAME)) == [];
  }

  /** At an owner of the chain that the zone did not have, NODATA replaces what was there. */
  lemma SigningChangesChainOwner(run: Run, q: Name, t: RRType)
    requires run.Valid() && run.zone in Owners(run.rs) && Ordinary(t)
    requires q in ChainOwners(run) && q !in Owners(run.rs)
    ensures Resolve(run.Signed(), run.zone, q, t) == NoData(q)
    ensures Resolve(run.Signed(), run.zone, q, t) != Resolve(run.rs, run.zone, q, t)
  {
    SigningReplies(run, q, t);
    SignedOwners(run);
    SameOrdinary(run, t);
    SameOrdinary(run, CNAME);
    hide SameType, Owners, Resolve, Run.Signed, ChainOwners, Lost;
    NewOwnerNoData(run.Signed(), run.rs, run.zone, q, t);
  }

  /** Below such an owner, NXDOMAIN replaces what the wildcard at the apex gave. */
  lemma SigningShadowsWildcard(run: Run, q: Name, h: Name, t: RRType)
    requires run.Valid() && run.zone in Owners(run.rs) && Ordinary(t)
    requires h in ChainOwners(run) && Below(q, h) && !NodeExists(Owners(run.rs), h) && [STAR] + run.zone in Owners(run.rs)
    ensures Resolve(run.Signed(), run.zone, q, t).rcode == NX_DOMAIN
    ensures Resolve(run.rs, run.zone, q, t).rcode == NO_ERROR
  {
    assert Hash20(run.Hash());
    hide Owners, Resolve, Run.Signed, Run.Valid, ChainOwners, HashNames, WildcardOwner;
    SignedOwners(run);
    ChainOwnersAreHashNames(run);
    ShadowedWildcard(Owners(run.rs), ChainOwners(run), run.zone, q, h);
    TooDeep(run.zone, ChainOwners(run), q, h);
    OwnerBelowExists(Owners(run.rs), q, h);
    WildcardGone(run.Signed(), run.rs, run.zone, q, t);
  }

  lemma TooDeep(zone: Name, extra: set<Name>, q: Name, h: Name)
    requires HashNames(zone, extra) && h in extra && Below(q, h)
    ensures q !in extra
  {
  }

  lemma OwnerBelowExists(owners: set<Name>, q: Name, h: Name)
    requires Below(q, h) && !NodeExists(owners, h)
    ensures q !in owners
  {
  }

  // ----- sanity checks

  lemma SameHops(a: seq<RR>, b: seq<RR>, n: Name)
    requires SameType(a, b, CNAME) && SameType(a, b, A) && SameType(a, b, AAAA)
    ensures Hop(a, n) == Hop(b, n) && (HasAddress(a, n) <==> HasAddress(b, n))
  {
    hide Pick;
    assert Pick(a, RRset(n, CNAME)) == Pick(b, RRset(n, CNAME));
    assert Pick(a, RRset(n, A)) == Pick(b, RRset(n, A));
    assert Pick(a, RRset(n, AAAA)) == Pick(b, RRset(n, AAAA));
  }

  lemma {:induction false} SameChase(a: seq<RR>, b: seq<RR>, zone: Name, target: Name, k: nat)
    requires SameType(a, b, CNAME) && SameType(a, b, A) && SameType(a, b, AAAA)
    ensures ChasesIn(a, zone, target, k) <==> ChasesIn(b, zone, target, k)
    decreases k
  {
    hide SameType, Hop, HasAddress;
    SameHops(a, b, target);
    if k > 0 && Hop(b, target).Some? {
      SameChase(a, b, zone, Hop(b, target).value, k - 1);
    }
  }

  lemma SameChases(a: seq<RR>, b: seq<RR>, zone: Name, target: Name)
    requires SameType(a, b, CNAME) && SameType(a, b, A) && SameType(a, b, AAAA)
    ensures Chases(a, zone, target) <==> Chases(b, zone, target)
  {
    hide SameType, ChasesIn;
    forall k: nat
      ensures ChasesIn(a, zone, target, k) <==> ChasesIn(b, zone, target, k)
    {
      SameChase(a, b, zone, target, k);
    }
  }

  lemma SameCnamesChase(a: seq<RR>, b: seq<RR>, zone: Name)
    requires SameType(a, b, CNAME) && SameType(a, b, A) && SameType(a, b, AAAA)
    requires Pick(a, OfType(CNAME)) == Pick(b, OfType(CNAME))
    ensures CnamesChase(a, zone) <==> CnamesChase(b, zone)
  {
    hide SameType, Chases, Pick, InZone;
    forall n
      ensures CnameFine(a, zone, n) <==> CnameFine(b, zone, n)
    {
      SameChases(a, b, zone, n);
    }
    hide CnameFine;
  }

  lemma SameNsAddressed(a: seq<RR>, b: seq<RR>)
    requires SameType(a, b, CNAME) && SameType(a, b, A) && SameType(a, b, AAAA)
    requires Pick(a, OfType(NS)) == Pick(b, OfType(NS))
    ensures NsAddressed(a) <==> NsAddressed(b)
  {
    hide SameType, Pick, HasAddress, NsOf;
    forall n
      ensures HasAddress(a, n) <==> HasAddress(b, n)
    {
      SameHops(a, b, n);
    }
  }

  /** What the verdict depends on. */
  lemma VerdictCongruence(a: seq<RR>, b: seq<RR>, zone: Name)
    requires SameType(a, b, CNAME) && SameType(a, b, A) && SameType(a, b, AAAA)
    requires Pick(a, OfType(SOA)) == Pick(b, OfType(SOA)) && Pick(a, OfType(NS)) == Pick(b, OfType(NS))
    requires Pick(a, OfType(CNAME)) == Pick(b, OfType(CNAME))
    requires Pick(b, RRset(zone, CNAME)) == [] ==> (CnamesAlone(a) <==> CnamesAlone(b))
    ensures Verdict(a, zone) == Verdict(b, zone)
  {
    hide SameType, Pick, CnamesAlone, CnamesChase, NsAddressed, UniqueCnames, NoSelfReference, MnameServed;
    SameCnamesChase(a, b, zone);
    SameNsAddressed(a, b);
    SameListChecks(a, b);
    SameAt(a, b, zone, CNAME);
  }

  lemma SameAt(a: seq<RR>, b: seq<RR>, n: Name, t: RRType)
    requires SameType(a, b, t)
    ensures Pick(a, RRset(n, t)) == Pick(b, RRset(n, t))
  {
    hide Pick;
  }

  lemma SameListChecks(a: seq<RR>, b: seq<RR>)
    requires Pick(a, OfType(NS)) == Pick(b, OfType(NS)) && Pick(a, OfType(CNAME)) == Pick(b, OfType(CNAME))
    ensures UniqueCnames(a) <==> UniqueCnames(b)
    ensures NoSelfReference(a) <==> NoSelfReference(b)
    ensures forall m :: MnameServed(a, m) <==> MnameServed(b, m)
  {
    hide Pick, NsOf, CnameOf;
  }

  /** Beside a CNAME the check lets stand what signing adds below the apex, and no other type than CNAME. */
  lemma CompatibleExactly(t: RRType)
    ensures CnameCompatible(t) <==> t == CNAME || (!Ordinary(t) && t != DNSKEY)
  {
  }

  /** Signing gives a CNAME owner no company that the check objects to, unless it is the apex. */
  lemma SameOtherData(run: Run, n: Name)
    requires run.Valid() && n != run.zone
    ensures OtherData(run.Signed(), n) <==> OtherData(run.rs, n)
  {
    AddedSplit(run);
    FlattenPermutes(run.zone, run.rs, run.types);
    forall p | p in run.Added() && p.name == n
      ensures CnameCompatible(p.rtype)
    {
      AddedMember(run, p);
    }
    var flat := run.Flat();
    forall p
      ensures p in flat <==> p in run.rs
    {
      MultisetMember(flat, run.rs, p);
    }
    hide Run.Signed, Run.Added, Run.Flat, Run.Valid;
    assert forall p :: p in run.Signed() <==> p in flat || p in run.Added();
  }

  lemma SameAlone(run: Run)
    requires run.Valid() && Pick(run.rs, RRset(run.zone, CNAME)) == []
    ensures CnamesAlone(run.Signed()) <==> CnamesAlone(run.rs)
  {
    OrdinaryKept(run, OfType(CNAME));
    hide Run.Signed, OtherData, Pick;
    forall r | r in Pick(run.rs, OfType(CNAME))
      ensures OtherData(run.Signed(), r.name) <==> OtherData(run.rs, r.name)
    {
      PickMember(run.rs, OfType(CNAME), r);
      PickMember(run.rs, RRset(run.zone, CNAME), r);
      SameOtherData(run, r.name);
    }
  }

  /** A zone passes the sanity checks before signing exactly when it does after, and fails for the same reason. */
  lemma SigningKeepsVerdict(run: Run)
    requires run.Valid()
    ensures Verdict(run.Signed(), run.zone) == Verdict(run.rs, run.zone)
  {
    hide Run.Signed, SameType, Pick, CnamesAlone, Verdict;
    OrdinaryKept(run, OfType(SOA));
    OrdinaryKept(run, OfType(NS));
    OrdinaryKept(run, OfType(CNAME));
    SameOrdinary(run, CNAME);
    SameOrdinary(run, A);
    SameOrdinary(run, AAAA);
    if Pick(run.rs, RRset(run.zone, CNAME)) == [] {
      SameAlone(run);
    }
    VerdictCongruence(run.Signed(), run.rs, run.zone);
  }
}
