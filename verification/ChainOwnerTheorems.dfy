/** Every signed zone has an owner of the chain with nothing of the zone at or below it, and what follows from it. */
module ChainOwnerTheorems {
  import opened Bytes
  import opened Names
  import opened Records
  import opened Database
  import opened Resolver
  import opened Nsec3Chain
  import opened Nsec3Proof
  import opened SignedZone
  import opened SigningTheorems
  import opened DenialTheorems
  import Base32

  // ----- as many chain owners as owners

  ghost function ChainOwnersUpTo(run: Run, n: nat): (s: set<Name>)
    requires Hash20(run.Hash()) && n <= |run.ns|
  {
    set i | 0 <= i < n :: Nsec3Owner(run.zone, run.Hash()(run.ns[i]))
  }

  lemma OwnerNamesDistinct(zone: Name, a: Bytes, b: Bytes)
    requires |a| == 20 && |b| == 20 && Nsec3Owner(zone, a) == Nsec3Owner(zone, b)
    ensures a == b
  {
    assert Nsec3Owner(zone, a)[0] == HashLabel(a) && Nsec3Owner(zone, b)[0] == HashLabel(b);
    hide Base32.Encode;
    Base32.EncodeInjective(a, b);
  }

  lemma {:induction false} CountChainOwners(run: Run, n: nat)
    requires Hash20(run.Hash()) && n <= |run.ns| && NoDup(run.ns) && Injective(run.Hash(), Elems(run.ns))
    ensures |ChainOwnersUpTo(run, n)| == n
    decreases n
  {
    hide Nsec3Owner, Run.Hash;
    if n > 0 {
      var last := Nsec3Owner(run.zone, run.Hash()(run.ns[n - 1]));
      CountChainOwners(run, n - 1);
      assert ChainOwnersUpTo(run, n) == ChainOwnersUpTo(run, n - 1) + {last};
      forall i | 0 <= i < n - 1
        ensures Nsec3Owner(run.zone, run.Hash()(run.ns[i])) != last
      {
        NoDupPair(run.ns, i, n - 1);
        assert run.ns[i] in Elems(run.ns) && run.ns[n - 1] in Elems(run.ns);
        if Nsec3Owner(run.zone, run.Hash()(run.ns[i])) == last {
          OwnerNamesDistinct(run.zone, run.Hash()(run.ns[i]), run.Hash()(run.ns[n - 1]));
        }
      }
    }
  }

  lemma {:induction false} CountNoDup<T>(s: seq<T>)
    requires NoDup(s)
    ensures |Elems(s)| == |s|
    decreases |s|
  {
    if s != [] {
      var init, last := s[..|s| - 1], s[|s| - 1];
      assert s == init + [last];
      ElemsAppend(init, last);
      CountNoDup(init);
    }
  }

  lemma AsMany(run: Run)
    requires run.Valid() && run.zone in Owners(run.rs) && Injective(run.Hash(), Elems(run.ns))
    ensures |ChainOwners(run)| == |Owners(run.rs)|
  {
    ChainNames(run);
    CountNoDup(run.ns);
    CountChainOwners(run, |run.ns|);
    assert ChainOwners(run) == ChainOwnersUpTo(run, |run.ns|);
    hide Owners, Elems, NoDup, Injective;
  }

  // ----- an owner for each chain owner that is a node, and the apex besides

  lemma {:induction false} NodesUseOwners(owners: set<Name>, extra: set<Name>, zone: Name)
    requires HashNames(zone, extra) && forall h :: h in extra ==> NodeExists(owners, h)
    ensures |extra| <= |owners - {zone}|
    decreases |extra|
  {
    if extra != {} {
      var h :| h in extra;
      var k := OwnerAt(owners, h);
      forall g | g in extra - {h}
        ensures NodeExists(owners - {k}, g)
      {
        var w := OwnerAt(owners, g);
        if w == k {
          SameLength(k, g, h);
        }
        StillNode(owners - {k}, w, g);
      }
      NodesUseOwners(owners - {k}, extra - {h}, zone);
      assert owners - {k} - {zone} == owners - {zone} - {k};
    }
  }

  lemma OwnerAt(owners: set<Name>, h: Name) returns (k: Name)
    requires NodeExists(owners, h)
    ensures k in owners && AtOrBelow(k, h)
  {
    if h in owners {
      k := h;
    } else {
      k :| k in owners && Below(k, h);
    }
  }

  lemma StillNode(owners: set<Name>, w: Name, g: Name)
    requires w in owners && AtOrBelow(w, g)
    ensures NodeExists(owners, g)
  {
  }

  /** With distinct hashes there is always an owner of the chain that is no node of the unsigned zone. */
  lemma NewChainOwner(run: Run) returns (h: Name)
    requires run.Valid() && run.zone in Owners(run.rs) && Injective(run.Hash(), Owners(run.rs))
    ensures Hash20(run.Hash()) && h in ChainOwners(run) && !NodeExists(Owners(run.rs), h) && h !in Owners(run.rs)
  {
    assert Hash20(run.Hash());
    ChainNames(run);
    hide Run.Valid, Owners, ChainOwners, HashNames, Injective, Elems, Run.Hash;
    AsMany(run);
    ChainOwnersAreHashNames(run);
    h := Fresh(Owners(run.rs), ChainOwners(run), run.zone);
  }

  lemma Fresh(owners: set<Name>, extra: set<Name>, zone: Name) returns (h: Name)
    requires zone in owners && HashNames(zone, extra) && |extra| == |owners|
    ensures h in extra && !NodeExists(owners, h) && h !in owners
  {
    if forall g :: g in extra ==> NodeExists(owners, g) {
      NodesUseOwners(owners, extra, zone);
      assert false;
    }
    h :| h in extra && !NodeExists(owners, h);
  }

  // ----- what follows, for every zone

  /** No signed zone keeps every reply: at some name signing changes it for every ordinary type. */
  lemma NoZoneKeepsAll(run: Run) returns (q: Name)
    requires run.Valid() && run.zone in Owners(run.rs) && Injective(run.Hash(), Owners(run.rs))
    ensures forall t :: Ordinary(t) ==> Resolve(run.Signed(), run.zone, q, t) != Resolve(run.rs, run.zone, q, t)
  {
    q := NewChainOwner(run);
    hide Resolve, Run.Signed, Run.Valid, Owners, ChainOwners, Injective, Run.Hash;
    forall t | Ordinary(t)
      ensures Resolve(run.Signed(), run.zone, q, t) != Resolve(run.rs, run.zone, q, t)
    {
      SigningChangesChainOwner(run, q, t);
    }
  }

  /** Whatever type is asked for, the name is answered NXDOMAIN, and no records of the chain deny it at its closest encloser. */
  ghost predicate Undenied(run: Run, q: Name, h: Name)
    requires Hash20(run.Hash()) && Below(q, h)
  {
    && (forall t :: Resolve(run.Signed(), run.zone, q, t).rcode == NX_DOMAIN)
    && IsClosestEncloser(Owners(run.Signed()), run.zone, q, h)
    && (forall r :: !DeniesAt(r, run, q, h))
  }

  lemma UndeniedBelow(run: Run, q: Name, h: Name)
    requires run.Valid() && run.zone in Owners(run.rs)
    requires h in ChainOwners(run) && Below(q, h) && !NodeExists(Owners(run.rs), h)
    ensures Undenied(run, q, h)
  {
    assert Hash20(run.Hash());
    hide Resolve, Run.Signed, Run.Valid, Owners, ChainOwners, Run.Hash, IsClosestEncloser, DeniesAt, NodeExists;
    forall t
      ensures Resolve(run.Signed(), run.zone, q, t).rcode == NX_DOMAIN
    {
      ChainOwnerDefeatsProof(run, q, h, t, Err(NoRecord));
    }
    forall r
      ensures !DeniesAt(r, run, q, h)
    {
      ChainOwnerDefeatsProof(run, q, h, A, r);
    }
    ChainOwnerDefeatsProof(run, q, h, A, Err(NoRecord));
  }

  /** Every signed zone has such names: all those below some owner of its chain. */
  lemma EveryZoneHasUndenied(run: Run) returns (h: Name)
    requires run.Valid() && run.zone in Owners(run.rs) && Injective(run.Hash(), Owners(run.rs))
    ensures Hash20(run.Hash()) && h in ChainOwners(run)
    ensures forall q :: Below(q, h) ==> Undenied(run, q, h)
  {
    hide Run.Valid, Owners, ChainOwners, Injective, Run.Hash, Undenied, NodeExists, Below;
    h := NewChainOwner(run);
    forall q | Below(q, h)
      ensures Undenied(run, q, h)
    {
      UndeniedBelow(run, q, h);
    }
  }
}
