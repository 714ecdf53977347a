/** The closest-encloser proof for NXDOMAIN (section 8.3 of RFC 5155). */
module Nsec3Proof {
  import opened Bytes
  import opened Names
  import opened Records
  import opened Database
  import opened Sorting
  import opened Nsec3Ring
  import opened Nsec3Chain
  import Base32

  datatype EncloserProof = EncloserProof(closestEncloser: RR, nextCloser: RR, wildcardAtCE: RR)

  datatype ProofError = EmptyChain | IsApex | NotInZone | NoEncloser | QueriedExists | NoRecord | NoNextCloser | NoWildcard

  /** `buildCandidates`: the queried name and its ancestors below the zone, longest first. */
  method BuildCandidates(queried: Name, zone: Name) returns (candidates: seq<Name>)
    requires Below(queried, zone)
    ensures |candidates| == |queried| - |zone|
    ensures forall i :: 0 <= i < |candidates| ==> candidates[i] == queried[i..]
  {
    var labels := queried[..|queried| - |zone|];
    candidates := [];
    var i := 0;
    while i < |labels|
      invariant 0 <= i <= |labels| && |candidates| == i
      invariant forall j :: 0 <= j < i ==> candidates[j] == queried[j..]
    {
      var sub := labels[i..] + zone;
      assert sub == queried[i..];
      candidates := candidates + [sub];
      i := i + 1;
    }
  }

  /** The chain has an entry for the hash of `n`. */
  predicate Hit(c: Chain, hash: Name -> Bytes, n: Name) {
    Base32.Encode(hash(n)) in c.byHash
  }

  /** How many labels to cut off `q`, at least `i`, to reach the first hit not above the zone. */
  function CutToHit(c: Chain, hash: Name -> Bytes, q: Name, zone: Name, i: nat): (k: Option<nat>)
    ensures k.Some? ==> i <= k.value <= |q| - |zone|
    decreases |q| - i
  {
    if i > |q| - |zone| then None
    else if Hit(c, hash, q[i..]) then Some(i)
    else if i == |q| - |zone| then None
    else CutToHit(c, hash, q, zone, i + 1)
  }

  /** The three records for the closest encloser `k` labels up from `q`. */
  function ProofAt(c: Chain, hash: Name -> Bytes, q: Name, zone: Name, d: DB, k: nat): (r: Result<EncloserProof, ProofError>)
    requires 0 < k <= |q| && Hash20(hash)
  {
    var ceRR := Pick(TypeList(d, NSEC3), AtName(Nsec3Owner(zone, hash(q[k..]))));
    var nc := FirstCovering(c.records, hash(q[k - 1..]));
    var wc := FirstCovering(c.records, hash([STAR] + q[k..]));
    if ceRR == [] then Err(NoRecord)
    else if nc.None? then Err(NoNextCloser)
    else if wc.None? then Err(NoWildcard)
    else Ok(EncloserProof(ceRR[0], nc.value, wc.value))
  }

  /** The proof as a function of chain, database and name. */
  function ProofFor(c: Chain, hash: Name -> Bytes, q: Name, zone: Name, d: DB): (r: Result<EncloserProof, ProofError>)
    requires Hash20(hash)
  {
    if |c.byHash| == 0 then Err(EmptyChain)
    else if q == zone then Err(IsApex)
    else if zone == [] || !Below(q, zone) then Err(NotInZone)
    else match CutToHit(c, hash, q, zone, 0)
      case None => Err(NoEncloser)
      case Some(k) => if k == 0 then Err(QueriedExists) else ProofAt(c, hash, q, zone, d, k)
  }

  lemma CutStep(c: Chain, hash: Name -> Bytes, q: Name, zone: Name, i: nat)
    requires i <= |q| - |zone|
    ensures CutToHit(c, hash, q, zone, i) ==
      if Hit(c, hash, q[i..]) then Some(i)
      else if i == |q| - |zone| then None else CutToHit(c, hash, q, zone, i + 1)
  {
  }

  /** The search for the first candidate in the index. */
  method FindHit(c: Chain, sha: Bytes -> Bytes, q: Name, zone: Name, candidates: seq<Name>) returns (ceIdx: int)
    requires Below(q, zone) && |candidates| == |q| - |zone|
    requires forall i :: 0 <= i < |candidates| ==> candidates[i] == q[i..]
    ensures -1 <= ceIdx < |candidates|
    ensures var k := CutToHit(c, Hasher(sha, c.params), q, zone, 0);
      if ceIdx >= 0 then k == Some(ceIdx)
      else k == if Hit(c, Hasher(sha, c.params), zone) then Some(|candidates|) else None
  {
    ghost var hash := Hasher(sha, c.params);
    hide Hasher, CutToHit, Base32.Encode;
    var i := 0;
    while i < |candidates|
      invariant 0 <= i <= |candidates|
      invariant CutToHit(c, hash, q, zone, 0) == CutToHit(c, hash, q, zone, i)
    {
      var h := HashName(sha, candidates[i], c.params);
      CutStep(c, hash, q, zone, i);
      if Base32.Encode(h) in c.byHash {
        return i;
      }
      i := i + 1;
    }
    assert q[|candidates|..] == zone;
    CutStep(c, hash, q, zone, i);
    ceIdx := -1;
  }

  /** `ClosestEncloserProof`. */
  method ClosestEncloserProof(c: Chain, sha: Bytes -> Bytes, queried: Name, zone: Name, d: DB)
    returns (r: Result<EncloserProof, ProofError>)
    requires Hash20(Hasher(sha, c.params))
    ensures r == ProofFor(c, Hasher(sha, c.params), queried, zone, d)
  {
    ghost var hash := Hasher(sha, c.params);
    hide Hasher, Base32.Encode, CutToHit, FirstCovering, Pick, TypeList, HashLabel;
    if |c.byHash| == 0 {
      return Err(EmptyChain);
    }
    if queried == zone {
      return Err(IsApex);
    }
    if zone == [] || !Below(queried, zone) {
      return Err(NotInZone);
    }
    var candidates := BuildCandidates(queried, zone);
    assert queried[|candidates|..] == zone;
    var ceIdx := FindHit(c, sha, queried, zone, candidates);
    if ceIdx < 0 {
      var h := HashName(sha, zone, c.params);
      if Base32.Encode(h) !in c.byHash {
        return Err(NoEncloser);
      }
      ceIdx := |candidates|;
    }
    if ceIdx == 0 {
      return Err(QueriedExists);
    }
    var ceName := if ceIdx == |candidates| then zone else candidates[ceIdx];
    var ncName := candidates[ceIdx - 1];
    var ceHash := HashName(sha, ceName, c.params);
    var ceRR := LookupByType(d, Nsec3Owner(zone, ceHash), NSEC3);
    if |ceRR| == 0 {
      return Err(NoRecord);
    }
    var ncHash := HashName(sha, ncName, c.params);
    var nc := FindCovering(c, ncHash);
    if nc.None? {
      return Err(NoNextCloser);
    }
    var wildcardHash := HashName(sha, [STAR] + ceName, c.params);
    var wc := FindCovering(c, wildcardHash);
    if wc.None? {
      return Err(NoWildcard);
    }
    r := Ok(EncloserProof(ceRR[0], nc.value, wc.value));
  }

  // ----- what the proof is on a built chain

  /** Everything that was hashed on the way: the chain's names, the ancestors of `q` and their wildcards. */
  ghost function Involved(owners: set<Name>, q: Name): (s: set<Name>) {
    owners + (set i | 0 <= i <= |q| :: q[i..]) + (set i | 0 <= i <= |q| :: [STAR] + q[i..])
  }

  lemma InvolvedMembers(owners: set<Name>, q: Name, i: nat)
    requires i <= |q|
    ensures q[i..] in Involved(owners, q) && [STAR] + q[i..] in Involved(owners, q)
    ensures owners <= Involved(owners, q)
  {
  }

  lemma HitIsMember(d: DB, p: Params, hash: Name -> Bytes, ns: seq<Name>, alloc: nat, n: Name)
    requires Hash20(hash) && Injective(hash, Elems(ns) + {n})
    ensures var records := ChainRecords(d, p, hash, ns, alloc);
            Hit(Chain(p, records, ByHash(records)), hash, n) <==> n in Elems(ns)
  {
    hide ByHash, Base32.Encode, ChainRecords, OwnerKey, Injective;
    var records, key := ChainRecords(d, p, hash, ns, alloc), Base32.Encode(hash(n));
    forall i | 0 <= i < |ns|
      ensures OwnerKey(records[i].name) == key <==> ns[i] == n
    {
      EntryKey(d, p, hash, ns, alloc, i, n);
    }
    ByHashKey(records, key);
  }

  lemma EntryKey(d: DB, p: Params, hash: Name -> Bytes, ns: seq<Name>, alloc: nat, i: nat, n: Name)
    requires Hash20(hash) && Injective(hash, Elems(ns) + {n}) && i < |ns|
    ensures OwnerKey(ChainRecords(d, p, hash, ns, alloc)[i].name) == Base32.Encode(hash(n)) <==> ns[i] == n
  {
    hide Base32.Encode, TypesAt, NameList, SoaTTL;
    assert ChainRecords(d, p, hash, ns, alloc)[i] == RecordAt(d, p, hash, ns, alloc, i);
    assert ns[i] in Elems(ns) + {n} && n in Elems(ns) + {n};
    if Base32.Encode(hash(ns[i])) == Base32.Encode(hash(n)) {
      Base32.EncodeInjective(hash(ns[i]), hash(n));
    }
  }

  lemma MemberHash(hash: Name -> Bytes, ns: seq<Name>, n: Name)
    requires Injective(hash, Elems(ns) + {n})
    ensures hash(n) in Hashes(hash, ns) <==> n in Elems(ns)
  {
    if n in ns {
      var i :| 0 <= i < |ns| && ns[i] == n;
      assert Hashes(hash, ns)[i] == hash(n);
    }
    forall i | 0 <= i < |ns| && hash(ns[i]) == hash(n)
      ensures n in Elems(ns)
    {
      assert ns[i] in Elems(ns) + {n} && n in Elems(ns) + {n};
    }
  }

  /** `ce` is the longest of `q` and its ancestors, down to the zone, among the names `owners`. */
  ghost predicate LongestOwner(owners: set<Name>, zone: Name, q: Name, ce: Name) {
    && AtOrBelow(q, ce) && |zone| <= |ce| && ce in owners
    && forall i :: 0 <= i < |q| - |ce| ==> q[i..] !in owners
  }

  lemma {:induction false} CutFinds(d: DB, p: Params, hash: Name -> Bytes, ns: seq<Name>, alloc: nat, q: Name, zone: Name, k: nat, i: nat)
    requires Hash20(hash) && Injective(hash, Involved(Elems(ns), q))
    requires Below(q, zone) && i <= k <= |q| - |zone| && q[k..] in Elems(ns)
    requires forall j :: i <= j < k ==> q[j..] !in Elems(ns)
    ensures var records := ChainRecords(d, p, hash, ns, alloc);
            CutToHit(Chain(p, records, ByHash(records)), hash, q, zone, i) == Some(k)
    decreases k - i
  {
    hide ChainRecords, ByHash, Hit, Elems;
    InvolvedMembers(Elems(ns), q, i);
    HitIsMember(d, p, hash, ns, alloc, q[i..]);
    if i < k {
      CutFinds(d, p, hash, ns, alloc, q, zone, k, i + 1);
    }
  }

  /** The chain's own record for the owner `n`. */
  lemma OwnerRecord(d: DB, p: Params, hash: Name -> Bytes, ns: seq<Name>, alloc: nat, e: DB, k: nat)
    requires Hash20(hash) && StrictBy(hash, ns) && k < |ns|
    requires multiset(TypeList(e, NSEC3)) == multiset(ChainRecords(d, p, hash, ns, alloc))
    ensures var found := Pick(TypeList(e, NSEC3), AtName(Nsec3Owner(d.zone, hash(ns[k]))));
            found != [] && found[0] == ChainRecords(d, p, hash, ns, alloc)[k]
  {
    var records, list := ChainRecords(d, p, hash, ns, alloc), TypeList(e, NSEC3);
    var owner := Nsec3Owner(d.zone, hash(ns[k]));
    assert records[k] == RecordAt(d, p, hash, ns, alloc, k);
    assert records[k].name == owner;
    ChainSortedByOwner(d, p, hash, ns, alloc);
    hide ChainRecords, RecordAt, Pick, Nsec3Owner, TypeList;
    MultisetMember(records, list, records[k]);
    PickMember(list, AtName(owner), records[k]);
    var found := Pick(list, AtName(owner));
    PickMember(list, AtName(owner), found[0]);
    MultisetMember(records, list, found[0]);
    var j :| 0 <= j < |records| && records[j] == found[0];
    StrictNames(records, j, k);
  }

  lemma StrictNames(records: seq<RR>, j: nat, k: nat)
    requires StrictBy(NameKey, records) && j < |records| && k < |records| && records[j].name == records[k].name
    ensures j == k
  {
    CompareZero(NameKey(records[j]), NameKey(records[k]));
    CompareZero(NameKey(records[k]), NameKey(records[j]));
  }

  /** The three records of the proof are the right ones. */
  ghost predicate Proves(proof: EncloserProof, d: DB, p: Params, hash: Name -> Bytes, ns: seq<Name>, alloc: nat,
                         ce: Name, nextCloser: Name)
    requires Hash20(hash)
  {
    var records := ChainRecords(d, p, hash, ns, alloc);
    && (exists k :: 0 <= k < |ns| && ns[k] == ce && proof.closestEncloser == records[k])
    && proof.nextCloser in records && RecordCovers(proof.nextCloser, hash(nextCloser))
    && proof.wildcardAtCE in records && RecordCovers(proof.wildcardAtCE, hash([STAR] + ce))
  }

  lemma CoveringRecord(d: DB, p: Params, hash: Name -> Bytes, ns: seq<Name>, alloc: nat, n: Name)
    requires Hash20(hash) && StrictBy(hash, ns) && ns != [] && Injective(hash, Elems(ns) + {n})
    ensures var records := ChainRecords(d, p, hash, ns, alloc);
      if n in Elems(ns) then FirstCovering(records, hash(n)) == None
      else FirstCovering(records, hash(n)).Some? && FirstCovering(records, hash(n)).value in records &&
           RecordCovers(FirstCovering(records, hash(n)).value, hash(n))
  {
    hide ChainRecords, RecordCovers, Hashes, CoverIndex;
    MemberHash(hash, ns, n);
    CoveringExact(d, p, hash, ns, alloc, hash(n));
    if n !in Elems(ns) {
      ChainCovers(d, p, hash, ns, alloc, hash(n), CoverIndex(Hashes(hash, ns), hash(n)));
    }
  }

  lemma InjectivePart(hash: Name -> Bytes, big: set<Name>, small: set<Name>)
    requires Injective(hash, big) && small <= big
    ensures Injective(hash, small)
  {
  }

  /**
   The proof for a name outside the chain, on every zone: it fails exactly when the wildcard at the longest
   ancestor in the chain is itself in the chain, and otherwise consists of the right three records.
   */
  lemma ProofExact(d: DB, p: Params, hash: Name -> Bytes, ns: seq<Name>, alloc: nat, e: DB, q: Name, ce: Name)
    requires Hash20(hash) && StrictBy(hash, ns) && Injective(hash, Involved(Elems(ns), q))
    requires multiset(TypeList(e, NSEC3)) == multiset(ChainRecords(d, p, hash, ns, alloc))
    requires d.zone != [] && Below(q, d.zone) && q !in Elems(ns) && LongestOwner(Elems(ns), d.zone, q, ce)
    ensures var records := ChainRecords(d, p, hash, ns, alloc);
      var r := ProofFor(Chain(p, records, ByHash(records)), hash, q, d.zone, e);
      if [STAR] + ce in Elems(ns) then r == Err(NoWildcard)
      else r.Ok? && Proves(r.value, d, p, hash, ns, alloc, ce, q[|q| - |ce| - 1..])
  {
    hide ChainRecords, Pick, Involved, TypeList, FirstCovering, RecordCovers, CutToHit, ByHash, StrictBy;
    var records, k := ChainRecords(d, p, hash, ns, alloc), |q| - |ce|;
    assert q[k..] == ce && k > 0;
    InvolvedMembers(Elems(ns), q, k);
    InvolvedMembers(Elems(ns), q, k - 1);
    CutFinds(d, p, hash, ns, alloc, q, d.zone, k, 0);
    InjectivePart(hash, Involved(Elems(ns), q), Elems(ns) + {q[k - 1..]});
    InjectivePart(hash, Involved(Elems(ns), q), Elems(ns) + {[STAR] + ce});
    hide Injective;
    CoveringRecord(d, p, hash, ns, alloc, q[k - 1..]);
    CoveringRecord(d, p, hash, ns, alloc, [STAR] + ce);
    var m :| 0 <= m < |ns| && ns[m] == ce;
    OwnerRecord(d, p, hash, ns, alloc, e, m);
    NonEmptyIndex(records);
  }

  lemma NonEmptyIndex(records: seq<RR>)
    requires records != []
    ensures |ByHash(records)| > 0
  {
    ByHashKey(records, OwnerKey(records[0].name));
  }
}
