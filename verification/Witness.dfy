/** A zone of three records, signed, served and asked: the empty non-terminal that gets no proof, put together and run through. */
module Witness {
  import opened Bytes
  import opened Names
  import opened Records
  import opened Database
  import opened Resolver
  import opened SigningBytes
  import opened Signing
  import opened Nsec3Chain
  import opened Nsec3Proof
  import opened SignedZone
  import opened SignatureTheorems
  import opened DenialTheorems

  /** An SOA at the apex, a.b and the wildcard below it, and nothing at b. */
  function ThreeRecords(zone: Name, soa: Opts, a: Label, b: Label, addr: Bytes): (rs: seq<RR>) {
    [RR(0, zone, SOA, 300, soa), RR(1, [a, b] + zone, A, 300, OptsA(addr)), RR(2, [STAR] + zone, A, 300, OptsA(addr))]
  }

  lemma ThreeFacts(zone: Name, soa: Opts, a: Label, b: Label, addr: Bytes)
    ensures var rs := ThreeRecords(zone, soa, a, b, addr);
      NoDup(rs) && DnssecFree(rs) && Owners(rs) == {zone, [a, b] + zone, [STAR] + zone}
  {
    var rs := ThreeRecords(zone, soa, a, b, addr);
    assert rs[..2] == [rs[0], rs[1]] && rs[..2][..1] == [rs[0]] && rs[..1][..0] == [];
    assert NoDup(rs[..1]) && NoDup(rs[..2]);
    NoDupAppend(rs[..2], rs[2]);
    assert rs == rs[..2] + [rs[2]];
    assert rs[0] in rs && rs[1] in rs && rs[2] in rs;
  }

  /** With keys and primitives that never refuse, every zone with a record can be signed. */
  lemma AlwaysSigns(run: Run)
    requires Hash20(run.Hash()) && run.ZoneSigned() != []
    requires forall k :: k in run.keys ==> Supported(k.algorithm)
    requires forall k, b :: run.env.sign(k, b).Some?
    ensures run.Signs()
  {
    hide Run.Keyed, Run.ZoneSigned, Run.ChainRRs, Run.Param, SignedBytes, SigHeader, SigFields;
    forall times, rrset: seq<RR>, t | rrset != []
      ensures AllSign(run.env, times, run.zone, rrset, Signers(run.keys, t))
    {
      SignersFrom(run.keys, t);
    }
    hide AllSign;
  }

  lemma SignersFrom(keys: seq<SigningKey>, t: RRType)
    ensures forall k :: k in Signers(keys, t) ==> k in keys
  {
    RoleFrom(keys, true);
    RoleFrom(keys, false);
  }

  lemma {:induction false} RoleFrom(keys: seq<SigningKey>, ksk: bool)
    ensures forall k :: k in KeysBy(keys, ksk) ==> k in keys
    decreases |keys|
  {
    if keys != [] {
      RoleFrom(keys[..|keys| - 1], ksk);
    }
  }

  lemma StillThere(run: Run)
    requires IsOrder(Index(run.zone, run.rs), run.types) && NoDup(run.rs) && run.rs != []
    ensures run.ZoneSigned() != []
  {
    FlattenPermutes(run.zone, run.rs, run.types);
    hide SigList, DnskeyRRs, Flatten, Dedup;
  }

  lemma Unrefused(run: Run)
    requires Hash20(run.Hash()) && IsOrder(Index(run.zone, run.rs), run.types) && NoDup(run.rs) && run.rs != []
    ensures (forall k :: k in run.keys ==> Supported(k.algorithm)) && (forall k, b :: run.env.sign(k, b).Some?) ==> run.Signs()
  {
    StillThere(run);
    hide Run.Signs, Run.ZoneSigned, IsOrder, NoDup, Index;
    if (forall k :: k in run.keys ==> Supported(k.algorithm)) && (forall k, b :: run.env.sign(k, b).Some?) {
      AlwaysSigns(run);
    }
  }

  /** What a slave does with the signed database and a query for x.b. */
  method Ask(e: DB, ghost run: Run, sha: Bytes -> Bytes, a: Label, b: Label, x: Label)
    returns (rcode: nat, proof: Result<EncloserProof, ProofError>)
    requires run.Valid() && run.zone != [] && DnssecFree(run.rs) && sha == run.env.sha
    requires e == Index(run.zone, run.Signed()).(dnssecEnabled := true)
    requires x != a && a != STAR && b != STAR && Owners(run.rs) == {run.zone, [a, b] + run.zone, [STAR] + run.zone}
    ensures Injective(run.Hash(), Involved(Owners(run.rs), [x, b] + run.zone)) ==> rcode == NX_DOMAIN && proof == Err(NoWildcard)
  {
    HashOf(run);
    assert Hash20(run.Hash());
    SignedServes(run, e);
    hide Index, Owners, Hasher, DnssecFree, Run.Signed, Run.Hash, Run.Valid, Injective, Involved, Hash20, ProofFor, Resolve,
         IsRebuild, Rebuildable, Serves, Run.ChainRRs, Run.Param, Indexes;
    ServedLists(run, e);
    ServedRebuilds(run, e);
    var q := [x, b] + e.zone;
    var reply := LookupRRset(e, run.Signed(), q, A);
    rcode := reply.rcode;
    var c := RebuildNSEC3Chain(e);
    RebuiltParams(e, c.value);
    proof := ClosestEncloserProof(c.value, sha, q, e.zone, e);
    if Injective(run.Hash(), Involved(Owners(run.rs), q)) {
      EntDefeatsProof(run, e, c.value, a, b, x, A);
    }
  }

  lemma SignedServes(run: Run, e: DB)
    requires Hash20(run.Hash()) && e == Index(run.zone, run.Signed()).(dnssecEnabled := true)
    ensures Serves(e, run) && Indexes(e, run.Signed()) && e.zone == run.zone
  {
    hide Run.Signed;
  }

  lemma RebuiltParams(e: DB, c: Chain)
    requires IsRebuild(e, c)
    ensures c.params == ParamsIn(e)
  {
  }

  /**
   Signs the three records, serves the result as a slave does, and asks for x.b. Signing succeeds with primitives that
   never refuse; then, if the few hashes involved are distinct, the name is denied and no proof is found.
   */
  method EntWitness(env: Env, zone: Name, keys: seq<SigningKey>, soa: Opts, a: Label, b: Label, x: Label, addr: Bytes)
    returns (signed: Option<DB>, rcode: nat, proof: Result<EncloserProof, ProofError>)
    requires zone != [] && x != a && a != STAR && b != STAR && ValidKeys(keys) && Hash20(Hasher(env.sha, DEFAULT_PARAMS))
    ensures (forall k :: k in keys ==> Supported(k.algorithm)) && (forall k, b :: env.sign(k, b).Some?) ==> signed.Some?
    ensures signed.Some? && Injective(Hasher(env.sha, DEFAULT_PARAMS),
                                      Involved({zone, [a, b] + zone, [STAR] + zone}, [x, b] + zone)) ==>
      rcode == NX_DOMAIN && proof == Err(NoWildcard)
  {
    var rs := ThreeRecords(zone, soa, a, b, addr);
    ThreeFacts(zone, soa, a, b, addr);
    assert |rs| == 3;
    hide ThreeRecords, Index, Owners, Hasher, NoDup, DnssecFree, Run.Signed, Run.Hash, Run.Valid, Run.Signs, Injective, Involved,
         Hash20, ValidKeys, IsOrder, Supported;
    rcode, proof := NO_ERROR, Err(EmptyChain);
    var d := NewDB(zone, rs);
    IndexIsIndexes(zone, rs);
    ghost var run;
    signed, run := SignZone(env, d, rs, keys, 3);
    HashOf(run);
    Unrefused(run);
    if signed.Some? {
      rcode, proof := Ask(signed.value, run, env.sha, a, b, x);
    }
  }
}
