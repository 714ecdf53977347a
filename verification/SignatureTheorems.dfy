/** Every RRset of the signed zone carries exactly one RRSIG per key of its role, over exactly its records. */
module SignatureTheorems {
  import opened Bytes
  import opened Names
  import opened Records
  import opened Database
  import opened Sorting
  import opened Signing
  import opened Nsec3Chain
  import opened SignedZone

  /** The zone comes without signatures and without a chain of its own. */
  ghost predicate DnssecFree(rs: seq<RR>) {
    forall r :: r in rs ==> r.rtype != RRSIG && r.rtype != NSEC3 && r.rtype != NSEC3PARAM
  }

  ghost predicate DistinctNames(rs: seq<RR>) {
    forall i, j :: 0 <= i < j < |rs| ==> rs[i].name != rs[j].name
  }

  /** Records signed one by one: the signatures over a name are those of its one record. */
  lemma {:induction false} SinglesExact(env: Env, zone: Name, rs: seq<RR>, keys: seq<SigningKey>, id: nat, n: Name) returns (at: nat)
    requires DistinctNames(rs) && forall r :: r in rs ==> r.rtype == NSEC3
    ensures SinglesOver(SigSingles(env, zone, rs, keys, id), env, zone, Pick(rs, AtName(n)), keys, n, at)
    decreases |rs|
  {
    at := 0;
    if rs == [] {
      assert SigSingles(env, zone, rs, keys, id) == [];
    } else {
      var init, last := rs[..|rs| - 1], rs[|rs| - 1];
      assert rs == init + [last];
      at := SinglesExact(env, zone, init, keys, id, n);
      if last.name == n {
        PickNone(init, AtName(n));
      }
      at := SinglesStep(env, zone, init, last, keys, id, n, at);
      hide SinglesOver, SigSingles, Pick;
    }
  }

  ghost predicate SinglesOver(sigs: seq<RR>, env: Env, zone: Name, rrset: seq<RR>, keys: seq<SigningKey>, n: Name, at: nat) {
    Pick(sigs, SigOver(n, WireType(NSEC3))) ==
    if rrset == [] then [] else SigBlock(env, env.chainTimes, zone, rrset, keys, at)
  }

  lemma EmptyPick(w: Want)
    ensures Pick([], w) == []
  {
  }

  lemma SinglesStep(env: Env, zone: Name, init: seq<RR>, last: RR, keys: seq<SigningKey>, id: nat, n: Name, before: nat)
    returns (at: nat)
    requires last.rtype == NSEC3 && (last.name == n ==> Pick(init, AtName(n)) == [])
    requires SinglesOver(SigSingles(env, zone, init, keys, id), env, zone, Pick(init, AtName(n)), keys, n, before)
    ensures SinglesOver(SigSingles(env, zone, init + [last], keys, id), env, zone, Pick(init + [last], AtName(n)), keys, n, at)
  {
    hide SigBlock, Pick, WireType;
    var sigs := SigSingles(env, zone, init, keys, id);
    EmptyPick(AtName(n));
    var block := SigBlock(env, env.chainTimes, zone, [last], keys, id + |sigs|);
    assert (init + [last])[..|init|] == init;
    PickConcat(sigs, block, SigOver(n, WireType(NSEC3)));
    BlockMatches(env, env.chainTimes, zone, [last], keys, id + |sigs|, n, WireType(NSEC3));
    PickAppend(init, last, AtName(n));
    if last.name == n {
      assert Pick(init + [last], AtName(n)) == [last];
    } else {
      assert Pick(init + [last], AtName(n)) == Pick(init, AtName(n));
    }
    at := if last.name == n then id + |sigs| else before;
  }

  lemma Padded<T>(x: seq<T>)
    ensures x + [] + [] == x && [] + x + [] == x && [] + [] + x == x
  {
  }

  lemma NotOfType(rs: seq<RR>, n: Name, t: RRType)
    requires forall r :: r in rs ==> r.rtype != t
    ensures Pick(rs, RRset(n, t)) == []
  {
    PickNone(rs, RRset(n, t));
  }

  lemma NoSigs(rs: seq<RR>, n: Name, covered: nat)
    requires forall r :: r in rs ==> r.rtype != RRSIG
    ensures Pick(rs, SigOver(n, covered)) == []
  {
    PickNone(rs, SigOver(n, covered));
  }

  /** No signature of the chain covers another type. */
  lemma {:induction false} SinglesCover(env: Env, zone: Name, rs: seq<RR>, keys: seq<SigningKey>, id: nat, n: Name, covered: nat)
    requires covered != WireType(NSEC3) && forall r :: r in rs ==> r.rtype == NSEC3
    ensures Pick(SigSingles(env, zone, rs, keys, id), SigOver(n, covered)) == []
    decreases |rs|
  {
    if rs == [] {
      EmptyPick(SigOver(n, covered));
    } else {
      var init, last := rs[..|rs| - 1], rs[|rs| - 1];
      assert rs == init + [last];
      SinglesCover(env, zone, init, keys, id, n, covered);
      SinglesCoverStep(env, zone, init, last, keys, id, n, covered);
    }
  }

  lemma SinglesCoverStep(env: Env, zone: Name, init: seq<RR>, last: RR, keys: seq<SigningKey>, id: nat, n: Name, covered: nat)
    requires covered != WireType(NSEC3) && last.rtype == NSEC3
    requires Pick(SigSingles(env, zone, init, keys, id), SigOver(n, covered)) == []
    ensures Pick(SigSingles(env, zone, init + [last], keys, id), SigOver(n, covered)) == []
  {
    hide SigBlock, Pick, WireType;
    var sigs := SigSingles(env, zone, init, keys, id);
    assert (init + [last])[..|init|] == init;
    PickConcat(sigs, SigBlock(env, env.chainTimes, zone, [last], keys, id + |sigs|), SigOver(n, covered));
    BlockMatches(env, env.chainTimes, zone, [last], keys, id + |sigs|, n, covered);
  }

  // ----- the signed list by its parts

  ghost function Assemble(keyed: seq<RR>, sigs: seq<RR>, chain: seq<RR>, param: RR, chainSigs: seq<RR>, paramSigs: seq<RR>)
    : (list: seq<RR>)
  {
    keyed + sigs + chain + [param] + chainSigs + paramSigs
  }

  lemma PickSegments(keyed: seq<RR>, sigs: seq<RR>, chain: seq<RR>, param: RR, chainSigs: seq<RR>, paramSigs: seq<RR>, w: Want)
    ensures Pick(Assemble(keyed, sigs, chain, param, chainSigs, paramSigs), w) ==
      Pick(keyed, w) + Pick(sigs, w) + Pick(chain, w) + Pick([param], w) + Pick(chainSigs, w) + Pick(paramSigs, w)
  {
    hide Pick;
    PickConcat(keyed, sigs, w);
    PickConcat(keyed + sigs, chain, w);
    PickConcat(keyed + sigs + chain, [param], w);
    PickConcat(keyed + sigs + chain + [param], chainSigs, w);
    PickConcat(keyed + sigs + chain + [param] + chainSigs, paramSigs, w);
  }

  /** The parts as the pipeline makes them. */
  ghost predicate Parts(env: Env, zone: Name, keys: seq<SigningKey>, order: seq<RRsetKey>, ids: (nat, nat, nat),
                        keyed: seq<RR>, sigs: seq<RR>, chain: seq<RR>, param: RR, chainSigs: seq<RR>, paramSigs: seq<RR>) {
    && DnssecFree(keyed) && NoDup(order)
    && (forall k :: k in order <==> k.1 != RRSIG && Pick(keyed, RRset(k.0, k.1)) != [])
    && sigs == SigList(env, zone, keyed, order, keys, ids.0)
    && (forall r :: r in chain ==> r.rtype == NSEC3) && DistinctNames(chain)
    && param.rtype == NSEC3PARAM
    && chainSigs == SigSingles(env, zone, chain, Signers(keys, NSEC3), ids.1)
    && paramSigs == SigBlock(env, env.chainTimes, zone, [param], Signers(keys, NSEC3), ids.2)
    && (forall r :: r in sigs || r in chainSigs || r in paramSigs ==> r.rtype == RRSIG)
  }

  lemma SigSegments(env: Env, zone: Name, keys: seq<SigningKey>, order: seq<RRsetKey>, ids: (nat, nat, nat), keyed: seq<RR>,
                    sigs: seq<RR>, chain: seq<RR>, param: RR, chainSigs: seq<RR>, paramSigs: seq<RR>, n: Name, covered: nat)
    requires Parts(env, zone, keys, order, ids, keyed, sigs, chain, param, chainSigs, paramSigs)
    ensures Pick(Assemble(keyed, sigs, chain, param, chainSigs, paramSigs), SigOver(n, covered)) ==
      Pick(sigs, SigOver(n, covered)) + Pick(chainSigs, SigOver(n, covered)) + Pick(paramSigs, SigOver(n, covered))
  {
    var w := SigOver(n, covered);
    hide Pick, SigList, SigSingles, SigBlock, NoDup, Signers, Assemble;
    NoSigs(keyed, n, covered);
    NoSigs(chain, n, covered);
    NoSigs([param], n, covered);
    PickSegments(keyed, sigs, chain, param, chainSigs, paramSigs, w);
  }

  lemma RRsetSegments(env: Env, zone: Name, keys: seq<SigningKey>, order: seq<RRsetKey>, ids: (nat, nat, nat), keyed: seq<RR>,
                      sigs: seq<RR>, chain: seq<RR>, param: RR, chainSigs: seq<RR>, paramSigs: seq<RR>, n: Name, t: RRType)
    requires Parts(env, zone, keys, order, ids, keyed, sigs, chain, param, chainSigs, paramSigs) && t != RRSIG
    ensures Pick(Assemble(keyed, sigs, chain, param, chainSigs, paramSigs), RRset(n, t)) ==
      Pick(keyed, RRset(n, t)) + Pick(chain, RRset(n, t)) + Pick([param], RRset(n, t))
  {
    hide Pick, SigList, SigSingles, SigBlock, NoDup, Signers, Assemble;
    NotOfType(sigs, n, t);
    NotOfType(chainSigs, n, t);
    NotOfType(paramSigs, n, t);
    PickSegments(keyed, sigs, chain, param, chainSigs, paramSigs, RRset(n, t));
  }

  function TimesFor(env: Env, t: RRType): (times: Times) {
    if t == NSEC3 || t == NSEC3PARAM then env.chainTimes else env.zoneTimes
  }

  /** The RRSIGs over (n, t) in the list: one per key of the role, over the records of the list; none over no records. */
  ghost predicate SignedOnce(signed: seq<RR>, env: Env, zone: Name, keys: seq<SigningKey>, n: Name, t: RRType, at: nat) {
    var rrset := Pick(signed, RRset(n, t));
    Pick(signed, SigOver(n, WireType(t))) ==
    if rrset == [] then [] else SigBlock(env, TimesFor(env, t), zone, rrset, Signers(keys, t), at)
  }

  lemma ZoneSetSigned(env: Env, zone: Name, keys: seq<SigningKey>, order: seq<RRsetKey>, ids: (nat, nat, nat), keyed: seq<RR>,
                      sigs: seq<RR>, chain: seq<RR>, param: RR, chainSigs: seq<RR>, paramSigs: seq<RR>, n: Name, t: RRType)
    returns (at: nat)
    requires Parts(env, zone, keys, order, ids, keyed, sigs, chain, param, chainSigs, paramSigs)
    requires t != RRSIG && t != NSEC3 && t != NSEC3PARAM
    ensures SignedOnce(Assemble(keyed, sigs, chain, param, chainSigs, paramSigs), env, zone, keys, n, t, at)
  {
    hide Pick, SigList, SigSingles, SigBlock, NoDup, Signers, Assemble, WireType;
    SigSegments(env, zone, keys, order, ids, keyed, sigs, chain, param, chainSigs, paramSigs, n, WireType(t));
    RRsetSegments(env, zone, keys, order, ids, keyed, sigs, chain, param, chainSigs, paramSigs, n, t);
    NotOfType(chain, n, t);
    NotOfType([param], n, t);
    at := SigListExact(env, zone, keyed, order, keys, ids.0, n, t);
    assert (n, t) in order <==> Pick(keyed, RRset(n, t)) != [];
    if WireType(t) == WireType(NSEC3) {
      WireTypeInjective(t, NSEC3);
    }
    if WireType(t) == WireType(NSEC3PARAM) {
      WireTypeInjective(t, NSEC3PARAM);
    }
    SinglesCover(env, zone, chain, Signers(keys, NSEC3), ids.1, n, WireType(t));
    BlockMatches(env, env.chainTimes, zone, [param], Signers(keys, NSEC3), ids.2, n, WireType(t));
    Padded(Pick(sigs, SigOver(n, WireType(t))));
    Padded(Pick(keyed, RRset(n, t)));
  }

  lemma ChainSetSigned(env: Env, zone: Name, keys: seq<SigningKey>, order: seq<RRsetKey>, ids: (nat, nat, nat), keyed: seq<RR>,
                       sigs: seq<RR>, chain: seq<RR>, param: RR, chainSigs: seq<RR>, paramSigs: seq<RR>, n: Name)
    returns (at: nat)
    requires Parts(env, zone, keys, order, ids, keyed, sigs, chain, param, chainSigs, paramSigs)
    ensures SignedOnce(Assemble(keyed, sigs, chain, param, chainSigs, paramSigs), env, zone, keys, n, NSEC3, at)
  {
    assert WireType(NSEC3PARAM) != WireType(NSEC3);
    hide Pick, SigList, SigSingles, SigBlock, NoDup, Signers, Assemble, WireType;
    SigSegments(env, zone, keys, order, ids, keyed, sigs, chain, param, chainSigs, paramSigs, n, WireType(NSEC3));
    RRsetSegments(env, zone, keys, order, ids, keyed, sigs, chain, param, chainSigs, paramSigs, n, NSEC3);
    NotOfType(keyed, n, NSEC3);
    NotOfType([param], n, NSEC3);
    PickSame(chain, AtName(n), RRset(n, NSEC3));
    var none := SigListExact(env, zone, keyed, order, keys, ids.0, n, NSEC3);
    at := SinglesExact(env, zone, chain, Signers(keys, NSEC3), ids.1, n);
    BlockMatches(env, env.chainTimes, zone, [param], Signers(keys, NSEC3), ids.2, n, WireType(NSEC3));
    Padded(Pick(chainSigs, SigOver(n, WireType(NSEC3))));
    Padded(Pick(chain, RRset(n, NSEC3)));
  }

  lemma ParamSetSigned(env: Env, zone: Name, keys: seq<SigningKey>, order: seq<RRsetKey>, ids: (nat, nat, nat), keyed: seq<RR>,
                       sigs: seq<RR>, chain: seq<RR>, param: RR, chainSigs: seq<RR>, paramSigs: seq<RR>, n: Name)
    returns (at: nat)
    requires Parts(env, zone, keys, order, ids, keyed, sigs, chain, param, chainSigs, paramSigs)
    ensures SignedOnce(Assemble(keyed, sigs, chain, param, chainSigs, paramSigs), env, zone, keys, n, NSEC3PARAM, at)
  {
    assert WireType(NSEC3PARAM) != WireType(NSEC3) && Signers(keys, NSEC3) == Signers(keys, NSEC3PARAM);
    hide Pick, SigList, SigSingles, SigBlock, NoDup, Signers, Assemble, WireType;
    SigSegments(env, zone, keys, order, ids, keyed, sigs, chain, param, chainSigs, paramSigs, n, WireType(NSEC3PARAM));
    RRsetSegments(env, zone, keys, order, ids, keyed, sigs, chain, param, chainSigs, paramSigs, n, NSEC3PARAM);
    NotOfType(keyed, n, NSEC3PARAM);
    NotOfType(chain, n, NSEC3PARAM);
    EmptyPick(RRset(n, NSEC3PARAM));
    PickAppend([], param, RRset(n, NSEC3PARAM));
    assert [] + [param] == [param];
    var none := SigListExact(env, zone, keyed, order, keys, ids.0, n, NSEC3PARAM);
    SinglesCover(env, zone, chain, Signers(keys, NSEC3), ids.1, n, WireType(NSEC3PARAM));
    at := ids.2;
    BlockMatches(env, env.chainTimes, zone, [param], Signers(keys, NSEC3), at, n, WireType(NSEC3PARAM));
    Padded(Pick(paramSigs, SigOver(n, WireType(NSEC3PARAM))));
    Padded(Pick([param], RRset(n, NSEC3PARAM)));
  }

  // ----- the parts of a run

  lemma KeyedFree(run: Run)
    requires run.Valid() && DnssecFree(run.rs)
    ensures DnssecFree(run.Keyed())
  {
    FlattenPermutes(run.zone, run.rs, run.types);
    var flat := run.Flat();
    forall r | r in flat
      ensures r in run.rs
    {
      MultisetMember(flat, run.rs, r);
    }
    hide Run.Flat, Run.Valid;
    assert run.Keyed() == flat + run.KeyRRs();
  }

  lemma ChainDistinct(run: Run)
    requires run.Valid() && Injective(run.Hash(), Elems(run.ns))
    ensures DistinctNames(run.ChainRRs())
  {
    hide ChainRecords, NoDup, Elems, Run.ZoneSigned, Index, Hasher;
    HashesDistinct(run.Hash(), run.ns);
    ChainSortedByOwner(Index(run.zone, run.ZoneSigned()), DEFAULT_PARAMS, run.Hash(), run.ns, run.alloc + |run.ZoneSigned()|);
    NamesFromStrict(run.ChainRRs());
  }

  lemma NamesFromStrict(recs: seq<RR>)
    requires StrictBy(NameKey, recs)
    ensures DistinctNames(recs)
  {
    forall i, j | 0 <= i < j < |recs|
      ensures recs[i].name != recs[j].name
    {
      CompareZero(NameKey(recs[i]), NameKey(recs[j]));
    }
  }

  lemma SigTypes(run: Run, r: RR)
    requires Hash20(run.Hash()) && (r in run.Sigs() || r in run.ChainSigs() || r in run.ParamSigs())
    ensures r.rtype == RRSIG
  {
    hide SigList, SigSingles, SigBlock, ChainRecords, Run.ChainRRs, Run.Keyed, Run.Param, Run.Chained;
    if r in run.Sigs() {
      SigListMember(run.env, run.zone, run.Keyed(), run.order, run.keys, run.alloc + |run.Keyed()|, r);
    } else if r in run.ChainSigs() {
      SinglesMember(run.env, run.zone, run.ChainRRs(), Signers(run.keys, NSEC3), run.alloc + |run.Chained()|, r);
    } else {
      BlockMember(run.env, run.env.chainTimes, run.zone, [run.Param()], Signers(run.keys, NSEC3),
                  run.alloc + |run.Chained()| + |run.ChainSigs()|, r);
    }
  }

  lemma RunAssembled(run: Run)
    requires Hash20(run.Hash())
    ensures run.Signed() == Assemble(run.Keyed(), run.Sigs(), run.ChainRRs(), run.Param(), run.ChainSigs(), run.ParamSigs())
  {
    hide Run.Keyed, Run.Sigs, Run.ChainRRs, Run.Param, Run.ChainSigs, Run.ParamSigs;
  }

  lemma RunTypes(run: Run)
    requires Hash20(run.Hash())
    ensures forall r :: r in run.ChainRRs() ==> r.rtype == NSEC3
    ensures forall r :: r in run.Sigs() || r in run.ChainSigs() || r in run.ParamSigs() ==> r.rtype == RRSIG
    ensures run.Param().rtype == NSEC3PARAM
  {
    hide Run.Keyed, Run.Sigs, Run.ChainRRs, Run.ChainSigs, Run.ParamSigs, Run.ZoneSigned, SoaTTL;
    forall r | r in run.ChainRRs()
      ensures r.rtype == NSEC3
    {
      ChainMember(run, r);
    }
    forall r | r in run.Sigs() || r in run.ChainSigs() || r in run.ParamSigs()
      ensures r.rtype == RRSIG
    {
      SigTypes(run, r);
    }
  }

  lemma RunParts(run: Run) returns (ids: (nat, nat, nat))
    requires run.Valid() && DnssecFree(run.rs) && Injective(run.Hash(), Elems(run.ns))
    ensures Parts(run.env, run.zone, run.keys, run.order, ids, run.Keyed(), run.Sigs(), run.ChainRRs(), run.Param(),
                  run.ChainSigs(), run.ParamSigs())
  {
    hide SigList, SigSingles, SigBlock, Run.ChainRRs, Run.Keyed, Run.Param, Run.Chained, Run.ZoneSigned, Run.Hash, Injective,
         Signers, Pick, NoDup, DistinctNames, DnssecFree, IsOrder, Index, SortedBy, Elems, Owners;
    ids := (run.alloc + |run.Keyed()|, run.alloc + |run.Chained()|, run.alloc + |run.Chained()| + |run.ChainSigs()|);
    RunTypes(run);
    KeyedFree(run);
    ChainDistinct(run);
  }

  /** One RRSIG per key of the role, each over the very records that are served, for every RRset but RRSIG itself. */
  lemma EveryRRsetSigned(run: Run, n: Name, t: RRType) returns (at: nat)
    requires run.Valid() && DnssecFree(run.rs) && Injective(run.Hash(), Elems(run.ns)) && t != RRSIG
    ensures SignedOnce(run.Signed(), run.env, run.zone, run.keys, n, t, at)
  {
    var ids := RunParts(run);
    RunAssembled(run);
    hide SignedOnce, Parts, Assemble, Run.Signed, Run.Keyed, Run.Sigs, Run.ChainRRs, Run.Param, Run.ChainSigs,
         Run.ParamSigs;
    if t == NSEC3 {
      at := ChainSetSigned(run.env, run.zone, run.keys, run.order, ids, run.Keyed(), run.Sigs(), run.ChainRRs(), run.Param(),
                           run.ChainSigs(), run.ParamSigs(), n);
    } else if t == NSEC3PARAM {
      at := ParamSetSigned(run.env, run.zone, run.keys, run.order, ids, run.Keyed(), run.Sigs(), run.ChainRRs(), run.Param(),
                           run.ChainSigs(), run.ParamSigs(), n);
    } else {
      at := ZoneSetSigned(run.env, run.zone, run.keys, run.order, ids, run.Keyed(), run.Sigs(), run.ChainRRs(), run.Param(),
                          run.ChainSigs(), run.ParamSigs(), n, t);
    }
  }
}
