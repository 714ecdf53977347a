/** `signDB`: the seven steps that turn a zone into a signed zone, and what the steps add. */
module SignedZone {
  import opened Bytes
  import opened Names
  import opened Records
  import opened Database
  import opened Sorting
  import opened Signing
  import opened Nsec3Chain

  const DNSKEY_TTL: nat := 3600

  /** Types that signing never adds. */
  predicate Ordinary(t: RRType) {
    t != DNSKEY && t != RRSIG && t != NSEC3 && t != NSEC3PARAM
  }

  /**
   One run of the pipeline over the list `rs`: `types` and `order` are the map orders met by `AllRecords` and
   `SignDB`, `ns` the owner names in hash order, and new records get addresses from `alloc` on.
   */
  datatype Run = Run(env: Env, zone: Name, keys: seq<SigningKey>, rs: seq<RR>, types: seq<RRType>,
                     order: seq<RRsetKey>, ns: seq<Name>, alloc: nat) {
    ghost function Hash(): (h: Name -> Bytes) { Hasher(env.sha, DEFAULT_PARAMS) }

    /** Step 3: the flattened zone and one DNSKEY per key. */
    ghost function Flat(): (list: seq<RR>) { Dedup(Flatten(Index(zone, rs), types)) }

    ghost function KeyRRs(): (list: seq<RR>) { DnskeyRRs(zone, keys, alloc + |Flat()|) }

    ghost function Keyed(): (list: seq<RR>) { Flat() + KeyRRs() }

    /** Step 4: signatures over every RRset so far. */
    ghost function Sigs(): (list: seq<RR>) { SigList(env, zone, Keyed(), order, keys, alloc + |Keyed()|) }

    ghost function ZoneSigned(): (list: seq<RR>) { Keyed() + Sigs() }

    /** Step 5: the chain over all owner names so far, and its parameters. */
    ghost function ChainRRs(): (list: seq<RR>)
      requires Hash20(Hash())
    {
      ChainRecords(Index(zone, ZoneSigned()), DEFAULT_PARAMS, Hash(), ns, alloc + |ZoneSigned()|)
    }

    ghost function Param(): (r: RR) {
      ParamRR(alloc + |ZoneSigned()| + |ns|, zone, SoaTTL(Index(zone, ZoneSigned())), DEFAULT_PARAMS)
    }

    ghost function Chained(): (list: seq<RR>)
      requires Hash20(Hash())
    {
      ZoneSigned() + ChainRRs() + [Param()]
    }

    /** Step 6: signatures over the chain, record by record, and over the parameters. */
    ghost function ChainSigs(): (list: seq<RR>)
      requires Hash20(Hash())
    {
      SigSingles(env, zone, ChainRRs(), Signers(keys, NSEC3), alloc + |Chained()|)
    }

    ghost function ParamSigs(): (list: seq<RR>)
      requires Hash20(Hash())
    {
      SigBlock(env, env.chainTimes, zone, [Param()], Signers(keys, NSEC3), alloc + |Chained()| + |ChainSigs()|)
    }

    ghost function Signed(): (list: seq<RR>)
      requires Hash20(Hash())
    {
      Chained() + ChainSigs() + ParamSigs()
    }

    ghost function Added(): (list: seq<RR>)
      requires Hash20(Hash())
    {
      KeyRRs() + Sigs() + (ChainRRs() + [Param()] + ChainSigs() + ParamSigs())
    }

    /** Every signature of the pipeline can be made, and there is a name to chain. */
    ghost predicate Signs()
      requires Hash20(Hash())
    {
      && SetsSign(env, zone, Keyed(), keys) && ZoneSigned() != []
      && ChainSigns(env, zone, ChainRRs(), keys)
      && AllSign(env, env.chainTimes, zone, [Param()], Signers(keys, NSEC3))
    }

    /** Types and RRsets come up in orders the maps can give. */
    ghost predicate Ordered() {
      && NoDup(rs) && IsOrder(Index(zone, rs), types) && Hash20(Hash())
      && NoDup(order) && (forall k :: k in order <==> k.1 != RRSIG && Pick(Keyed(), RRset(k.0, k.1)) != [])
    }

    /** The choices are ones the maps can make. */
    ghost predicate Valid() {
      && Ordered()
      && NoDup(ns) && Elems(ns) == Owners(ZoneSigned()) && SortedBy(Hash(), ns)
    }
  }

  /** Every record of the chain can be signed on its own. */
  ghost predicate ChainSigns(env: Env, zone: Name, rs: seq<RR>, keys: seq<SigningKey>) {
    forall i :: 0 <= i < |rs| ==> AllSign(env, env.chainTimes, zone, [rs[i]], Signers(keys, NSEC3))
  }

  function DnskeyRRs(zone: Name, keys: seq<SigningKey>, id: nat): (rs: seq<RR>)
    ensures |rs| == |keys|
  {
    seq(|keys|, i requires 0 <= i < |keys| =>
      RR(id + i, zone, DNSKEY, DNSKEY_TTL, OptsDNSKEY(keys[i].flags, 3, keys[i].algorithm, keys[i].publicKey)))
  }

  /** Each record of the list signed on its own. */
  function SigSingles(env: Env, zone: Name, rs: seq<RR>, keys: seq<SigningKey>, id: nat): (sigs: seq<RR>) {
    if rs == [] then []
    else
      var before := SigSingles(env, zone, rs[..|rs| - 1], keys, id);
      before + SigBlock(env, env.chainTimes, zone, [rs[|rs| - 1]], keys, id + |before|)
  }

  method KeyRecords(zone: Name, keys: seq<SigningKey>, id: nat) returns (rs: seq<RR>)
    ensures rs == DnskeyRRs(zone, keys, id)
  {
    rs := [];
    var i := 0;
    while i < |keys|
      invariant 0 <= i <= |keys|
      invariant rs == DnskeyRRs(zone, keys, id)[..i]
    {
      var k := keys[i];
      rs := rs + [RR(id + i, zone, DNSKEY, DNSKEY_TTL, OptsDNSKEY(k.flags, 3, k.algorithm, k.publicKey))];
      i := i + 1;
    }
  }

  method SignEach(env: Env, zone: Name, rs: seq<RR>, keys: seq<SigningKey>, id: nat) returns (r: Option<seq<RR>>)
    ensures r.Some? ==> r.value == SigSingles(env, zone, rs, keys, id)
    ensures r.Some? <==> forall i :: 0 <= i < |rs| ==> AllSign(env, env.chainTimes, zone, [rs[i]], keys)
  {
    hide SigBlock, Signature, AllSign;
    var result := [];
    var i := 0;
    while i < |rs|
      invariant 0 <= i <= |rs|
      invariant result == SigSingles(env, zone, rs[..i], keys, id)
      invariant forall j :: 0 <= j < i ==> AllSign(env, env.chainTimes, zone, [rs[j]], keys)
    {
      var sigs := SignWithAll(env, env.chainTimes, zone, [rs[i]], keys, id + |result|);
      if sigs.None? {
        return None;
      }
      assert rs[..i + 1][..i] == rs[..i];
      result := result + sigs.value;
      i := i + 1;
    }
    assert rs[..i] == rs;
    r := Some(result);
  }

  /** Step 6: the chain record by record, then its parameters. */
  method SignChain(env: Env, zone: Name, chain: seq<RR>, param: RR, keys: seq<SigningKey>, id: nat)
    returns (chainSigs: Option<seq<RR>>, paramSigs: seq<RR>)
    requires ValidKeys(keys)
    ensures chainSigs.Some? <==> ChainSigns(env, zone, chain, keys) && AllSign(env, env.chainTimes, zone, [param], Signers(keys, NSEC3))
    ensures chainSigs.Some? ==> chainSigs.value == SigSingles(env, zone, chain, Signers(keys, NSEC3), id)
    ensures chainSigs.Some? ==>
      paramSigs == SigBlock(env, env.chainTimes, zone, [param], Signers(keys, NSEC3), id + |chainSigs.value|)
  {
    hide SigSingles, SigBlock, Signers, AllSign, ChainSigns;
    var zsks := ChainKeys(keys);
    ChainSignsWith(env, zone, chain, keys, zsks);
    chainSigs := SignEach(env, zone, chain, zsks, id);
    paramSigs := [];
    if chainSigs.Some? {
      var sigs := SignWithAll(env, env.chainTimes, zone, [param], zsks, id + |chainSigs.value|);
      if sigs.None? {
        chainSigs := None;
      } else {
        paramSigs := sigs.value;
      }
    }
  }

  /** Steps 3 and 4: one DNSKEY per key, and the signatures over every RRset; the run's chain is still open. */
  method SignSets(env: Env, d0: DB, ghost rs: seq<RR>, keys: seq<SigningKey>, alloc: nat)
    returns (records: Option<seq<RR>>, ghost run: Run)
    requires d0 == Index(d0.zone, rs) && NoDup(rs) && Hash20(Hasher(env.sha, DEFAULT_PARAMS))
    ensures run == Run(env, d0.zone, keys, rs, run.types, run.order, [], alloc)
    ensures run.Ordered()
    ensures records.Some? <==> SetsSign(env, run.zone, run.Keyed(), keys)
    ensures records.Some? ==> records.value == run.ZoneSigned()
  {
    var zone := d0.zone;
    hide Index, SigList, Dedup, Flatten, DnskeyRRs, NoDup, Pick, SetsSign, IsOrder, Hash20, Hasher;
    ghost var types, order;
    var all;
    all, types := AllRecords(d0);
    var keyRRs := KeyRecords(zone, keys, alloc + |all|);
    all := all + keyRRs;
    var d := NewDB(zone, all);
    IndexIsIndexes(zone, all);
    var rrsigs;
    rrsigs, order := SignDB(d, all, env, keys, alloc + |all|);
    run := Run(env, zone, keys, rs, types, order, [], alloc);
    assert all == run.Keyed();
    records := None;
    if rrsigs.Some? {
      records := Some(all + rrsigs.value);
    }
  }

  /** Choosing the chain's order does not touch what came before. */
  lemma ChainLeft(run: Run, ns: seq<Name>)
    ensures var r := run.(ns := ns);
      && r.Hash() == run.Hash() && r.Keyed() == run.Keyed() && r.ZoneSigned() == run.ZoneSigned()
      && (run.Ordered() ==> r.Ordered())
  {
    hide SigList, Dedup, Flatten, Index, DnskeyRRs, NoDup, IsOrder, Hash20, Pick;
  }

  lemma ChainParts(run: Run)
    requires Hash20(run.Hash())
    ensures run.ChainRRs() == ChainRecords(Index(run.zone, run.ZoneSigned()), DEFAULT_PARAMS, run.Hash(), run.ns, run.alloc + |run.ZoneSigned()|)
    ensures run.Param() == ParamRR(run.alloc + |run.ZoneSigned()| + |run.ns|, run.zone, SoaTTL(Index(run.zone, run.ZoneSigned())), DEFAULT_PARAMS)
    ensures run.Hash() == Hasher(run.env.sha, DEFAULT_PARAMS)
    ensures run.Chained() == run.ZoneSigned() + run.ChainRRs() + [run.Param()]
    ensures run.Signed() == run.Chained() + run.ChainSigs() + run.ParamSigs()
    ensures run.ChainSigs() == SigSingles(run.env, run.zone, run.ChainRRs(), Signers(run.keys, NSEC3), run.alloc + |run.Chained()|)
    ensures run.ParamSigs() == SigBlock(run.env, run.env.chainTimes, run.zone, [run.Param()], Signers(run.keys, NSEC3),
                                        run.alloc + |run.Chained()| + |run.ChainSigs()|)
  {
    hide ChainRecords, ParamRR, SoaTTL, Index, Run.ZoneSigned, SigSingles, SigBlock, Signers;
  }

  /**
   `signDB` behind the key loading: `records` grows and the database is rebuilt step by step. It succeeds exactly when
   every signature can be made and there is a name to chain.
   */
  method SignZone(env: Env, d0: DB, ghost rs: seq<RR>, keys: seq<SigningKey>, alloc: nat)
    returns (r: Option<DB>, ghost run: Run)
    requires d0 == Index(d0.zone, rs) && NoDup(rs) && Hash20(Hasher(env.sha, DEFAULT_PARAMS)) && ValidKeys(keys)
    ensures run.env == env && run.zone == d0.zone && run.keys == keys && run.rs == rs && run.alloc == alloc
    ensures r.Some? ==> run.Valid() && r.value == Index(run.zone, run.Signed()).(dnssecEnabled := true)
    ensures run.Ordered() && (SetsSign(env, run.zone, run.Keyed(), keys) ==> run.Valid()) && (r.Some? <==> run.Signs())
  {
    hide Index, ChainRecords, SigSingles, SigBlock, Signers, Hasher, ParamRR, SoaTTL, NoDup, Pick, Owners, Elems, SortedBy,
         Hash20, SetsSign, AllSign, ChainSigns, IsOrder, Run.Hash, Run.Keyed, Run.ZoneSigned, Run.ChainRRs, Run.Param,
         Run.ChainSigs, Run.ParamSigs, Run.Chained, Run.Signed, Run.Ordered, Run.Valid;
    var zone := d0.zone;
    var zoneSigned;
    zoneSigned, run := SignSets(env, d0, rs, keys, alloc);
    HashOf(run);
    if zoneSigned.None? {
      return None, run;
    }
    var records := zoneSigned.value;
    var d := NewDB(zone, records);
    var built;
    ghost var ns;
    built, ns := BuildNSEC3Chain(d, env.sha, DEFAULT_PARAMS, alloc + |records|);
    ChainLeft(run, ns);
    run := run.(ns := ns);
    HashOf(run);
    ChainParts(run);
    OwnersOfIndex(zone, records);
    NoOwners(records);
    WholeRun(run);
    if built.Err? {
      return None, run;
    }
    var chain, param := built.value.0, built.value.1;
    records := records + chain.records;
    records := records + [param];
    var chainSigs, paramSigs := SignChain(env, zone, chain.records, param, keys, alloc + |records|);
    if chainSigs.None? {
      return None, run;
    }
    records := records + chainSigs.value;
    records := records + paramSigs;
    d := NewDB(zone, records);
    r := Some(d.(dnssecEnabled := true));
  }

  /** A run with its chain ordered is a whole one. */
  lemma WholeRun(run: Run)
    requires run.Ordered() && NoDup(run.ns) && Elems(run.ns) == Owners(run.ZoneSigned()) && SortedBy(run.Hash(), run.ns)
    ensures run.Valid()
  {
    hide Run.Ordered, Run.ZoneSigned, Run.Hash, NoDup, Elems, Owners, SortedBy;
  }

  lemma HashOf(run: Run)
    ensures run.Hash() == Hasher(run.env.sha, DEFAULT_PARAMS)
  {
  }

  lemma NoOwners(rs: seq<RR>)
    ensures Owners(rs) == {} <==> rs == []
  {
    if rs != [] {
      assert rs[0].name in Owners(rs);
    }
  }

  lemma ChainSignsWith(env: Env, zone: Name, rs: seq<RR>, keys: seq<SigningKey>, zsks: seq<SigningKey>)
    requires zsks == Signers(keys, NSEC3)
    ensures ChainSigns(env, zone, rs, keys) <==> forall i :: 0 <= i < |rs| ==> AllSign(env, env.chainTimes, zone, [rs[i]], zsks)
  {
    hide AllSign, Signers;
  }

  lemma IndexIsIndexes(zone: Name, rs: seq<RR>)
    ensures Indexes(Index(zone, rs), rs) && Index(zone, rs).zone == zone
  {
  }

  lemma OwnersOfIndex(zone: Name, rs: seq<RR>)
    ensures Index(zone, rs).byName.Keys == Owners(rs) && Index(zone, rs).zone == zone
  {
  }

  // ----- what signing adds

  lemma AddedSplit(run: Run)
    requires Hash20(run.Hash())
    ensures run.Signed() == run.Flat() + run.Added()
    ensures run.Signed() == run.ZoneSigned() + (run.ChainRRs() + [run.Param()] + run.ChainSigs() + run.ParamSigs())
  {
    hide ChainRecords, SigList, SigSingles, SigBlock, Dedup, Flatten;
    var f, k, s, c, p, cs, ps := run.Flat(), run.KeyRRs(), run.Sigs(), run.ChainRRs(), [run.Param()], run.ChainSigs(), run.ParamSigs();
    Regroup(f, k, s, c, p, cs, ps);
  }

  lemma Regroup<T>(f: seq<T>, k: seq<T>, s: seq<T>, c: seq<T>, p: seq<T>, cs: seq<T>, ps: seq<T>)
    ensures f + k + s + c + p + cs + ps == f + (k + s + (c + p + cs + ps))
    ensures f + k + s + c + p + cs + ps == f + k + s + (c + p + cs + ps)
  {
    Assoc(f, k + s, c + p + cs + ps);
    Assoc(f, k, s);
    Assoc(f + k + s, c + p + cs, ps);
    Assoc(f + k + s, c + p, cs);
    Assoc(f + k + s, c, p);
  }

  lemma BlockMember(env: Env, times: Times, zone: Name, rrset: seq<RR>, keys: seq<SigningKey>, id: nat, r: RR)
    requires rrset != [] && r in SigBlock(env, times, zone, rrset, keys, id)
    ensures r.rtype == RRSIG && r.name == rrset[0].name && r.opts.RRType() == RRSIG
  {
    hide SigRR;
    var block := SigBlock(env, times, zone, rrset, keys, id);
    var j :| 0 <= j < |block| && block[j] == r;
  }

  lemma {:induction false} SigListMember(env: Env, zone: Name, rs: seq<RR>, order: seq<RRsetKey>, keys: seq<SigningKey>, id: nat, r: RR)
    requires r in SigList(env, zone, rs, order, keys, id)
    ensures r.rtype == RRSIG && r.name in Owners(rs) && r.opts.RRType() == RRSIG
    decreases |order|
  {
    hide SigBlock, Signers;
    var before, k := SigList(env, zone, rs, order[..|order| - 1], keys, id), order[|order| - 1];
    if r in before {
      SigListMember(env, zone, rs, order[..|order| - 1], keys, id, r);
    } else {
      var rrset := Pick(rs, RRset(k.0, k.1));
      OwnerOfRRset(rs, k.0, k.1);
      PickedOneOwner(rs, k.0, k.1);
      BlockMember(env, env.zoneTimes, zone, rrset, Signers(keys, k.1), id + |before|, r);
    }
  }

  lemma {:induction false} SinglesMember(env: Env, zone: Name, rs: seq<RR>, keys: seq<SigningKey>, id: nat, r: RR)
    requires r in SigSingles(env, zone, rs, keys, id)
    ensures r.rtype == RRSIG && r.name in Owners(rs) && r.opts.RRType() == RRSIG
    decreases |rs|
  {
    hide SigBlock;
    var init, last := rs[..|rs| - 1], rs[|rs| - 1];
    var before := SigSingles(env, zone, init, keys, id);
    assert rs == init + [last];
    if r in before {
      SinglesMember(env, zone, init, keys, id, r);
    } else {
      BlockMember(env, env.chainTimes, zone, [last], keys, id + |before|, r);
    }
  }

  ghost function ChainOwners(run: Run): (s: set<Name>)
    requires Hash20(run.Hash())
  {
    set i | 0 <= i < |run.ns| :: Nsec3Owner(run.zone, run.Hash()(run.ns[i]))
  }

  lemma ChainMember(run: Run, r: RR)
    requires Hash20(run.Hash()) && r in run.ChainRRs()
    ensures r.rtype == NSEC3 && r.opts.OptsNSEC3? && r.name in ChainOwners(run)
  {
    hide TypesAt, NameList, SoaTTL, Hasher, Nsec3Owner;
    var recs := run.ChainRRs();
    var i :| 0 <= i < |recs| && recs[i] == r;
    var d := Index(run.zone, run.ZoneSigned());
    assert r == RecordAt(d, DEFAULT_PARAMS, run.Hash(), run.ns, run.alloc + |run.ZoneSigned()|, i);
    assert d.zone == run.zone;
  }

  lemma KeyMember(run: Run, r: RR)
    requires r in run.KeyRRs()
    ensures r.rtype == DNSKEY == r.opts.RRType() && r.name == run.zone
  {
    hide Run.Flat;
  }

  lemma SigMember(run: Run, r: RR)
    requires r in run.Sigs()
    ensures r.rtype == RRSIG == r.opts.RRType() && (r.name == run.zone || r.name in Owners(run.Flat()))
  {
    hide SigList, Run.Flat, Run.KeyRRs;
    SigListMember(run.env, run.zone, run.Keyed(), run.order, run.keys, run.alloc + |run.Keyed()|, r);
    OwnersConcat(run.Flat(), run.KeyRRs());
    if r.name in Owners(run.KeyRRs()) {
      var k :| k in run.KeyRRs() && k.name == r.name;
      KeyMember(run, k);
    }
  }

  lemma ChainSigMember(run: Run, r: RR)
    requires Hash20(run.Hash()) && r in run.ChainSigs()
    ensures r.rtype == RRSIG == r.opts.RRType() && r.name in ChainOwners(run)
  {
    hide SigSingles, Signers, ChainOwners, Run.ChainRRs, Run.Chained;
    SinglesMember(run.env, run.zone, run.ChainRRs(), Signers(run.keys, NSEC3), run.alloc + |run.Chained()|, r);
    var c :| c in run.ChainRRs() && c.name == r.name;
    ChainMember(run, c);
  }

  lemma ParamMember(run: Run, r: RR)
    requires Hash20(run.Hash()) && (r == run.Param() || r in run.ParamSigs())
    ensures (r.rtype == NSEC3PARAM || r.rtype == RRSIG) && r.rtype == r.opts.RRType() && r.name == run.zone
  {
    hide SigBlock, Signers, Run.Chained, Run.ChainSigs, Run.ZoneSigned, SoaTTL, Index;
    if r in run.ParamSigs() {
      BlockMember(run.env, run.env.chainTimes, run.zone, [run.Param()], Signers(run.keys, NSEC3),
                  run.alloc + |run.Chained()| + |run.ChainSigs()|, r);
    }
  }

  /** The owners and types of everything that signing adds. */
  lemma AddedMember(run: Run, r: RR)
    requires Hash20(run.Hash()) && r in run.Added()
    ensures !Ordinary(r.rtype) && r.rtype == r.opts.RRType()
    ensures r.name == run.zone || r.name in Owners(run.Flat()) || r.name in ChainOwners(run)
    ensures r.rtype == DNSKEY ==> r.name == run.zone
  {
    hide Run.KeyRRs, Run.Sigs, Run.ChainRRs, Run.ChainSigs, Run.ParamSigs, Run.Param, Run.Flat, ChainOwners, Owners;
    if r in run.KeyRRs() {
      KeyMember(run, r);
    } else if r in run.Sigs() {
      SigMember(run, r);
    } else if r in run.ChainRRs() {
      ChainMember(run, r);
    } else if r in run.ChainSigs() {
      ChainSigMember(run, r);
    } else {
      ParamMember(run, r);
    }
  }

  /** RRsets of ordinary types come through signing unchanged, order included. */
  lemma OrdinaryKept(run: Run, w: Want)
    requires run.Valid() && (w.OfType? || w.RRset?) && Ordinary(w.t)
    ensures Pick(run.Signed(), w) == Pick(run.rs, w)
  {
    AddedSplit(run);
    forall r | r in run.Added()
      ensures !Match(w, r)
    {
      AddedMember(run, r);
    }
    hide Pick, Index, Flatten, Dedup, Run.Added, Run.Signed, ChainRecords;
    PickNone(run.Added(), w);
    PickConcat(run.Flat(), run.Added(), w);
    if w.OfType? {
      FlattenCount(run.zone, run.rs, run.types, w.t);
    } else {
      FlattenKeepsRRsets(run.zone, run.rs, run.types);
    }
  }

  lemma FlatOwners(run: Run)
    requires run.Valid()
    ensures Owners(run.Flat()) == Owners(run.rs)
  {
    FlattenPermutes(run.zone, run.rs, run.types);
  }

  lemma OwnersConcat(a: seq<RR>, b: seq<RR>)
    ensures Owners(a + b) == Owners(a) + Owners(b)
  {
    assert forall r :: r in a + b <==> r in a || r in b;
  }

  lemma OwnersWithin(rs: seq<RR>, s: set<Name>)
    requires forall r :: r in rs ==> r.name in s
    ensures Owners(rs) <= s
  {
  }

  /** The new owner names are those of the chain. */
  lemma SignedOwners(run: Run)
    requires run.Valid() && run.zone in Owners(run.rs)
    ensures Owners(run.Signed()) == Owners(run.rs) + ChainOwners(run)
  {
    assert Hash20(run.Hash());
    hide Owners, ChainOwners, Run.Added, Run.Signed, Run.Flat, Run.Valid;
    FlatOwners(run);
    forall r | r in run.Added()
      ensures r.name in Owners(run.rs) + ChainOwners(run)
    {
      AddedMember(run, r);
    }
    OwnersWithin(run.Added(), Owners(run.rs) + ChainOwners(run));
    forall n | n in ChainOwners(run)
      ensures n in Owners(run.Signed())
    {
      ChainOwnerServed(run, n);
    }
    AddedSplit(run);
    OwnersConcat(run.Flat(), run.Added());
  }

  /** The chain is over the owner names of the unsigned zone. */
  lemma ChainNames(run: Run)
    requires run.Valid() && run.zone in Owners(run.rs)
    ensures Elems(run.ns) == Owners(run.rs)
  {
    FlatOwners(run);
    forall r | r in run.ZoneSigned()
      ensures r.name in Owners(run.rs)
    {
      ZoneSignedOwner(run, r);
    }
    OwnersWithin(run.ZoneSigned(), Owners(run.rs));
    OwnersConcat(run.Flat(), run.KeyRRs());
    OwnersConcat(run.Keyed(), run.Sigs());
    hide Owners, Run.Flat, Run.KeyRRs, Run.Sigs;
  }

  lemma ZoneSignedOwner(run: Run, r: RR)
    requires run.Valid() && run.zone in Owners(run.rs) && r in run.ZoneSigned()
    ensures r.name in Owners(run.rs)
  {
    hide SigList, Dedup, Flatten;
    FlatOwners(run);
    if r in run.Sigs() {
      SigListMember(run.env, run.zone, run.Keyed(), run.order, run.keys, run.alloc + |run.Keyed()|, r);
    }
  }

  lemma ChainOwnerServed(run: Run, n: Name)
    requires Hash20(run.Hash()) && n in ChainOwners(run)
    ensures n in Owners(run.Signed()) && n in Owners(run.ChainRRs())
  {
    hide TypesAt, NameList, SoaTTL, Hasher, Nsec3Owner, SigList, SigSingles, SigBlock, Index;
    var i :| 0 <= i < |run.ns| && Nsec3Owner(run.zone, run.Hash()(run.ns[i])) == n;
    var r := run.ChainRRs()[i];
    assert Index(run.zone, run.ZoneSigned()).zone == run.zone by { OwnersOfIndex(run.zone, run.ZoneSigned()); }
    assert r.name == n;
    assert r in run.ChainRRs();
    assert r in run.Chained();
    assert r in run.Signed();
  }
}
