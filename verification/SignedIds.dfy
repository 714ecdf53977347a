/** Signing allocates every record it adds anew: the signed list names no record twice. */
module SignedIds {
  import opened Bytes
  import opened Names
  import opened Records
  import opened Database
  import opened Signing
  import opened Nsec3Chain
  import opened SignedZone

  /** Consecutive addresses from `id` on. */
  ghost predicate Consecutive(s: seq<RR>, id: nat) {
    forall i :: 0 <= i < |s| ==> s[i].id == id + i
  }

  lemma ConsecutiveConcat(a: seq<RR>, b: seq<RR>, id: nat)
    requires Consecutive(a, id) && Consecutive(b, id + |a|)
    ensures Consecutive(a + b, id)
  {
  }

  lemma {:induction false} ListNumbered(env: Env, zone: Name, rs: seq<RR>, order: seq<RRsetKey>, keys: seq<SigningKey>, id: nat)
    ensures Consecutive(SigList(env, zone, rs, order, keys, id), id)
    decreases |order|
  {
    hide SigRR, Pick, Signers;
    if order != [] {
      var init, k := order[..|order| - 1], order[|order| - 1];
      var before, rrset := SigList(env, zone, rs, init, keys, id), Pick(rs, RRset(k.0, k.1));
      ListNumbered(env, zone, rs, init, keys, id);
      if rrset != [] {
        var block := SigBlock(env, env.zoneTimes, zone, rrset, Signers(keys, k.1), id + |before|);
        ConsecutiveConcat(before, block, id);
      }
    }
  }

  lemma {:induction false} SinglesNumbered(env: Env, zone: Name, rs: seq<RR>, keys: seq<SigningKey>, id: nat)
    ensures Consecutive(SigSingles(env, zone, rs, keys, id), id)
    decreases |rs|
  {
    hide SigRR;
    if rs != [] {
      var init, last := rs[..|rs| - 1], rs[|rs| - 1];
      var before := SigSingles(env, zone, init, keys, id);
      SinglesNumbered(env, zone, init, keys, id);
      ConsecutiveConcat(before, SigBlock(env, env.chainTimes, zone, [last], keys, id + |before|), id);
    }
  }

  lemma ChainNumbered(run: Run)
    requires Hash20(run.Hash())
    ensures Consecutive(run.ChainRRs(), run.alloc + |run.ZoneSigned()|)
  {
    hide TypesAt, NameList, SoaTTL, Hasher, Nsec3Owner, Index, Run.ZoneSigned;
  }

  lemma Lengths(run: Run)
    requires Hash20(run.Hash())
    ensures |run.Keyed()| == |run.Flat()| + |run.KeyRRs()| && |run.ZoneSigned()| == |run.Keyed()| + |run.Sigs()|
    ensures |run.Chained()| == |run.ZoneSigned()| + |run.ChainRRs()| + 1 && |run.ChainRRs()| == |run.ns|
  {
    hide Run.Flat, Run.Sigs, Run.KeyRRs;
  }

  lemma PartsNumbered(run: Run)
    requires Hash20(run.Hash())
    ensures Consecutive(run.KeyRRs(), run.alloc + |run.Flat()|)
    ensures Consecutive(run.Sigs(), run.alloc + |run.Keyed()|)
    ensures Consecutive(run.ChainSigs(), run.alloc + |run.Chained()|)
  {
    hide Run.Flat, Run.Keyed, Run.ChainRRs, Run.Chained, SigList, SigSingles;
    ListNumbered(run.env, run.zone, run.Keyed(), run.order, run.keys, run.alloc + |run.Keyed()|);
    SinglesNumbered(run.env, run.zone, run.ChainRRs(), Signers(run.keys, NSEC3), run.alloc + |run.Chained()|);
  }

  lemma ParamNumbered(run: Run)
    requires Hash20(run.Hash())
    ensures Consecutive([run.Param()], run.alloc + |run.ZoneSigned()| + |run.ns|)
    ensures Consecutive(run.ParamSigs(), run.alloc + |run.Chained()| + |run.ChainSigs()|)
  {
    hide Run.ZoneSigned, Run.Chained, Run.ChainSigs, SoaTTL, Index, SigRR, Signers;
  }

  lemma AddedNumbered(run: Run)
    requires Hash20(run.Hash())
    ensures Consecutive(run.Added(), run.alloc + |run.Flat()|)
  {
    hide *;
    Lengths(run);
    PartsNumbered(run);
    ChainNumbered(run);
    ParamNumbered(run);
    AllConsecutive(run.KeyRRs(), run.Sigs(), run.ChainRRs(), [run.Param()], run.ChainSigs(), run.ParamSigs(), run.alloc + |run.Flat()|);
    AddedIs(run);
  }

  lemma AddedIs(run: Run)
    requires Hash20(run.Hash())
    ensures run.Added() == run.KeyRRs() + run.Sigs() + (run.ChainRRs() + [run.Param()] + run.ChainSigs() + run.ParamSigs())
  {
    hide Run.KeyRRs, Run.Sigs, Run.ChainRRs, Run.Param, Run.ChainSigs, Run.ParamSigs;
  }

  lemma AllConsecutive(k: seq<RR>, s: seq<RR>, c: seq<RR>, p: seq<RR>, cs: seq<RR>, ps: seq<RR>, base: nat)
    requires Consecutive(k, base) && Consecutive(s, base + |k|) && Consecutive(c, base + |k| + |s|) && |p| == 1
    requires Consecutive(p, base + |k| + |s| + |c|) && Consecutive(cs, base + |k| + |s| + |c| + 1)
    requires Consecutive(ps, base + |k| + |s| + |c| + 1 + |cs|)
    ensures Consecutive(k + s + (c + p + cs + ps), base)
  {
    hide Consecutive;
    var b := base + |k| + |s|;
    ConsecutiveConcat(k, s, base);
    ConsecutiveConcat(c, p, b);
    ConsecutiveConcat(c + p, cs, b);
    ConsecutiveConcat(c + p + cs, ps, b);
    ConsecutiveConcat(k + s, c + p + cs + ps, base);
  }

  lemma {:induction false} FreshTail(f: seq<RR>, a: seq<RR>, base: nat)
    requires NoDup(f) && (forall r :: r in f ==> r.id < base) && Consecutive(a, base)
    ensures NoDup(f + a)
    decreases |a|
  {
    if a == [] {
      assert f + a == f;
    } else {
      var init, last := a[..|a| - 1], a[|a| - 1];
      FreshTail(f, init, base);
      assert f + a == (f + init) + [last];
      NoDupAppend(f + init, last);
    }
  }

  /** Records below the allocator's mark, each listed once, stay so through signing. */
  lemma SignedNoDup(run: Run)
    requires run.Valid() && forall r :: r in run.rs ==> r.id < run.alloc
    ensures NoDup(run.Signed())
  {
    FlattenPermutes(run.zone, run.rs, run.types);
    var flat := run.Flat();
    forall r | r in flat
      ensures r.id < run.alloc + |flat|
    {
      MultisetMember(flat, run.rs, r);
    }
    AddedNumbered(run);
    AddedSplit(run);
    hide NoDup, Run.Added, Run.Flat, Run.Signed, Run.Valid;
    FreshTail(flat, run.Added(), run.alloc + |flat|);
  }
}
