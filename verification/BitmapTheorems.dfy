/** What the NSEC3 bitmaps of a signed zone say about the zone that is served. */
module BitmapTheorems {
  import opened Bytes
  import opened Names
  import opened Records
  import opened Database
  import opened Signing
  import opened Nsec3Chain
  import opened SignedZone
  import opened SignatureTheorems
  import opened DenialTheorems
  import TypeBitmap

  /** Types the chain was built before. */
  predicate Late(t: RRType) {
    t == NSEC3 || t == NSEC3PARAM
  }

  ghost predicate Served(rs: seq<RR>, n: Name, w: int) {
    exists t :: WireType(t) == w && !Late(t) && Pick(rs, RRset(n, t)) != []
  }

  /** Each bit is one of an RRset at the owner, when the node holds signatures and nothing late. */
  lemma PresentIsServed(rs: seq<RR>, n: Name, w: int)
    requires Pick(rs, RRset(n, RRSIG)) != []
    requires forall r :: r in rs ==> !Late(r.rtype)
    ensures Present(Pick(rs, AtName(n)), w) <==> Served(rs, n, w)
  {
    hide Pick, WireType;
    if Present(Pick(rs, AtName(n)), w) {
      if w == WireType(RRSIG) {
        assert Served(rs, n, w);
      } else {
        var r :| r in Pick(rs, AtName(n)) && WireType(r.rtype) == w;
        PickMember(rs, AtName(n), r);
        PickMember(rs, RRset(n, r.rtype), r);
      }
    }
    if Served(rs, n, w) {
      var t :| WireType(t) == w && !Late(t) && Pick(rs, RRset(n, t)) != [];
      var r := Pick(rs, RRset(n, t))[0];
      PickMember(rs, RRset(n, t), r);
      PickMember(rs, AtName(n), r);
    }
  }

  /** What signing adds after the chain is late, or a signature. */
  lemma AddedLate(run: Run, r: RR)
    requires Hash20(run.Hash()) && r in run.ChainRRs() + [run.Param()] + run.ChainSigs() + run.ParamSigs()
    ensures Late(r.rtype) || r.rtype == RRSIG
  {
    RunTypes(run);
    hide Run.ChainRRs, Run.Param, Run.ChainSigs, Run.ParamSigs;
  }

  lemma LaterRRsets(run: Run, n: Name, t: RRType)
    requires Hash20(run.Hash()) && !Late(t) && t != RRSIG
    ensures Pick(run.Signed(), RRset(n, t)) == Pick(run.ZoneSigned(), RRset(n, t))
  {
    hide Pick, Run.Signed, Run.ZoneSigned, Run.ChainRRs, Run.Param, Run.ChainSigs, Run.ParamSigs;
    var late := run.ChainRRs() + [run.Param()] + run.ChainSigs() + run.ParamSigs();
    AddedSplit(run);
    forall r | r in late
      ensures Late(r.rtype) || r.rtype == RRSIG
    {
      AddedLate(run, r);
    }
    EarlierOnly(run.ZoneSigned(), late, n, t);
  }

  lemma EarlierOnly(a: seq<RR>, late: seq<RR>, n: Name, t: RRType)
    requires !Late(t) && t != RRSIG && forall r :: r in late ==> Late(r.rtype) || r.rtype == RRSIG
    ensures Pick(a + late, RRset(n, t)) == Pick(a, RRset(n, t))
  {
    PickNone(late, RRset(n, t));
    PickConcat(a, late, RRset(n, t));
    hide Pick;
  }

  lemma SignersThere(keys: seq<SigningKey>, t: RRType)
    requires keys != []
    ensures Signers(keys, t) != []
  {
    if KeysBy(keys, false) == [] {
      AllKeysBy(keys, true);
    }
  }

  /** Step 4 leaves a signature at every owner. */
  lemma SignatureAt(run: Run, n: Name)
    requires run.Valid() && DnssecFree(run.rs) && run.keys != [] && n in run.ns
    ensures Pick(run.ZoneSigned(), RRset(n, RRSIG)) != [] && Pick(run.Signed(), RRset(n, RRSIG)) != []
  {
    assert n in Elems(run.ns) && n in Owners(run.ZoneSigned());
    var r :| r in run.ZoneSigned() && r.name == n;
    var s := SignatureBeside(run, r);
    PickMember(run.ZoneSigned(), RRset(n, RRSIG), s);
    InSigned(run, s);
    PickMember(run.Signed(), RRset(n, RRSIG), s);
    hide Pick, Run.Signed, Run.ZoneSigned, Run.Valid;
  }

  lemma InSigned(run: Run, s: RR)
    requires Hash20(run.Hash()) && s in run.ZoneSigned()
    ensures s in run.Signed()
  {
    AddedSplit(run);
    hide Run.Signed, Run.ZoneSigned, Run.ChainRRs, Run.Param, Run.ChainSigs, Run.ParamSigs;
  }

  lemma SignatureBeside(run: Run, r: RR) returns (s: RR)
    requires run.Valid() && DnssecFree(run.rs) && run.keys != [] && r in run.ZoneSigned()
    ensures s in run.ZoneSigned() && s.name == r.name && s.rtype == RRSIG
  {
    RunTypes(run);
    KeyedFree(run);
    hide Run.Keyed, Run.Sigs, Run.ChainRRs, Run.Param, Run.ChainSigs, Run.ParamSigs, SigList, Pick, NoDup, SigsOver;
    if r in run.Sigs() {
      s := r;
    } else {
      s := FirstSignature(run, r);
    }
  }

  lemma FirstSignature(run: Run, r: RR) returns (s: RR)
    requires run.Valid() && run.keys != [] && r in run.Keyed() && r.rtype != RRSIG
    ensures s in run.Sigs() && s.name == r.name && s.rtype == RRSIG
  {
    hide Run.Keyed, NoDup, Pick, SigBlock, Signers, SigList;
    PickMember(run.Keyed(), RRset(r.name, r.rtype), r);
    assert (r.name, r.rtype) in run.order;
    SignersThere(run.keys, r.rtype);
    var at := SigListExact(run.env, run.zone, run.Keyed(), run.order, run.keys, run.alloc + |run.Keyed()|, r.name, r.rtype);
    var block := Pick(run.Sigs(), SigOver(r.name, WireType(r.rtype)));
    assert block != [];
    s := block[0];
    PickMember(run.Sigs(), SigOver(r.name, WireType(r.rtype)), s);
  }

  lemma NothingLate(run: Run, r: RR)
    requires run.Valid() && DnssecFree(run.rs) && r in run.ZoneSigned()
    ensures !Late(r.rtype)
  {
    RunTypes(run);
    KeyedFree(run);
    hide Run.Keyed, Run.Sigs, Run.ChainRRs, Run.Param, Run.ChainSigs, Run.ParamSigs;
  }

  lemma ServedAlike(run: Run, n: Name, w: int)
    requires Hash20(run.Hash())
    requires Pick(run.ZoneSigned(), RRset(n, RRSIG)) != [] && Pick(run.Signed(), RRset(n, RRSIG)) != []
    ensures Served(run.ZoneSigned(), n, w) <==> Served(run.Signed(), n, w)
  {
    hide Pick, Run.Signed, Run.ZoneSigned, WireType;
    forall t | !Late(t)
      ensures Pick(run.ZoneSigned(), RRset(n, t)) != [] <==> Pick(run.Signed(), RRset(n, t)) != []
    {
      if t != RRSIG {
        LaterRRsets(run, n, t);
      }
    }
  }

  /**
   In every signed zone, the bitmap of each chain record announces exactly the types the served zone has at its owner,
   signatures included, except NSEC3 and NSEC3PARAM.
   */
  lemma ServedBitmap(run: Run, i: nat, w: int)
    requires run.Valid() && DnssecFree(run.rs) && run.keys != [] && i < |run.ns| && 0 <= w < 65536
    ensures run.ChainRRs()[i].opts.OptsNSEC3?
    ensures TypeBitmap.Announces(BitmapOf(run.ChainRRs()[i].opts.types), w) <==> Served(run.Signed(), run.ns[i], w)
  {
    var n := run.ns[i];
    forall r | r in run.ZoneSigned()
      ensures !Late(r.rtype)
    {
      NothingLate(run, r);
    }
    SignatureAt(run, n);
    hide Pick, Run.Signed, Run.ZoneSigned, Present, ChainRecords, BitmapOf, NameList, Served, TypeBitmap.Announces;
    ChainBitmapExact(Source(run), DEFAULT_PARAMS, run.Hash(), run.ns, SourceAlloc(run), i, w);
    SourceOf(run);
    SourceNode(run, n);
    PresentIsServed(run.ZoneSigned(), n, w);
    ServedAlike(run, n, w);
  }

  lemma SourceNode(run: Run, n: Name)
    ensures NameList(Source(run), n) == Pick(run.ZoneSigned(), AtName(n))
  {
    hide Run.ZoneSigned, Pick;
    IndexedName(run.zone, run.ZoneSigned(), n);
  }

  /** The exceptions: NSEC3PARAM is served at the apex alone, NSEC3 at the owners of the chain alone, and neither is announced. */
  lemma Unannounced(run: Run, i: nat)
    requires run.Valid() && DnssecFree(run.rs) && run.keys != [] && i < |run.ns|
    ensures run.ChainRRs()[i].opts.OptsNSEC3?
    ensures var b := BitmapOf(run.ChainRRs()[i].opts.types);
      !TypeBitmap.Announces(b, WireType(NSEC3PARAM)) && !TypeBitmap.Announces(b, WireType(NSEC3))
    ensures Pick(run.Signed(), RRset(run.ns[i], NSEC3PARAM)) != [] <==> run.ns[i] == run.zone
    ensures Pick(run.Signed(), RRset(run.ns[i], NSEC3)) != [] <==> run.ns[i] in ChainOwners(run)
  {
    NotServed(run.Signed(), run.ns[i], NSEC3);
    NotServed(run.Signed(), run.ns[i], NSEC3PARAM);
    ServedBitmap(run, i, WireType(NSEC3));
    ServedBitmap(run, i, WireType(NSEC3PARAM));
    LateOwners(run, run.ns[i]);
    hide Pick, Run.Signed, Run.ZoneSigned, Run.ChainRRs, ChainOwners, BitmapOf, Run.Valid, TypeBitmap.Announces;
  }

  lemma NotServed(rs: seq<RR>, n: Name, late: RRType)
    requires Late(late)
    ensures !Served(rs, n, WireType(late))
  {
    hide Pick;
    if t :| WireType(t) == WireType(late) && !Late(t) && Pick(rs, RRset(n, t)) != [] {
      WireTypeInjective(t, late);
    }
  }

  lemma LateOwners(run: Run, n: Name)
    requires run.Valid() && DnssecFree(run.rs)
    ensures Pick(run.Signed(), RRset(n, NSEC3PARAM)) != [] <==> n == run.zone
    ensures Pick(run.Signed(), RRset(n, NSEC3)) != [] <==> n in ChainOwners(run)
  {
    ChainServed(run);
    ScanTypeList(run.Signed(), n, NSEC3PARAM);
    ScanTypeList(run.Signed(), n, NSEC3);
    ParamAt(run, n);
    ChainAt(run, n);
    hide Pick, Run.Signed, Run.ChainRRs, Run.Param, ChainOwners;
  }

  lemma ParamAt(run: Run, n: Name)
    ensures Pick([run.Param()], AtName(n)) != [] <==> n == run.zone
  {
    assert run.Param().name == run.zone by { hide SoaTTL, Index, Run.ZoneSigned; }
    hide Run.Param, Pick;
    PickMember([run.Param()], AtName(n), run.Param());
    if Pick([run.Param()], AtName(n)) != [] {
      PickMember([run.Param()], AtName(n), Pick([run.Param()], AtName(n))[0]);
    }
  }

  lemma ChainAt(run: Run, n: Name)
    requires Hash20(run.Hash())
    ensures Pick(run.ChainRRs(), AtName(n)) != [] <==> n in ChainOwners(run)
  {
    hide Pick, Run.ChainRRs, ChainOwners;
    var list := Pick(run.ChainRRs(), AtName(n));
    if list != [] {
      PickMember(run.ChainRRs(), AtName(n), list[0]);
      ChainMember(run, list[0]);
    }
    if n in ChainOwners(run) {
      ChainOwnerServed(run, n);
      var r :| r in run.ChainRRs() && r.name == n;
      PickMember(run.ChainRRs(), AtName(n), r);
    }
  }
}
