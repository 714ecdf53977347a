/** CNAME resolution in the zone itself, and how far the ninth sanity check, with its string test, decides it. */
module Resolution {
  import opened Bytes
  import opened Names
  import opened Records
  import opened Database
  import opened Sanity

  /** Within `k` hops the chain reaches an address or leaves the zone. */
  ghost predicate ResolvesIn(rs: seq<RR>, zone: Name, target: Name, k: nat)
    decreases k
  {
    || HasAddress(rs, target)
    || (k > 0 && Hop(rs, target).Some? &&
        (!AtOrBelow(Hop(rs, target).value, zone) || ResolvesIn(rs, zone, Hop(rs, target).value, k - 1)))
  }

  /** The chain reaches an address or leaves the zone after finitely many hops. */
  ghost predicate Resolves(rs: seq<RR>, zone: Name, target: Name) {
    exists k: nat :: ResolvesIn(rs, zone, target, k)
  }

  /** Every CNAME into the zone resolves. */
  ghost predicate CnamesResolve(rs: seq<RR>, zone: Name) {
    forall r :: r in Pick(rs, OfType(CNAME)) && AtOrBelow(CnameOf(r.opts), zone) ==> Resolves(rs, zone, CnameOf(r.opts))
  }

  /** A name of another zone whose string ends like this zone's. */
  predicate Lookalike(zone: Name, n: Name) {
    InZone(zone, n) && !AtOrBelow(n, zone)
  }

  /** After at most `k` hops without an address the chain leaves the zone at `out`. */
  ghost predicate LeavesAt(rs: seq<RR>, zone: Name, target: Name, k: nat, out: Name)
    decreases k
  {
    && k > 0 && !HasAddress(rs, target) && Hop(rs, target).Some?
    && if AtOrBelow(Hop(rs, target).value, zone) then LeavesAt(rs, zone, Hop(rs, target).value, k - 1, out)
       else Hop(rs, target).value == out
  }

  /** The lookalikes on which the chain leaves the zone are chased on, and successfully. */
  ghost predicate LookalikesChase(rs: seq<RR>, zone: Name, target: Name) {
    forall k: nat, out :: LeavesAt(rs, zone, target, k, out) && Lookalike(zone, out) ==> Chases(rs, zone, out)
  }

  lemma InsideEndsAlike(zone: Name, n: Name)
    requires AtOrBelow(n, zone)
    ensures InZone(zone, n)
  {
    TextConcat(n[..|n| - |zone|], zone);
    assert n == n[..|n| - |zone|] + zone;
  }

  /** What one hop of the unbounded chase comes down to. */
  ghost predicate HopChases(rs: seq<RR>, zone: Name, target: Name) {
    HasAddress(rs, target) ||
    (Hop(rs, target).Some? && (!InZone(zone, Hop(rs, target).value) || Chases(rs, zone, Hop(rs, target).value)))
  }

  lemma HopDown(rs: seq<RR>, zone: Name, target: Name)
    requires Chases(rs, zone, target)
    ensures HopChases(rs, zone, target)
  {
    hide HasAddress, Hop, InZone;
    var k: nat :| ChasesIn(rs, zone, target, k);
    if !HasAddress(rs, target) && InZone(zone, Hop(rs, target).value) {
      assert ChasesIn(rs, zone, Hop(rs, target).value, k - 1);
    }
  }

  lemma HopUp(rs: seq<RR>, zone: Name, target: Name)
    requires HopChases(rs, zone, target)
    ensures Chases(rs, zone, target)
  {
    hide HasAddress, Hop, InZone;
    if HasAddress(rs, target) {
      assert ChasesIn(rs, zone, target, 0);
    } else if InZone(zone, Hop(rs, target).value) {
      var k: nat :| ChasesIn(rs, zone, Hop(rs, target).value, k);
      assert ChasesIn(rs, zone, target, k + 1);
    } else {
      assert ChasesIn(rs, zone, target, 1);
    }
  }

  lemma ChaseHop(rs: seq<RR>, zone: Name, target: Name)
    ensures Chases(rs, zone, target) <==> HopChases(rs, zone, target)
  {
    hide HopChases, Chases;
    if Chases(rs, zone, target) {
      HopDown(rs, zone, target);
    }
    if HopChases(rs, zone, target) {
      HopUp(rs, zone, target);
    }
  }

  lemma {:induction false} ChasedResolves(rs: seq<RR>, zone: Name, target: Name, k: nat)
    requires ChasesIn(rs, zone, target, k)
    ensures ResolvesIn(rs, zone, target, k)
    decreases k
  {
    hide HasAddress, Hop, InZone;
    if !HasAddress(rs, target) {
      var next := Hop(rs, target).value;
      if AtOrBelow(next, zone) {
        InsideEndsAlike(zone, next);
        ChasedResolves(rs, zone, next, k - 1);
      }
    }
  }

  lemma {:induction false} ChasedLookalikes(rs: seq<RR>, zone: Name, target: Name, k: nat, out: Name)
    requires Chases(rs, zone, target) && LeavesAt(rs, zone, target, k, out) && Lookalike(zone, out)
    ensures Chases(rs, zone, out)
    decreases k
  {
    hide HasAddress, Hop, InZone, Chases;
    ChaseHop(rs, zone, target);
    var next := Hop(rs, target).value;
    if AtOrBelow(next, zone) {
      InsideEndsAlike(zone, next);
      ChasedLookalikes(rs, zone, next, k - 1, out);
    }
  }

  lemma {:induction false} ResolvedChases(rs: seq<RR>, zone: Name, target: Name, k: nat)
    requires ResolvesIn(rs, zone, target, k) && LookalikesChase(rs, zone, target)
    ensures Chases(rs, zone, target)
    decreases k
  {
    hide HasAddress, Hop, InZone, Chases;
    ChaseHop(rs, zone, target);
    if !HasAddress(rs, target) {
      var next := Hop(rs, target).value;
      if AtOrBelow(next, zone) {
        forall j: nat, out | LeavesAt(rs, zone, next, j, out) && Lookalike(zone, out)
          ensures Chases(rs, zone, out)
        {
          assert LeavesAt(rs, zone, target, j + 1, out);
        }
        ResolvedChases(rs, zone, next, k - 1);
      } else {
        assert LeavesAt(rs, zone, target, 1, next);
      }
    }
  }

  /**
   One chain, with the bound of the source: the chase accepts if and only if the chain resolves, and whatever lookalike
   it leaves the zone on is accepted in its turn.
   */
  lemma ChaseResolves(rs: seq<RR>, zone: Name, target: Name, bound: nat)
    requires |CnameOwners(rs)| < bound
    ensures Chase(rs, zone, target, bound) == Resolved <==> Resolves(rs, zone, target) && LookalikesChase(rs, zone, target)
  {
    ChaseExact(rs, zone, target, bound);
    if Chases(rs, zone, target) {
      var k: nat :| ChasesIn(rs, zone, target, k);
      ChasedResolves(rs, zone, target, k);
      forall j: nat, out | LeavesAt(rs, zone, target, j, out) && Lookalike(zone, out)
        ensures Chases(rs, zone, out)
      {
        ChasedLookalikes(rs, zone, target, j, out);
      }
    }
    if Resolves(rs, zone, target) && LookalikesChase(rs, zone, target) {
      var k: nat :| ResolvesIn(rs, zone, target, k);
      ResolvedChases(rs, zone, target, k);
    }
  }

  // ----- the whole check

  /** No CNAME points at a lookalike, unless the database happens to chase it out. */
  ghost predicate NoneAstray(rs: seq<RR>, zone: Name) {
    forall r :: r in Pick(rs, OfType(CNAME)) && Lookalike(zone, CnameOf(r.opts)) ==> Chases(rs, zone, CnameOf(r.opts))
  }

  /** Where a chain leaves the zone there is a CNAME that points out of it. */
  lemma {:induction false} ExitRecord(rs: seq<RR>, zone: Name, target: Name, k: nat, out: Name) returns (r: RR)
    requires LeavesAt(rs, zone, target, k, out)
    ensures r in Pick(rs, OfType(CNAME)) && CnameOf(r.opts) == out && !AtOrBelow(out, zone)
    decreases k
  {
    var next := Hop(rs, target).value;
    if AtOrBelow(next, zone) {
      r := ExitRecord(rs, zone, next, k - 1, out);
    } else {
      r := Pick(rs, RRset(target, CNAME))[0];
      PickMember(rs, RRset(target, CNAME), r);
      PickMember(rs, OfType(CNAME), r);
    }
  }

  /** The ninth check demands resolution of every CNAME into the zone, and besides that no CNAME gone astray. */
  lemma NinthCheck(rs: seq<RR>, zone: Name)
    ensures CnamesChase(rs, zone) <==> CnamesResolve(rs, zone) && NoneAstray(rs, zone)
  {
    hide Pick, CnameOf, Chases, Resolves, InZone, LeavesAt;
    if CnamesChase(rs, zone) {
      forall r | r in Pick(rs, OfType(CNAME)) && AtOrBelow(CnameOf(r.opts), zone)
        ensures Resolves(rs, zone, CnameOf(r.opts))
      {
        InsideEndsAlike(zone, CnameOf(r.opts));
        Unbounded(rs, zone, CnameOf(r.opts));
      }
    }
    if CnamesResolve(rs, zone) && NoneAstray(rs, zone) {
      forall r | r in Pick(rs, OfType(CNAME)) && InZone(zone, CnameOf(r.opts))
        ensures Chases(rs, zone, CnameOf(r.opts))
      {
        forall k: nat, out | LeavesAt(rs, zone, CnameOf(r.opts), k, out) && Lookalike(zone, out)
          ensures Chases(rs, zone, out)
        {
          var exit := ExitRecord(rs, zone, CnameOf(r.opts), k, out);
        }
        Unbounded(rs, zone, CnameOf(r.opts));
      }
    }
  }

  lemma Unbounded(rs: seq<RR>, zone: Name, target: Name)
    ensures Chases(rs, zone, target) <==> Resolves(rs, zone, target) && LookalikesChase(rs, zone, target)
  {
    var bound := |CnameOwners(rs)| + 1;
    ChaseExact(rs, zone, target, bound);
    ChaseResolves(rs, zone, target, bound);
  }

  /** A zone that holds only its own names chases no lookalike. */
  lemma LookalikeFails(rs: seq<RR>, zone: Name, out: Name)
    requires (forall n :: n in Owners(rs) ==> AtOrBelow(n, zone)) && Lookalike(zone, out)
    ensures !Chases(rs, zone, out)
  {
    OwnerOfRRset(rs, out, A);
    OwnerOfRRset(rs, out, AAAA);
    OwnerOfRRset(rs, out, CNAME);
    ChaseHop(rs, zone, out);
    hide Pick, Chases;
  }

  /** There, the ninth check refuses more than it should exactly when a CNAME points at a lookalike. */
  lemma OwnNamesOnly(rs: seq<RR>, zone: Name)
    requires forall n :: n in Owners(rs) ==> AtOrBelow(n, zone)
    ensures CnamesChase(rs, zone) <==>
      CnamesResolve(rs, zone) && forall r :: r in Pick(rs, OfType(CNAME)) ==> !Lookalike(zone, CnameOf(r.opts))
  {
    NinthCheck(rs, zone);
    forall r | r in Pick(rs, OfType(CNAME)) && Lookalike(zone, CnameOf(r.opts))
      ensures !Chases(rs, zone, CnameOf(r.opts))
    {
      LookalikeFails(rs, zone, CnameOf(r.opts));
    }
    hide Pick, Chases, Owners, CnameOf;
  }

  /** The first eight checks. */
  ghost predicate EightChecks(rs: seq<RR>, zone: Name) {
    var soas := Pick(rs, OfType(SOA));
    && |soas| == 1
    && (soas[0].opts.OptsSOA? ==> soas[0].opts.serial != 0 && MnameServed(rs, soas[0].opts.mname))
    && NsAddressed(rs) && Pick(rs, RRset(zone, CNAME)) == []
    && UniqueCnames(rs) && CnamesAlone(rs) && NoSelfReference(rs)
  }

  /** What passing all nine checks means. */
  lemma AcceptedExact(rs: seq<RR>, zone: Name)
    ensures Verdict(rs, zone) == None <==> EightChecks(rs, zone) && CnamesResolve(rs, zone) && NoneAstray(rs, zone)
  {
    NinthCheck(rs, zone);
    hide Pick, MnameServed, NsAddressed, UniqueCnames, CnamesAlone, NoSelfReference, CnamesChase, CnamesResolve, NoneAstray;
  }

  // ----- an input

  const E: Label := [101]
  const AE: Label := [97, 101]
  const W: Label := [119]

  /** SOA, NS, address, and a CNAME from w.e to ae, a sibling of the zone e. */
  function AstrayZone(addr: Bytes): (rs: seq<RR>) {
    [RR(0, [E], SOA, 300, OptsSOA([E], [E], 1, 1, 1, 1, 1)), RR(1, [E], NS, 300, OptsNS([E])),
     RR(2, [E], A, 300, OptsA(addr)), RR(3, [W, E], CNAME, 300, OptsCNAME([AE]))]
  }

  lemma PickFour(a: RR, b: RR, c: RR, d: RR, w: Want)
    ensures Pick([a, b, c, d], w) == (if Match(w, a) then [a] else []) + (if Match(w, b) then [b] else []) +
                                     (if Match(w, c) then [c] else []) + (if Match(w, d) then [d] else [])
  {
    hide Match;
    assert [a, b, c, d] == [] + [a] + [b] + [c] + [d];
    PickAppend([], a, w);
    PickAppend([] + [a], b, w);
    PickAppend([] + [a] + [b], c, w);
    PickAppend([] + [a] + [b] + [c], d, w);
    PickNone([], w);
  }

  lemma AeLooksLikeE()
    ensures Lookalike([E], [AE]) && [W, E] != [E] && [AE] != [E] && [W, E] != [AE]
  {
    assert Text([E]) == E + [DOT] + Text([]) && Text([AE]) == AE + [DOT] + Text([]);
    assert Text([E]) == [101, 46] && Text([AE]) == [97, 101, 46];
    assert [AE][0..] == [AE];
  }

  /** The zone is refused, though its only chain leaves the zone at once. */
  lemma AstrayExample(addr: Bytes)
    ensures var rs := AstrayZone(addr);
      EightChecks(rs, [E]) && CnamesResolve(rs, [E]) && Verdict(rs, [E]) == Some(CnameNoResolve)
  {
    var rs := AstrayZone(addr);
    AeLooksLikeE();
    AstrayEight(addr);
    NinthCheck(rs, [E]);
    AstrayRest(addr);
    hide Pick, MnameServed, NsAddressed, UniqueCnames, CnamesAlone, NoSelfReference, CnamesChase, AstrayZone;
  }

  lemma AstrayTypes(addr: Bytes)
    ensures var rs := AstrayZone(addr);
      Pick(rs, OfType(SOA)) == [rs[0]] && Pick(rs, OfType(NS)) == [rs[1]] && Pick(rs, OfType(CNAME)) == [rs[3]]
  {
    var rs := AstrayZone(addr);
    PickFour(rs[0], rs[1], rs[2], rs[3], OfType(SOA));
    PickFour(rs[0], rs[1], rs[2], rs[3], OfType(NS));
    PickFour(rs[0], rs[1], rs[2], rs[3], OfType(CNAME));
    hide Pick;
  }

  lemma AstraySets(addr: Bytes)
    ensures var rs := AstrayZone(addr);
      && Pick(rs, RRset([E], A)) == [rs[2]] && Pick(rs, RRset([E], CNAME)) == []
      && Pick(rs, RRset([AE], A)) == [] && Pick(rs, RRset([AE], AAAA)) == [] && Pick(rs, RRset([AE], CNAME)) == []
  {
    var rs := AstrayZone(addr);
    AeLooksLikeE();
    PickFour(rs[0], rs[1], rs[2], rs[3], RRset([E], A));
    PickFour(rs[0], rs[1], rs[2], rs[3], RRset([E], CNAME));
    PickFour(rs[0], rs[1], rs[2], rs[3], RRset([AE], A));
    PickFour(rs[0], rs[1], rs[2], rs[3], RRset([AE], AAAA));
    PickFour(rs[0], rs[1], rs[2], rs[3], RRset([AE], CNAME));
    hide Pick, Lookalike;
  }

  lemma AstrayRest(addr: Bytes)
    ensures var rs := AstrayZone(addr);
      CnamesResolve(rs, [E]) && !NoneAstray(rs, [E])
  {
    var rs := AstrayZone(addr);
    hide Pick, Chases;
    AeLooksLikeE();
    AstrayTypes(addr);
    AstraySets(addr);
    ChaseHop(rs, [E], [AE]);
    assert CnameOf(rs[3].opts) == [AE] && rs[3] in Pick(rs, OfType(CNAME));
    hide Lookalike;
  }

  lemma AstrayEight(addr: Bytes)
    ensures EightChecks(AstrayZone(addr), [E])
  {
    var rs := AstrayZone(addr);
    hide Pick;
    AeLooksLikeE();
    AstrayTypes(addr);
    AstraySets(addr);
    assert rs[1] in Pick(rs, OfType(NS)) && NsOf(rs[1].opts) == [E];
    hide Lookalike;
  }
}
