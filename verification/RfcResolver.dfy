/**
 The answer that section 4.3.2 of RFC 1034 asks for, with wildcards as in sections 2.2.2 and 3.3.1 of RFC 4592, and
 exactly when the server gives it. The additional section, which step 6 leaves to the server, is not compared.
 */
module RfcResolver {
  import opened Bytes
  import opened Names
  import opened Records
  import opened Database
  import opened Resolver
  import opened Sanity

  /** Response code, answer section, and the delegation that a referral names. */
  datatype RfcReply = RfcReply(rcode: nat, answers: seq<RR>, cut: Option<Name>)

  // ----- the algorithm

  /** Step 3b: the first delegation met on the way down from the apex, from `len` labels on. */
  function CutFrom(rs: seq<RR>, q: Name, len: nat): (cut: Option<Name>)
    decreases |q| + 1 - len
  {
    if len > |q| then None
    else if Pick(rs, RRset(q[|q| - len..], NS)) != [] then Some(q[|q| - len..])
    else CutFrom(rs, q, len + 1)
  }

  function Cut(rs: seq<RR>, zone: Name, q: Name): (cut: Option<Name>) {
    CutFrom(rs, q, |zone| + 1)
  }

  /** Steps 3a and 3c: the node whose records answer, the name itself or the wildcard at its closest encloser. */
  ghost function Source(owners: set<Name>, zone: Name, q: Name): (src: Option<Name>) {
    if NodeExists(owners, q) then Some(q)
    else match ClosestEncloser(owners, zone, q)
      case None => None
      case Some(ce) => if NodeExists(owners, [STAR] + ce) then Some([STAR] + ce) else None
  }

  /**
   Step 3 for a name of the zone. A CNAME restarts it at the canonical name, here at most `restarts` times; a missing
   name is an error only as long as it is the original one.
   */
  ghost function Follow(rs: seq<RR>, zone: Name, q: Name, t: RRType, first: bool, restarts: nat): (r: RfcReply)
    decreases restarts
  {
    if Cut(rs, zone, q).Some? then RfcReply(NO_ERROR, [], Cut(rs, zone, q))
    else match Source(Owners(rs), zone, q)
      case None => RfcReply(if first then NX_DOMAIN else NO_ERROR, [], None)
      case Some(src) =>
        var cnames := Pick(rs, RRset(src, CNAME));
        if t == CNAME || cnames == [] then RfcReply(NO_ERROR, Synthesise(Pick(rs, RRset(src, t)), q), None)
        else if restarts == 0 || !AtOrBelow(CnameOf(cnames[0].opts), zone) then RfcReply(NO_ERROR, Synthesise(cnames, q), None)
        else
          var rest := Follow(rs, zone, CnameOf(cnames[0].opts), t, false, restarts - 1);
          RfcReply(rest.rcode, Synthesise(cnames, q) + rest.answers, rest.cut)
  }

  /** Step 2: a name outside the zone is not the zone's to answer. */
  ghost function RfcResolve(rs: seq<RR>, zone: Name, q: Name, t: RRType, restarts: nat): (r: Option<RfcReply>) {
    if AtOrBelow(q, zone) then Some(Follow(rs, zone, q, t, true, restarts)) else None
  }

  ghost predicate Same(reply: Reply, r: Option<RfcReply>) {
    r == Some(RfcReply(reply.rcode, reply.answers, None))
  }

  // ----- the condition

  ghost predicate EmptyNonTerminal(owners: set<Name>, q: Name) {
    q !in owners && NodeExists(owners, q)
  }

  /** Nothing at the node answers a query for the type. */
  predicate Bare(rs: seq<RR>, n: Name, t: RRType) {
    Pick(rs, RRset(n, t)) == [] && Pick(rs, RRset(n, CNAME)) == []
  }

  /** The zone has more to say about the canonical name: a delegation, the records asked for, or a further CNAME. */
  ghost predicate GoesOn(rs: seq<RR>, zone: Name, target: Name, t: RRType) {
    && AtOrBelow(target, zone)
    && (Cut(rs, zone, target).Some? ||
        (Source(Owners(rs), zone, target).Some? && !Bare(rs, Source(Owners(rs), zone, target).value, t)))
  }

  /** The node answers without a restart: no CNAME comes in, or it leads where the zone has nothing to add. */
  ghost predicate Plain(rs: seq<RR>, zone: Name, n: Name, t: RRType) {
    var cnames := Pick(rs, RRset(n, CNAME));
    t == CNAME || cnames == [] || (Pick(rs, RRset(n, t)) == [] && !GoesOn(rs, zone, CnameOf(cnames[0].opts), t))
  }

  /**
   What has to hold of the zone along the name: the name is in the zone and not delegated; the name and its wildcard
   are no empty non-terminals, unless a wildcard without data happens to hide it; and the answer needs no restart.
   */
  ghost predicate Conforms(rs: seq<RR>, zone: Name, q: Name, t: RRType) {
    var owners := Owners(rs);
    && AtOrBelow(q, zone)
    && (forall p :: AtOrBelow(q, p) && Below(p, zone) ==> Pick(rs, RRset(p, NS)) == [])
    && if q in owners then Plain(rs, zone, q, t)
       else if NodeExists(owners, q) then
         WildcardOwner(owners, zone, q).Some? && Bare(rs, WildcardOwner(owners, zone, q).value, t)
       else match ClosestEncloser(owners, zone, q)
         case None => true
         case Some(ce) =>
           !EmptyNonTerminal(owners, [STAR] + ce) && ([STAR] + ce in owners ==> Plain(rs, zone, [STAR] + ce, t))
  }

  // ----- the theorem

  lemma {:induction false} CutFromSpec(rs: seq<RR>, q: Name, len: nat)
    ensures CutFrom(rs, q, len) == None <==> forall p :: AtOrBelow(q, p) && len <= |p| ==> Pick(rs, RRset(p, NS)) == []
    decreases |q| + 1 - len
  {
    AncestorsByLength(q, len);
    hide Pick, AtOrBelow;
    if len <= |q| {
      CutFromSpec(rs, q, len + 1);
    }
  }

  lemma AncestorsByLength(q: Name, len: nat)
    ensures len <= |q| ==> AtOrBelow(q, q[|q| - len..]) && |q[|q| - len..]| == len
    ensures forall p :: AtOrBelow(q, p) ==> |p| <= |q| && (|p| == len ==> p == q[|q| - len..])
  {
  }

  lemma CutSpec(rs: seq<RR>, zone: Name, q: Name)
    requires AtOrBelow(q, zone)
    ensures Cut(rs, zone, q) == None <==> forall p :: AtOrBelow(q, p) && Below(p, zone) ==> Pick(rs, RRset(p, NS)) == []
  {
    CutFromSpec(rs, q, |zone| + 1);
    hide Pick, CutFrom;
    forall p | AtOrBelow(q, p) && |zone| < |p|
      ensures Below(p, zone)
    {
      AncestorsNest(q, zone, p);
    }
  }

  lemma SynthesiseSelf(rs: seq<RR>, q: Name, t: RRType)
    ensures Synthesise(Pick(rs, RRset(q, t)), q) == Pick(rs, RRset(q, t))
  {
    var list := Pick(rs, RRset(q, t));
    forall i | 0 <= i < |list|
      ensures list[i].(name := q) == list[i]
    {
      PickMember(rs, RRset(q, t), list[i]);
    }
    hide Pick;
  }

  /** After a restart the rest is empty exactly when the zone has nothing to add. */
  lemma RestEmpty(rs: seq<RR>, zone: Name, target: Name, t: RRType, restarts: nat)
    requires AtOrBelow(target, zone) && t != CNAME
    ensures var rest := Follow(rs, zone, target, t, false, restarts);
      rest.rcode == NO_ERROR && (rest.answers == [] && rest.cut == None <==> !GoesOn(rs, zone, target, t))
    decreases restarts
  {
    hide Pick, Source, CutFrom, Owners, CnameOf;
    var src := Source(Owners(rs), zone, target);
    if Cut(rs, zone, target) == None && src.Some? {
      var cnames := Pick(rs, RRset(src.value, CNAME));
      if cnames != [] && restarts > 0 && AtOrBelow(CnameOf(cnames[0].opts), zone) {
        RestEmpty(rs, zone, CnameOf(cnames[0].opts), t, restarts - 1);
      }
    }
  }

  /** Two lists of different types are equal only if they are empty. */
  lemma OtherAnswers(rs: seq<RR>, src: Name, q: Name, t: RRType, rest: seq<RR>)
    requires t != CNAME && Pick(rs, RRset(src, t)) != [] && Pick(rs, RRset(src, CNAME)) != []
    ensures Synthesise(Pick(rs, RRset(src, t)), q) != Synthesise(Pick(rs, RRset(src, CNAME)), q) + rest
  {
    var a, b := Pick(rs, RRset(src, t)), Pick(rs, RRset(src, CNAME));
    PickMember(rs, RRset(src, t), a[0]);
    PickMember(rs, RRset(src, CNAME), b[0]);
    hide Pick;
    assert Synthesise(a, q)[0].rtype == t && (Synthesise(b, q) + rest)[0].rtype == CNAME;
  }

  /** What the server answers from the node `src` for `q`. */
  ghost function Served(rs: seq<RR>, src: Name, q: Name, t: RRType): (answers: seq<RR>) {
    if Pick(rs, RRset(src, t)) != [] then Synthesise(Pick(rs, RRset(src, t)), q) else Synthesise(Pick(rs, RRset(src, CNAME)), q)
  }

  /** From the same node both give the same answers exactly when no restart is due. */
  lemma PlainExact(rs: seq<RR>, zone: Name, q: Name, src: Name, t: RRType, restarts: nat)
    requires Cut(rs, zone, q) == None && Source(Owners(rs), zone, q) == Some(src) && restarts > 0
    ensures Follow(rs, zone, q, t, true, restarts) == RfcReply(NO_ERROR, Served(rs, src, q, t), None) <==> Plain(rs, zone, src, t)
  {
    hide Pick, Source, Cut, Owners, CnameOf, GoesOn;
    var own, cnames := Pick(rs, RRset(src, t)), Pick(rs, RRset(src, CNAME));
    if t != CNAME && cnames != [] {
      var target := CnameOf(cnames[0].opts);
      var rest := if AtOrBelow(target, zone) then Follow(rs, zone, target, t, false, restarts - 1) else RfcReply(NO_ERROR, [], None);
      if AtOrBelow(target, zone) {
        RestEmpty(rs, zone, target, t, restarts - 1);
      } else {
        OutsideEnds(rs, zone, target, t);
      }
      if own != [] {
        OtherAnswers(rs, src, q, t, rest.answers);
        OtherAnswers(rs, src, q, t, []);
      }
      assert Synthesise(cnames, q) + [] == Synthesise(cnames, q);
    }
  }

  lemma OutsideEnds(rs: seq<RR>, zone: Name, target: Name, t: RRType)
    requires !AtOrBelow(target, zone)
    ensures !GoesOn(rs, zone, target, t)
  {
  }

  lemma ServedReply(rs: seq<RR>, zone: Name, q: Name, t: RRType)
    ensures var reply := Resolve(rs, zone, q, t);
      var owners := Owners(rs);
      if q in owners then reply.rcode == NO_ERROR && reply.answers == Served(rs, q, q, t)
      else if WildcardOwner(owners, zone, q).Some? then
        reply.rcode == NO_ERROR && reply.answers == Served(rs, WildcardOwner(owners, zone, q).value, q, t)
      else reply.rcode == NX_DOMAIN && reply.answers == []
  {
    SynthesiseSelf(rs, q, t);
    SynthesiseSelf(rs, q, CNAME);
    hide Pick, Owners, WildcardOwner, Addresses, Targets;
  }

  lemma ServedBare(rs: seq<RR>, src: Name, q: Name, t: RRType)
    ensures Served(rs, src, q, t) == [] <==> Bare(rs, src, t)
  {
    hide Pick;
  }

  lemma BareOffOwners(rs: seq<RR>, n: Name, t: RRType)
    requires n !in Owners(rs)
    ensures Bare(rs, n, t)
  {
    OwnerOfRRset(rs, n, t);
    OwnerOfRRset(rs, n, CNAME);
  }

  /** An undelegated node that owns nothing has no data. */
  lemma FollowBare(rs: seq<RR>, zone: Name, q: Name, src: Name, t: RRType, restarts: nat)
    requires Cut(rs, zone, q) == None && Source(Owners(rs), zone, q) == Some(src) && src !in Owners(rs)
    ensures Follow(rs, zone, q, t, true, restarts) == RfcReply(NO_ERROR, [], None)
  {
    BareOffOwners(rs, src, t);
    hide Pick, Source, Cut, Owners;
  }

  /**
   The server gives the answer of the RFC if and only if the zone conforms along the name; how many restarts the RFC's
   resolver is allowed makes no difference.
   */
  lemma RfcAgreement(rs: seq<RR>, zone: Name, q: Name, t: RRType, restarts: nat)
    requires restarts > 0
    ensures Same(Resolve(rs, zone, q, t), RfcResolve(rs, zone, q, t, restarts)) <==> Conforms(rs, zone, q, t)
  {
    var owners := Owners(rs);
    ServedReply(rs, zone, q, t);
    if AtOrBelow(q, zone) {
      CutSpec(rs, zone, q);
      if Cut(rs, zone, q) == None {
        Undelegated(rs, zone, q, t, restarts);
      }
    }
    hide Pick, Owners, Resolve, Source, Plain, Bare, ClosestEncloser, WildcardOwner, Cut, Served;
  }

  lemma Undelegated(rs: seq<RR>, zone: Name, q: Name, t: RRType, restarts: nat)
    requires restarts > 0 && AtOrBelow(q, zone) && Cut(rs, zone, q) == None
    requires forall p :: AtOrBelow(q, p) && Below(p, zone) ==> Pick(rs, RRset(p, NS)) == []
    ensures Same(Resolve(rs, zone, q, t), Some(Follow(rs, zone, q, t, true, restarts))) <==> Conforms(rs, zone, q, t)
  {
    hide Pick, Owners, Resolve, Plain, Bare, ClosestEncloser, Cut, Served, NodeExists, Follow;
    var owners := Owners(rs);
    ServedReply(rs, zone, q, t);
    if q in owners {
      assert NodeExists(owners, q) by { OwnerExists(owners, q); }
      PlainExact(rs, zone, q, q, t, restarts);
    } else if NodeExists(owners, q) {
      FollowBare(rs, zone, q, q, t, restarts);
      if WildcardOwner(owners, zone, q).Some? {
        ServedBare(rs, WildcardOwner(owners, zone, q).value, q, t);
      }
    } else {
      var found := ClosestEncloser(owners, zone, q);
      if found.Some? {
        var wc := [STAR] + found.value;
        OwnerExists(owners, wc);
        if wc in owners {
          PlainExact(rs, zone, q, wc, t, restarts);
        } else if NodeExists(owners, wc) {
          FollowBare(rs, zone, q, wc, t, restarts);
        } else {
          FollowNone(rs, zone, q, t, restarts);
        }
      } else {
        FollowNone(rs, zone, q, t, restarts);
      }
    }
  }

  lemma OwnerExists(owners: set<Name>, n: Name)
    ensures n in owners ==> NodeExists(owners, n)
  {
  }

  lemma FollowNone(rs: seq<RR>, zone: Name, q: Name, t: RRType, restarts: nat)
    requires Cut(rs, zone, q) == None && Source(Owners(rs), zone, q) == None
    ensures Follow(rs, zone, q, t, true, restarts) == RfcReply(NX_DOMAIN, [], None)
  {
    hide Pick, Source, Cut, Owners;
  }

  // ----- the four departures, each at an input

  lemma TwoOwners(a: RR, b: RR)
    ensures Owners([a, b]) == {a.name, b.name} && Owners([a]) == {a.name}
  {
    assert [a, b][0] == a && [a, b][1] == b && [a][0] == a;
  }

  lemma PickTwo(a: RR, b: RR, w: Want)
    ensures Pick([a, b], w) == (if Match(w, a) then [a] else []) + (if Match(w, b) then [b] else [])
    ensures Pick([a], w) == if Match(w, a) then [a] else []
  {
    assert [a] == [] + [a] && [a, b] == [a] + [b];
    assert Pick([], w) == [];
    PickAppend([], a, w);
    PickAppend([a], b, w);
  }

  /** An empty non-terminal: b above a.b exists and has no data, and is answered NXDOMAIN. */
  lemma EmptyNonTerminalExample(zone: Name, a: Label, b: Label, addr: Bytes)
    ensures var rs := [RR(0, [a, b] + zone, A, 300, OptsA(addr))];
            && Resolve(rs, zone, [b] + zone, A).rcode == NX_DOMAIN
            && RfcResolve(rs, zone, [b] + zone, A, 1) == Some(RfcReply(NO_ERROR, [], None))
  {
    var r := RR(0, [a, b] + zone, A, 300, OptsA(addr));
    var q, rs := [b] + zone, [r];
    TwoOwners(r, r);
    assert r.name[1..] == q && q[1..] == zone && Below(r.name, q) && AtOrBelow(q, zone);
    assert |[STAR] + zone| < |r.name|;
    EncloserUpToSpec(Owners(rs), q, Floor(zone, q), |q| - 1);
    NoNames(r, r, q);
    CutSpec(rs, zone, q);
    assert Source(Owners(rs), zone, q) == Some(q);
    FollowBare(rs, zone, q, q, A, 1);
  }

  lemma NoNames(a: RR, b: RR, q: Name)
    requires a.rtype != NS && b.rtype != NS
    ensures forall n :: Pick([a], RRset(n, NS)) == [] && Pick([a, b], RRset(n, NS)) == []
  {
    forall n
      ensures Pick([a], RRset(n, NS)) == [] && Pick([a, b], RRset(n, NS)) == []
    {
      PickTwo(a, b, RRset(n, NS));
    }
  }

  /** With a wildcard at the apex, the same name is answered with synthesised data. */
  lemma SynthesisedNonTerminalExample(zone: Name, a: Label, b: Label, addr: Bytes)
    requires a != STAR && b != STAR
    ensures var rs := [RR(0, [a, b] + zone, A, 300, OptsA(addr)), RR(1, [STAR] + zone, A, 300, OptsA(addr))];
            && Resolve(rs, zone, [b] + zone, A).answers == [RR(1, [b] + zone, A, 300, OptsA(addr))]
            && RfcResolve(rs, zone, [b] + zone, A, 1) == Some(RfcReply(NO_ERROR, [], None))
  {
    var r, w := RR(0, [a, b] + zone, A, 300, OptsA(addr)), RR(1, [STAR] + zone, A, 300, OptsA(addr));
    var q, rs := [b] + zone, [r, w];
    TwoOwners(r, w);
    assert r.name[1..] == q && q[1..] == zone && w.name[1..] == zone && w.name[0] == STAR && q[0] == b;
    assert Below(r.name, q) && Below(w.name, zone) && AtOrBelow(q, zone);
    assert |q| < |r.name|;
    NoNames(r, w, q);
    PickTwo(r, w, RRset(w.name, A));
    hide Pick, Owners, NodeExists, Resolve, RfcResolve, AtOrBelow;
    AboveExists(Owners(rs), r.name, q);
    NonTerminalFilled(rs, zone, q, w);
  }

  lemma NonTerminalFilled(rs: seq<RR>, zone: Name, q: Name, w: RR)
    requires Below(q, zone) && |q| == |zone| + 1 && q !in Owners(rs) && NodeExists(Owners(rs), q)
    requires w.name in Owners(rs) && w.name == [STAR] + zone && forall n :: Pick(rs, RRset(n, NS)) == []
    requires Pick(rs, RRset(w.name, A)) == [w]
    ensures Resolve(rs, zone, q, A).answers == [w.(name := q)]
    ensures RfcResolve(rs, zone, q, A, 1) == Some(RfcReply(NO_ERROR, [], None))
  {
    CutSpec(rs, zone, q);
    ParentEncloses(Owners(rs), zone, q, w.name);
    hide Pick, Owners, NodeExists;
    FollowBare(rs, zone, q, q, A, 1);
    ServedReply(rs, zone, q, A);
    assert Synthesise([w], q) == [w.(name := q)];
  }

  lemma AboveExists(owners: set<Name>, n: Name, p: Name)
    requires n in owners && Below(n, p)
    ensures NodeExists(owners, p)
  {
  }

  /** A child of the apex falls to the wildcard at the apex. */
  lemma ParentEncloses(owners: set<Name>, zone: Name, q: Name, wc: Name)
    requires |q| == |zone| + 1 && Below(q, zone) && wc in owners && wc == [STAR] + zone
    ensures WildcardOwner(owners, zone, q) == Some(wc)
  {
    assert wc[1..] == zone;
    AboveExists(owners, wc, zone);
    EncloserUpToSpec(owners, q, Floor(zone, q), |q| - 1);
  }

  /** A CNAME to a name of the zone: the server leaves the target's records out of the answer. */
  lemma CnameExample(zone: Name, b: Label, c: Label, addr: Bytes)
    requires b != c
    ensures var alias, target := RR(0, [b] + zone, CNAME, 300, OptsCNAME([c] + zone)), RR(1, [c] + zone, A, 300, OptsA(addr));
            && Resolve([alias, target], zone, [b] + zone, A).answers == [alias]
            && RfcResolve([alias, target], zone, [b] + zone, A, 1) == Some(RfcReply(NO_ERROR, [alias, target], None))
  {
    var alias, target := RR(0, [b] + zone, CNAME, 300, OptsCNAME([c] + zone)), RR(1, [c] + zone, A, 300, OptsA(addr));
    hide *;
    Siblings(zone, b, c);
    AliasPicks(alias, target);
    CnameFollowed([alias, target], zone, alias, target);
  }

  lemma Siblings(zone: Name, b: Label, c: Label)
    ensures AtOrBelow([b] + zone, zone) && AtOrBelow([c] + zone, zone) && (b != c ==> [b] + zone != [c] + zone)
  {
    var q, m := [b] + zone, [c] + zone;
    assert q[0] == b && m[0] == c && q[1..] == zone && m[1..] == zone;
  }

  lemma AliasPicks(alias: RR, target: RR)
    requires alias.rtype == CNAME && target.rtype == A && alias.name != target.name
    ensures var rs := [alias, target];
      && alias.name in Owners(rs) && target.name in Owners(rs) && (forall n :: Pick(rs, RRset(n, NS)) == [])
      && Pick(rs, RRset(alias.name, A)) == [] && Pick(rs, RRset(alias.name, CNAME)) == [alias]
      && Pick(rs, RRset(target.name, A)) == [target] && Pick(rs, RRset(target.name, CNAME)) == []
  {
    TwoOwners(alias, target);
    NoNames(alias, target, alias.name);
    PickTwo(alias, target, RRset(alias.name, A));
    PickTwo(alias, target, RRset(alias.name, CNAME));
    PickTwo(alias, target, RRset(target.name, A));
    PickTwo(alias, target, RRset(target.name, CNAME));
    hide Pick, Owners;
  }

  lemma CnameFollowed(rs: seq<RR>, zone: Name, alias: RR, target: RR)
    requires AtOrBelow(alias.name, zone) && AtOrBelow(target.name, zone)
    requires alias.name in Owners(rs) && target.name in Owners(rs) && forall n :: Pick(rs, RRset(n, NS)) == []
    requires Pick(rs, RRset(alias.name, A)) == [] && Pick(rs, RRset(alias.name, CNAME)) == [alias]
    requires Pick(rs, RRset(target.name, A)) == [target] && Pick(rs, RRset(target.name, CNAME)) == []
    requires alias.opts == OptsCNAME(target.name)
    ensures Resolve(rs, zone, alias.name, A).answers == [alias]
    ensures RfcResolve(rs, zone, alias.name, A, 1) == Some(RfcReply(NO_ERROR, [alias, target], None))
  {
    var q, m := alias.name, target.name;
    CutSpec(rs, zone, q);
    CutSpec(rs, zone, m);
    hide Pick, NodeExists, Cut, Owners, AtOrBelow, Follow, Resolve, Synthesise;
    FollowOwner(rs, zone, q, A, true, 1);
    FollowOwner(rs, zone, m, A, false, 0);
    SynthesiseSelf(rs, q, CNAME);
    SynthesiseSelf(rs, m, A);
    ServedReply(rs, zone, q, A);
    assert [alias] + [target] == [alias, target];
  }

  /** The algorithm at a name that owns records. */
  lemma FollowOwner(rs: seq<RR>, zone: Name, q: Name, t: RRType, first: bool, restarts: nat)
    requires q in Owners(rs) && Cut(rs, zone, q) == None
    ensures var cnames := Pick(rs, RRset(q, CNAME));
      Follow(rs, zone, q, t, first, restarts) ==
      if t == CNAME || cnames == [] then RfcReply(NO_ERROR, Synthesise(Pick(rs, RRset(q, t)), q), None)
      else if restarts == 0 || !AtOrBelow(CnameOf(cnames[0].opts), zone) then RfcReply(NO_ERROR, Synthesise(cnames, q), None)
      else
        var rest := Follow(rs, zone, CnameOf(cnames[0].opts), t, false, restarts - 1);
        RfcReply(rest.rcode, Synthesise(cnames, q) + rest.answers, rest.cut)
  {
    OwnerExists(Owners(rs), q);
    hide Pick, NodeExists, Cut, Owners, AtOrBelow, Synthesise;
  }

  /** A delegation below the apex: the server never refers, it denies the name. */
  lemma ReferralExample(zone: Name, a: Label, b: Label, host: Name)
    requires a != STAR && b != STAR
    ensures var rs := [RR(0, [b] + zone, NS, 300, OptsNS(host))];
            && Resolve(rs, zone, [a, b] + zone, A).rcode == NX_DOMAIN
            && RfcResolve(rs, zone, [a, b] + zone, A, 1) == Some(RfcReply(NO_ERROR, [], Some([b] + zone)))
  {
    var r := RR(0, [b] + zone, NS, 300, OptsNS(host));
    var q, p, rs := [a, b] + zone, [b] + zone, [r];
    assert q[1..] == p && p[1..] == zone && q[2..] == zone && q[0] == a && p[0] == b;
    TwoOwners(r, r);
    PickTwo(r, r, RRset(p, NS));
    assert Cut(rs, zone, q) == Some(p);
    hide Pick, NodeExists, Cut, Owners, Resolve, AtOrBelow;
    OnlyEncloser(Owners(rs), zone, q, p);
    ServedReply(rs, zone, q, A);
  }

  lemma OnlyEncloser(owners: set<Name>, zone: Name, q: Name, p: Name)
    requires owners == {p} && |q| == |zone| + 2 && |p| == |zone| + 1 && Below(q, p) && Below(p, zone)
    ensures WildcardOwner(owners, zone, q) == None
  {
    BelowTrans(q, p, zone);
    OwnerExists(owners, p);
    EncloserUpToSpec(owners, q, Floor(zone, q), |q| - 1);
    assert |[STAR] + p| > |p|;
  }
}
