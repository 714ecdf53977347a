/** `SanityChecks`: the nine checks a zone passes before it is distributed. */
module Sanity {
  import opened Bytes
  import opened Names
  import opened Records
  import opened Database

  datatype SanityError =
    | SOAMissing | MultipleSOAs | SOAZeroSerial | SOAMnameNoNS | NSNoAddress
    | CnameAtApex | DuplicateCname | CnameHasOtherData | CnameSelfReference | CnameNoResolve

  predicate CnameCompatible(t: RRType) {
    t == CNAME || t == RRSIG || t == NSEC3 || t == NSEC3PARAM
  }

  function NsOf(o: Opts): (n: Name) { if o.OptsNS? then o.ns else [] }

  function CnameOf(o: Opts): (n: Name) { if o.OptsCNAME? then o.cname else [] }

  /**
   The zone test of the source: the strings end alike, with no dot asked for in front of the zone. `Resolution` tells it
   from being in the zone.
   */
  predicate InZone(zone: Name, n: Name) {
    HasSuffix(Text(n), Text(zone))
  }

  predicate HasAddress(rs: seq<RR>, n: Name) {
    Pick(rs, RRset(n, A)) != [] || Pick(rs, RRset(n, AAAA)) != []
  }

  /** The target of the first CNAME at `n`. */
  function Hop(rs: seq<RR>, n: Name): (m: Option<Name>) {
    var cnames := Pick(rs, RRset(n, CNAME));
    if cnames == [] then None else Some(CnameOf(cnames[0].opts))
  }

  // ----- the CNAME chase

  datatype Outcome = Resolved | Dangling | BoundHit

  /** The chase loop of the source with `fuel` rounds left. */
  function Chase(rs: seq<RR>, zone: Name, target: Name, fuel: nat): (o: Outcome)
    decreases fuel
  {
    if fuel == 0 then BoundHit
    else if HasAddress(rs, target) then Resolved
    else match Hop(rs, target)
         case None => Dangling
         case Some(next) => if !InZone(zone, next) then Resolved else Chase(rs, zone, next, fuel - 1)
  }

  /** Within `k` hops the chain reaches an address, or a name that fails the source's zone test. */
  ghost predicate ChasesIn(rs: seq<RR>, zone: Name, target: Name, k: nat)
    decreases k
  {
    || HasAddress(rs, target)
    || (k > 0 && Hop(rs, target).Some? &&
        (!InZone(zone, Hop(rs, target).value) || ChasesIn(rs, zone, Hop(rs, target).value, k - 1)))
  }

  /** The chase with no bound at all. */
  ghost predicate Chases(rs: seq<RR>, zone: Name, target: Name) {
    exists k: nat :: ChasesIn(rs, zone, target, k)
  }

  function CnameOwners(rs: seq<RR>): (s: set<Name>) {
    Owners(Pick(rs, OfType(CNAME)))
  }

  lemma HopOwner(rs: seq<RR>, n: Name)
    ensures Hop(rs, n).Some? <==> n in CnameOwners(rs)
  {
    ScanTypeList(rs, n, CNAME);
    var list := Pick(rs, OfType(CNAME));
    PickMembers(list, AtName(n));
    if n !in Owners(list) {
      PickNone(list, AtName(n));
    } else {
      var r :| r in list && r.name == n;
      assert r in Pick(list, AtName(n));
    }
  }

  lemma {:induction false} MoreHops(rs: seq<RR>, zone: Name, target: Name, k: nat, m: nat)
    requires ChasesIn(rs, zone, target, k) && k <= m
    ensures ChasesIn(rs, zone, target, m)
    decreases k
  {
    if !HasAddress(rs, target) {
      var next := Hop(rs, target).value;
      if InZone(zone, next) {
        MoreHops(rs, zone, next, k - 1, m - 1);
      }
    }
  }

  /** The loop succeeds exactly when the chase does within its rounds. */
  lemma {:induction false} ChaseWithin(rs: seq<RR>, zone: Name, target: Name, fuel: nat)
    ensures Chase(rs, zone, target, fuel) == Resolved ==> ChasesIn(rs, zone, target, fuel)
    ensures ChasesIn(rs, zone, target, fuel) ==> Chase(rs, zone, target, fuel + 1) == Resolved
    decreases fuel
  {
    if fuel > 0 && !HasAddress(rs, target) && Hop(rs, target).Some? && InZone(zone, Hop(rs, target).value) {
      ChaseWithin(rs, zone, Hop(rs, target).value, fuel - 1);
    }
  }

  /** A shortest successful chase visits each CNAME owner at most once: `seen` holds the owners passed so far. */
  lemma {:induction false} ShortestHops(rs: seq<RR>, zone: Name, target: Name, k: nat, seen: set<Name>)
    requires ChasesIn(rs, zone, target, k) && (k > 0 ==> !ChasesIn(rs, zone, target, k - 1))
    requires seen <= CnameOwners(rs) && forall s :: s in seen ==> !ChasesIn(rs, zone, s, k)
    ensures |seen| + k <= |CnameOwners(rs)|
    decreases k
  {
    if k == 0 {
      SubsetSize(seen, CnameOwners(rs));
    } else {
      HopOwner(rs, target);
      var next := Hop(rs, target).value;
      var seen' := seen + {target};
      forall s | s in seen'
        ensures !ChasesIn(rs, zone, s, k - 1)
      {
        if ChasesIn(rs, zone, s, k - 1) {
          MoreHops(rs, zone, s, k - 1, k);
        }
      }
      if !InZone(zone, next) {
        assert k == 1;
        SubsetSize(seen', CnameOwners(rs));
      } else {
        ShortestHops(rs, zone, next, k - 1, seen');
      }
    }
  }

  /** If the chase succeeds at all, it does so within as many hops as there are CNAME owners. */
  lemma {:induction false} HopBound(rs: seq<RR>, zone: Name, target: Name, k: nat)
    requires ChasesIn(rs, zone, target, k)
    ensures ChasesIn(rs, zone, target, |CnameOwners(rs)|)
  {
    if k > 0 && ChasesIn(rs, zone, target, k - 1) {
      HopBound(rs, zone, target, k - 1);
    } else {
      ShortestHops(rs, zone, target, k, {});
      MoreHops(rs, zone, target, k, |CnameOwners(rs)|);
    }
  }

  lemma {:induction false} FewOwners(rs: seq<RR>)
    ensures |Owners(rs)| <= |rs|
    decreases |rs|
  {
    if rs != [] {
      var init, last := rs[..|rs| - 1], rs[|rs| - 1];
      assert rs == init + [last];
      assert Owners(rs) == Owners(init) + {last.name};
      FewOwners(init);
    }
  }

  lemma {:induction false} DisjointTypes(rs: seq<RR>, s: RRType, t: RRType)
    requires s != t
    ensures |Pick(rs, OfType(s))| + |Pick(rs, OfType(t))| <= |rs|
    decreases |rs|
  {
    if rs != [] {
      DisjointTypes(rs[..|rs| - 1], s, t);
    }
  }

  /** With one SOA in the zone there are fewer CNAME owners than records. */
  lemma OwnersBelowBound(rs: seq<RR>)
    requires Pick(rs, OfType(SOA)) != []
    ensures |CnameOwners(rs)| < |rs|
  {
    FewOwners(Pick(rs, OfType(CNAME)));
    DisjointTypes(rs, SOA, CNAME);
  }

  /** The bounded chase decides the unbounded one. */
  lemma ChaseExact(rs: seq<RR>, zone: Name, target: Name, bound: nat)
    requires |CnameOwners(rs)| < bound
    ensures Chase(rs, zone, target, bound) == Resolved <==> Chases(rs, zone, target)
  {
    hide Chase, ChasesIn, CnameOwners;
    ChaseWithin(rs, zone, target, bound);
    if Chases(rs, zone, target) {
      var k: nat :| ChasesIn(rs, zone, target, k);
      HopBound(rs, zone, target, k);
      MoreHops(rs, zone, target, |CnameOwners(rs)|, bound - 1);
      ChaseWithin(rs, zone, target, bound - 1);
    }
  }

  /** The first `n` names of the chain from `target`. */
  ghost function Visits(rs: seq<RR>, target: Name, n: nat): (c: seq<Name>)
    ensures |c| <= n
    decreases n
  {
    if n == 0 then []
    else if Hop(rs, target).None? then [target]
    else [target] + Visits(rs, Hop(rs, target).value, n - 1)
  }

  lemma {:induction false} BoundHitChain(rs: seq<RR>, zone: Name, target: Name, fuel: nat)
    requires Chase(rs, zone, target, fuel) == BoundHit
    ensures |Visits(rs, target, fuel)| == fuel
    ensures forall i :: 0 <= i < fuel ==> Visits(rs, target, fuel)[i] in CnameOwners(rs)
    decreases fuel
  {
    if fuel > 0 {
      HopOwner(rs, target);
      var next := Hop(rs, target).value;
      BoundHitChain(rs, zone, next, fuel - 1);
      assert Visits(rs, target, fuel) == [target] + Visits(rs, next, fuel - 1);
    }
  }

  lemma {:induction false} Pigeonhole(s: seq<Name>, holes: set<Name>)
    requires |holes| < |s| && forall i :: 0 <= i < |s| ==> s[i] in holes
    ensures exists i, j :: 0 <= i < j < |s| && s[i] == s[j]
    decreases |s|
  {
    var init, last := s[..|s| - 1], s[|s| - 1];
    if i :| 0 <= i < |init| && init[i] == last {
      assert s[i] == s[|s| - 1];
    } else {
      Pigeonhole(init, holes - {last});
      var i, j :| 0 <= i < j < |init| && init[i] == init[j];
      assert s[i] == s[j];
    }
  }

  /** Running into the bound means the chain visits a name twice: a real cycle. */
  lemma BoundMeansCycle(rs: seq<RR>, zone: Name, target: Name, bound: nat)
    requires |CnameOwners(rs)| < bound && Chase(rs, zone, target, bound) == BoundHit
    ensures var c := Visits(rs, target, bound);
            exists i, j :: 0 <= i < j < |c| && c[i] == c[j]
    ensures !Chases(rs, zone, target)
  {
    BoundHitChain(rs, zone, target, bound);
    Pigeonhole(Visits(rs, target, bound), CnameOwners(rs));
    ChaseExact(rs, zone, target, bound);
  }

  /** `LookupByType` for A, then for AAAA. */
  method Addressed(d: DB, ghost rs: seq<RR>, n: Name) returns (b: bool)
    requires Indexes(d, rs)
    ensures b == HasAddress(rs, n)
  {
    IndexedRRset(d, rs, n, A);
    IndexedRRset(d, rs, n, AAAA);
    var a := LookupByType(d, n, A);
    if |a| > 0 {
      return true;
    }
    var aaaa := LookupByType(d, n, AAAA);
    return |aaaa| > 0;
  }

  lemma PickedTyped(rs: seq<RR>, w: Want, r: RR)
    requires Typed(rs) && r in Pick(rs, w)
    ensures r in rs && Match(w, r) && r.rtype == r.opts.RRType()
    ensures r.rtype == CNAME ==> r.opts.OptsCNAME? && CnameOf(r.opts) == r.opts.cname
    ensures r.rtype == NS ==> r.opts.OptsNS? && NsOf(r.opts) == r.opts.ns
    ensures r.rtype == SOA ==> r.opts.OptsSOA?
  {
    PickMembers(rs, w);
    TypedMember(rs, r);
  }

  lemma ChaseStep(rs: seq<RR>, zone: Name, target: Name, fuel: nat)
    requires fuel > 0 && !HasAddress(rs, target) && Hop(rs, target).Some?
    ensures var next := Hop(rs, target).value;
            Chase(rs, zone, target, fuel) == if InZone(zone, next) then Chase(rs, zone, next, fuel - 1) else Resolved
  {
  }

  /** The chase loop: `target` and `depth` advance until an address, the zone's edge, a dead end or the bound. */
  method ChaseLoop(d: DB, ghost rs: seq<RR>, start: Name, maxDepth: nat) returns (o: Outcome)
    requires Indexes(d, rs) && Typed(rs)
    ensures o == Chase(rs, d.zone, start, maxDepth)
  {
    hide Indexes, Typed, Pick, TypeList;
    var target := start;
    var depth := 0;
    while true
      invariant 0 <= depth <= maxDepth
      invariant Chase(rs, d.zone, start, maxDepth) == Chase(rs, d.zone, target, maxDepth - depth)
      decreases maxDepth - depth
    {
      if depth >= maxDepth {
        return BoundHit;
      }
      var addressed := Addressed(d, rs, target);
      if addressed {
        return Resolved;
      }
      IndexedRRset(d, rs, target, CNAME);
      var next := LookupByType(d, target, CNAME);
      if |next| == 0 {
        return Dangling;
      }
      PickedTyped(rs, RRset(target, CNAME), next[0]);
      ChaseStep(rs, d.zone, target, maxDepth - depth);
      target := next[0].opts.cname;
      if !InZone(d.zone, target) {
        return Resolved;
      }
      depth := depth + 1;
    }
  }

  // ----- the nine checks as predicates on the record list

  ghost predicate MnameServed(rs: seq<RR>, mname: Name) {
    exists r :: r in Pick(rs, OfType(NS)) && NsOf(r.opts) == mname
  }

  ghost predicate NsAddressed(rs: seq<RR>) {
    forall r :: r in Pick(rs, OfType(NS)) ==> HasAddress(rs, NsOf(r.opts))
  }

  ghost predicate UniqueCnames(rs: seq<RR>) {
    var c := Pick(rs, OfType(CNAME));
    forall i, j :: 0 <= i < j < |c| ==> c[i].name != c[j].name
  }

  ghost predicate OtherData(rs: seq<RR>, n: Name) {
    exists p :: p in rs && p.name == n && !CnameCompatible(p.rtype)
  }

  ghost predicate CnamesAlone(rs: seq<RR>) {
    forall r :: r in Pick(rs, OfType(CNAME)) ==> !OtherData(rs, r.name)
  }

  ghost predicate NoSelfReference(rs: seq<RR>) {
    forall r :: r in Pick(rs, OfType(CNAME)) ==> r.name != CnameOf(r.opts)
  }

  ghost predicate CnamesChase(rs: seq<RR>, zone: Name) {
    forall r :: r in Pick(rs, OfType(CNAME)) ==> CnameFine(rs, zone, CnameOf(r.opts))
  }

  /** The verdict on a zone, free of bounds and of the order in which maps are walked. */
  ghost function Verdict(rs: seq<RR>, zone: Name): (e: Option<SanityError>) {
    var soas := Pick(rs, OfType(SOA));
    if |soas| == 0 then Some(SOAMissing)
    else if |soas| > 1 then Some(MultipleSOAs)
    else if soas[0].opts.OptsSOA? && soas[0].opts.serial == 0 then Some(SOAZeroSerial)
    else if soas[0].opts.OptsSOA? && !MnameServed(rs, soas[0].opts.mname) then Some(SOAMnameNoNS)
    else if !NsAddressed(rs) then Some(NSNoAddress)
    else if Pick(rs, RRset(zone, CNAME)) != [] then Some(CnameAtApex)
    else if !UniqueCnames(rs) then Some(DuplicateCname)
    else if !CnamesAlone(rs) then Some(CnameHasOtherData)
    else if !NoSelfReference(rs) then Some(CnameSelfReference)
    else if !CnamesChase(rs, zone) then Some(CnameNoResolve)
    else None
  }

  // ----- the loops of the checks

  method CountSOA(all: seq<RR>) returns (n: nat)
    ensures n == |Pick(all, OfType(SOA))|
  {
    n := 0;
    var i := 0;
    while i < |all|
      invariant 0 <= i <= |all|
      invariant n == |Pick(all[..i], OfType(SOA))|
    {
      assert all[..i + 1][..i] == all[..i];
      if all[i].rtype == SOA {
        n := n + 1;
      }
      i := i + 1;
    }
    assert all[..i] == all;
  }

  method CheckMname(d: DB, ghost rs: seq<RR>, mname: Name) returns (ok: bool)
    requires Indexes(d, rs) && Typed(rs)
    ensures ok <==> MnameServed(rs, mname)
  {
    IndexedList(d, rs, NS);
    var list := TypeList(d, NS);
    hide Indexes, Typed, Pick, TypeList, HasAddress, NsOf;
    ok := false;
    var i := 0;
    while i < |list|
      invariant 0 <= i <= |list|
      invariant ok <==> exists j :: 0 <= j < i && NsOf(list[j].opts) == mname
    {
      PickedTyped(rs, OfType(NS), list[i]);
      var c := CompareDomain(list[i].opts.ns, mname);
      if c == 0 {
        ok := true;
      }
      i := i + 1;
    }
  }

  lemma NsAddressedIf(rs: seq<RR>, list: seq<RR>)
    requires list == Pick(rs, OfType(NS)) && forall j :: 0 <= j < |list| ==> HasAddress(rs, NsOf(list[j].opts))
    ensures NsAddressed(rs)
  {
    hide Pick, HasAddress, NsOf;
  }

  lemma NsUnaddressed(rs: seq<RR>, r: RR)
    requires r in Pick(rs, OfType(NS)) && !HasAddress(rs, NsOf(r.opts))
    ensures !NsAddressed(rs)
  {
    hide Pick, HasAddress, NsOf;
  }

  method CheckNsAddresses(d: DB, ghost rs: seq<RR>) returns (ok: bool)
    requires Indexes(d, rs) && Typed(rs)
    ensures ok <==> NsAddressed(rs)
  {
    hide Indexes, Typed, Pick, TypeList, HasAddress, NsAddressed;
    IndexedList(d, rs, NS);
    var list := TypeList(d, NS);
    var i := 0;
    while i < |list|
      invariant 0 <= i <= |list|
      invariant forall j :: 0 <= j < i ==> HasAddress(rs, NsOf(list[j].opts))
    {
      PickedTyped(rs, OfType(NS), list[i]);
      var addressed := Addressed(d, rs, list[i].opts.ns);
      if !addressed {
        NsUnaddressed(rs, list[i]);
        return false;
      }
      i := i + 1;
    }
    NsAddressedIf(rs, list);
    return true;
  }

  method CheckUnique(list: seq<RR>) returns (ok: bool)
    ensures ok <==> forall i, j :: 0 <= i < j < |list| ==> list[i].name != list[j].name
  {
    var seen: set<Name> := {};
    var i := 0;
    while i < |list|
      invariant 0 <= i <= |list|
      invariant forall n :: n in seen <==> exists j :: 0 <= j < i && list[j].name == n
      invariant forall j, k :: 0 <= j < k < i ==> list[j].name != list[k].name
    {
      if list[i].name in seen {
        return false;
      }
      seen := seen + {list[i].name};
      i := i + 1;
    }
    return true;
  }

  method CheckAlone(d: DB, ghost rs: seq<RR>) returns (ok: bool)
    requires Indexes(d, rs)
    ensures ok <==> CnamesAlone(rs)
  {
    IndexedList(d, rs, CNAME);
    var list := TypeList(d, CNAME);
    hide Indexes, Typed, Pick, TypeList, CnameFine, OtherData, CnameOf;
    var i := 0;
    while i < |list|
      invariant 0 <= i <= |list|
      invariant forall j :: 0 <= j < i ==> !OtherData(rs, list[j].name)
    {
      var other := HasOtherData(d, rs, list[i].name);
      if other {
        return false;
      }
      i := i + 1;
    }
    return true;
  }

  method HasOtherData(d: DB, ghost rs: seq<RR>, n: Name) returns (other: bool)
    requires Indexes(d, rs)
    ensures other <==> OtherData(rs, n)
  {
    IndexedName(d.zone, rs, n);
    PickMembers(rs, AtName(n));
    var peers := NameList(d, n);
    var i := 0;
    while i < |peers|
      invariant 0 <= i <= |peers|
      invariant forall j :: 0 <= j < i ==> CnameCompatible(peers[j].rtype)
    {
      if !CnameCompatible(peers[i].rtype) {
        assert peers[i] in rs;
        return true;
      }
      i := i + 1;
    }
    return false;
  }

  method CheckSelf(d: DB, ghost rs: seq<RR>) returns (ok: bool)
    requires Indexes(d, rs) && Typed(rs)
    ensures ok <==> NoSelfReference(rs)
  {
    IndexedList(d, rs, CNAME);
    var list := TypeList(d, CNAME);
    hide Indexes, Typed, Pick, TypeList, CnameFine, OtherData, CnameOf;
    var i := 0;
    while i < |list|
      invariant 0 <= i <= |list|
      invariant forall j :: 0 <= j < i ==> list[j].name != CnameOf(list[j].opts)
    {
      PickedTyped(rs, OfType(CNAME), list[i]);
      var c := CompareDomain(list[i].name, list[i].opts.cname);
      if c == 0 {
        return false;
      }
      i := i + 1;
    }
    return true;
  }

  ghost predicate CnameFine(rs: seq<RR>, zone: Name, target: Name) {
    !InZone(zone, target) || Chases(rs, zone, target)
  }

  method CheckOneCname(d: DB, ghost rs: seq<RR>, target: Name, maxDepth: nat) returns (ok: bool)
    requires Indexes(d, rs) && Typed(rs) && |CnameOwners(rs)| < maxDepth
    ensures ok <==> CnameFine(rs, d.zone, target)
  {
    if !InZone(d.zone, target) {
      return true;
    }
    var o := ChaseLoop(d, rs, target, maxDepth);
    ChaseExact(rs, d.zone, target, maxDepth);
    return o == Resolved;
  }

  /** Check 9, with the depth bound of the source. */
  method CheckResolve(d: DB, ghost rs: seq<RR>, maxDepth: nat) returns (ok: bool)
    requires Indexes(d, rs) && Typed(rs) && |CnameOwners(rs)| < maxDepth
    ensures ok <==> CnamesChase(rs, d.zone)
  {
    IndexedList(d, rs, CNAME);
    var list := TypeList(d, CNAME);
    hide Indexes, Typed, Pick, TypeList, CnameFine, OtherData, CnameOf;
    var i := 0;
    while i < |list|
      invariant 0 <= i <= |list|
      invariant forall j :: 0 <= j < i ==> CnameFine(rs, d.zone, CnameOf(list[j].opts))
    {
      PickedTyped(rs, OfType(CNAME), list[i]);
      var fine := CheckOneCname(d, rs, list[i].opts.cname, maxDepth);
      if !fine {
        return false;
      }
      i := i + 1;
    }
    return true;
  }

  /** `SanityChecks`: the first failing check decides, and the bounded chase costs no precision. */
  method SanityChecks(d: DB, ghost rs: seq<RR>) returns (e: Option<SanityError>)
    requires Indexes(d, rs) && Typed(rs) && NoDup(rs)
    ensures e == Verdict(rs, d.zone)
  {
    ghost var order;
    var all;
    all, order := AllRecords(d);
    FlattenFacts(d, rs, order);
    var soaCount := CountSOA(all);
    if soaCount == 0 {
      return Some(SOAMissing);
    }
    if soaCount > 1 {
      return Some(MultipleSOAs);
    }
    var soa := FindSOA(d, rs, all);
    if soa.opts.serial == 0 {
      return Some(SOAZeroSerial);
    }
    e := LaterChecks(d, rs, soa.opts.mname, |all|);
  }

  lemma FlattenFacts(d: DB, rs: seq<RR>, order: seq<RRType>)
    requires Indexes(d, rs) && NoDup(rs) && IsOrder(d, order)
    ensures var all := Dedup(Flatten(d, order));
      && |all| == |rs| && Pick(all, OfType(SOA)) == Pick(rs, OfType(SOA)) && multiset(all) == multiset(rs)
  {
    FlattenSame(d, Index(d.zone, rs), order);
    FlattenPermutes(d.zone, rs, order);
    FlattenCount(d.zone, rs, order, SOA);
  }

  /** The SOA at the apex, or else the only SOA there is. */
  method FindSOA(d: DB, ghost rs: seq<RR>, all: seq<RR>) returns (soa: RR)
    requires Indexes(d, rs) && Typed(rs) && |Pick(rs, OfType(SOA))| == 1
    requires Pick(all, OfType(SOA)) == Pick(rs, OfType(SOA))
    ensures soa == Pick(rs, OfType(SOA))[0] && soa.opts.OptsSOA?
  {
    hide Indexes, Typed, Pick, TypeList;
    ghost var only := Pick(rs, OfType(SOA))[0];
    PickedTyped(rs, OfType(SOA), only);
    IndexedRRset(d, rs, d.zone, SOA);
    var soas := LookupByType(d, d.zone, SOA);
    if |soas| > 0 {
      PickMember(rs, RRset(d.zone, SOA), soas[0]);
      PickMember(rs, OfType(SOA), soas[0]);
      return soas[0];
    }
    PickMember(all, OfType(SOA), only);
    soa := FirstSOA(all, only);
  }

  method FirstSOA(all: seq<RR>, ghost only: RR) returns (soa: RR)
    requires only in all && only.rtype == SOA && Pick(all, OfType(SOA)) == [only]
    ensures soa == only
  {
    var i := 0;
    while all[i].rtype != SOA
      invariant 0 <= i < |all|
      invariant only in all[i..]
      decreases |all| - i
    {
      assert only != all[i] && all[i..] == [all[i]] + all[i + 1..];
      i := i + 1;
    }
    soa := all[i];
    PickMember(all, OfType(SOA), soa);
  }

  method LaterChecks(d: DB, ghost rs: seq<RR>, mname: Name, maxDepth: nat) returns (e: Option<SanityError>)
    requires Indexes(d, rs) && Typed(rs) && maxDepth == |rs| && Pick(rs, OfType(SOA)) != []
    ensures e == if !MnameServed(rs, mname) then Some(SOAMnameNoNS)
                 else if !NsAddressed(rs) then Some(NSNoAddress)
                 else if Pick(rs, RRset(d.zone, CNAME)) != [] then Some(CnameAtApex)
                 else if !UniqueCnames(rs) then Some(DuplicateCname)
                 else if !CnamesAlone(rs) then Some(CnameHasOtherData)
                 else if !NoSelfReference(rs) then Some(CnameSelfReference)
                 else if !CnamesChase(rs, d.zone) then Some(CnameNoResolve)
                 else None
  {
    var served := CheckMname(d, rs, mname);
    if !served {
      return Some(SOAMnameNoNS);
    }
    var addressed := CheckNsAddresses(d, rs);
    if !addressed {
      return Some(NSNoAddress);
    }
    IndexedRRset(d, rs, d.zone, CNAME);
    var cnames := LookupByType(d, d.zone, CNAME);
    if |cnames| > 0 {
      return Some(CnameAtApex);
    }
    IndexedList(d, rs, CNAME);
    var unique := CheckUnique(TypeList(d, CNAME));
    if !unique {
      return Some(DuplicateCname);
    }
    var alone := CheckAlone(d, rs);
    if !alone {
      return Some(CnameHasOtherData);
    }
    var self := CheckSelf(d, rs);
    if !self {
      return Some(CnameSelfReference);
    }
    OwnersBelowBound(rs);
    var resolve := CheckResolve(d, rs, maxDepth);
    if !resolve {
      return Some(CnameNoResolve);
    }
    return None;
  }
}
