/**
 The zone database: two indexes over one flat record list, and the lookups on them.

 `Index` is the database that `NewDB` builds; `Pick` is the plain filter of the list that
 the indexed lookups have to agree with.
 */
module Database {
  import opened Bytes
  import opened Names
  import opened Records

  datatype Want =
    | OfType(t: RRType)
    | AtName(n: Name)
    | RRset(n: Name, t: RRType)
    | SigOver(n: Name, covered: nat)

  predicate Match(w: Want, r: RR) {
    match w
    case OfType(t) => r.rtype == t
    case AtName(n) => r.name == n
    case RRset(n, t) => r.name == n && r.rtype == t
    case SigOver(n, covered) => r.name == n && r.rtype == RRSIG && r.opts.OptsRRSIG? && r.opts.typeCovered == covered
  }

  /** The records of the list that match, in list order. */
  function Pick(rs: seq<RR>, w: Want): (r: seq<RR>) {
    if rs == [] then []
    else Pick(rs[..|rs| - 1], w) + if Match(w, rs[|rs| - 1]) then [rs[|rs| - 1]] else []
  }

  lemma {:induction false} PickConcat(a: seq<RR>, b: seq<RR>, w: Want)
    ensures Pick(a + b, w) == Pick(a, w) + Pick(b, w)
    decreases |b|
  {
    if b == [] {
      assert a + b == a;
    } else {
      assert (a + b)[..|a + b| - 1] == a + b[..|b| - 1];
      PickConcat(a, b[..|b| - 1], w);
    }
  }

  lemma PickAppend(rs: seq<RR>, r: RR, w: Want)
    ensures Pick(rs + [r], w) == Pick(rs, w) + if Match(w, r) then [r] else []
  {
    assert (rs + [r])[..|rs|] == rs;
  }

  lemma {:induction false} PickMembers(rs: seq<RR>, w: Want)
    ensures forall r :: r in Pick(rs, w) <==> r in rs && Match(w, r)
    decreases |rs|
  {
    if rs != [] {
      PickMembers(rs[..|rs| - 1], w);
      assert rs == rs[..|rs| - 1] + [rs[|rs| - 1]];
    }
  }

  lemma PickMember(rs: seq<RR>, w: Want, r: RR)
    ensures r in Pick(rs, w) <==> r in rs && Match(w, r)
  {
    PickMembers(rs, w);
  }

  /** Filtering twice is filtering by the finer wish. */
  lemma {:induction false} PickPick(rs: seq<RR>, w: Want, v: Want)
    requires forall r :: r in rs && Match(v, r) ==> Match(w, r)
    ensures Pick(Pick(rs, w), v) == Pick(rs, v)
    decreases |rs|
  {
    if rs != [] {
      var init, last := rs[..|rs| - 1], rs[|rs| - 1];
      assert rs == init + [last];
      PickPick(init, w, v);
      PickConcat(Pick(init, w), if Match(w, last) then [last] else [], v);
      if Match(w, last) {
        assert [last][..0] == [];
        assert Pick([last], v) == if Match(v, last) then [last] else [];
      }
    }
  }

  lemma {:induction false} PickNone(rs: seq<RR>, w: Want)
    requires forall r :: r in rs ==> !Match(w, r)
    ensures Pick(rs, w) == []
    decreases |rs|
  {
    if rs != [] {
      assert rs == rs[..|rs| - 1] + [rs[|rs| - 1]];
      PickNone(rs[..|rs| - 1], w);
    }
  }

  lemma {:induction false} PickAll(rs: seq<RR>, w: Want)
    requires forall r :: r in rs ==> Match(w, r)
    ensures Pick(rs, w) == rs
    decreases |rs|
  {
    if rs != [] {
      assert rs == rs[..|rs| - 1] + [rs[|rs| - 1]];
      PickAll(rs[..|rs| - 1], w);
    }
  }

  lemma {:induction false} PickCount(rs: seq<RR>, w: Want, r: RR)
    requires Match(w, r)
    ensures multiset(Pick(rs, w))[r] == multiset(rs)[r]
    decreases |rs|
  {
    if rs != [] {
      assert rs == rs[..|rs| - 1] + [rs[|rs| - 1]];
      PickCount(rs[..|rs| - 1], w, r);
    }
  }

  function Owners(rs: seq<RR>): (s: set<Name>) {
    set r | r in rs :: r.name
  }

  function Types(rs: seq<RR>): (s: set<RRType>) {
    set r | r in rs :: r.rtype
  }

  datatype DB = DB(zone: Name, byType: map<RRType, seq<RR>>, byName: map<Name, seq<RR>>,
                   dnssecEnabled: bool, count: nat)

  /** The database over the list `rs`. */
  function Index(zone: Name, rs: seq<RR>): (d: DB) {
    DB(zone,
       map t | t in Types(rs) :: Pick(rs, OfType(t)),
       map n | n in Owners(rs) :: Pick(rs, AtName(n)),
       false,
       |rs|)
  }

  function TypeList(d: DB, t: RRType): (rs: seq<RR>) {
    if t in d.byType then d.byType[t] else []
  }

  function NameList(d: DB, n: Name): (rs: seq<RR>) {
    if n in d.byName then d.byName[n] else []
  }

  lemma IndexedType(zone: Name, rs: seq<RR>, t: RRType)
    ensures TypeList(Index(zone, rs), t) == Pick(rs, OfType(t))
  {
    if t !in Types(rs) {
      PickNone(rs, OfType(t));
    }
  }

  lemma IndexedName(zone: Name, rs: seq<RR>, n: Name)
    ensures NameList(Index(zone, rs), n) == Pick(rs, AtName(n))
  {
    if n !in Owners(rs) {
      PickNone(rs, AtName(n));
    }
  }

  /** `NewDB`: append each record to the list of its type and to the list of its name. */
  method NewDB(zone: Name, records: seq<RR>) returns (d: DB)
    ensures d == Index(zone, records)
  {
    var byType: map<RRType, seq<RR>> := map[];
    var byName: map<Name, seq<RR>> := map[];
    var i := 0;
    while i < |records|
      invariant 0 <= i <= |records|
      invariant byType == Index(zone, records[..i]).byType
      invariant byName == Index(zone, records[..i]).byName
    {
      var rr := records[i];
      assert records[..i + 1] == records[..i] + [rr];
      TypeIndexStep(zone, records[..i], rr);
      NameIndexStep(zone, records[..i], rr);
      byType := byType[rr.rtype := (if rr.rtype in byType then byType[rr.rtype] else []) + [rr]];
      byName := byName[rr.name := (if rr.name in byName then byName[rr.name] else []) + [rr]];
      i := i + 1;
    }
    assert records[..i] == records;
    d := DB(zone, byType, byName, false, |records|);
  }

  lemma TypeIndexStep(zone: Name, a: seq<RR>, rr: RR)
    ensures Index(zone, a + [rr]).byType ==
            Index(zone, a).byType[rr.rtype := TypeList(Index(zone, a), rr.rtype) + [rr]]
  {
    hide Pick;
    var b := a + [rr];
    IndexedType(zone, a, rr.rtype);
    assert Types(b) == Types(a) + {rr.rtype};
    var m := Index(zone, a).byType[rr.rtype := TypeList(Index(zone, a), rr.rtype) + [rr]];
    forall t | t in m
      ensures Index(zone, b).byType[t] == m[t]
    {
      PickAppend(a, rr, OfType(t));
    }
  }

  lemma NameIndexStep(zone: Name, a: seq<RR>, rr: RR)
    ensures Index(zone, a + [rr]).byName ==
            Index(zone, a).byName[rr.name := NameList(Index(zone, a), rr.name) + [rr]]
  {
    hide Pick;
    var b := a + [rr];
    IndexedName(zone, a, rr.name);
    assert Owners(b) == Owners(a) + {rr.name};
    var m := Index(zone, a).byName[rr.name := NameList(Index(zone, a), rr.name) + [rr]];
    forall n | n in m
      ensures Index(zone, b).byName[n] == m[n]
    {
      PickAppend(a, rr, AtName(n));
    }
  }

  /** `LookupByType`: the list of the type, scanned by name. */
  method LookupByType(d: DB, name: Name, t: RRType) returns (result: seq<RR>)
    ensures result == Pick(TypeList(d, t), AtName(name))
  {
    var list := TypeList(d, t);
    result := [];
    var i := 0;
    while i < |list|
      invariant 0 <= i <= |list|
      invariant result == Pick(list[..i], AtName(name))
    {
      var c := CompareDomain(list[i].name, name);
      assert list[..i + 1][..i] == list[..i];
      if c == 0 {
        result := result + [list[i]];
      }
      i := i + 1;
    }
    assert list[..i] == list;
  }

  lemma ScanTypeList(rs: seq<RR>, n: Name, t: RRType)
    ensures Pick(Pick(rs, OfType(t)), AtName(n)) == Pick(rs, RRset(n, t))
  {
    PickPick(rs, OfType(t), RRset(n, t));
    PickMembers(rs, OfType(t));
    PickSame(Pick(rs, OfType(t)), AtName(n), RRset(n, t));
  }

  lemma ScanNameList(rs: seq<RR>, n: Name, t: RRType)
    ensures Pick(Pick(rs, AtName(n)), OfType(t)) == Pick(rs, RRset(n, t))
  {
    PickPick(rs, AtName(n), RRset(n, t));
    PickMembers(rs, AtName(n));
    PickSame(Pick(rs, AtName(n)), OfType(t), RRset(n, t));
  }

  lemma {:induction false} PickSame(rs: seq<RR>, w: Want, v: Want)
    requires forall r :: r in rs ==> (Match(w, r) <==> Match(v, r))
    ensures Pick(rs, w) == Pick(rs, v)
    decreases |rs|
  {
    if rs != [] {
      assert rs == rs[..|rs| - 1] + [rs[|rs| - 1]];
      PickSame(rs[..|rs| - 1], w, v);
    }
  }

  /** `d` carries the indexes of the list `rs`. */
  ghost predicate Indexes(d: DB, rs: seq<RR>) {
    d.byType == Index(d.zone, rs).byType && d.byName == Index(d.zone, rs).byName
  }

  lemma IndexedList(d: DB, rs: seq<RR>, t: RRType)
    requires Indexes(d, rs)
    ensures TypeList(d, t) == Pick(rs, OfType(t))
  {
    IndexedType(d.zone, rs, t);
  }

  /** Both indexed lookups are the plain filter of the record list. */
  lemma IndexedRRset(d: DB, rs: seq<RR>, n: Name, t: RRType)
    requires Indexes(d, rs)
    ensures Pick(TypeList(d, t), AtName(n)) == Pick(rs, RRset(n, t))
    ensures Pick(NameList(d, n), OfType(t)) == Pick(rs, RRset(n, t))
  {
    IndexedType(d.zone, rs, t);
    ScanTypeList(rs, n, t);
    IndexedName(d.zone, rs, n);
    ScanNameList(rs, n, t);
  }

  lemma IndexedOwners(d: DB, rs: seq<RR>)
    requires Indexes(d, rs)
    ensures d.byName.Keys == Owners(rs) && d.byType.Keys == Types(rs)
  {
  }

  lemma OwnerOfRRset(rs: seq<RR>, n: Name, t: RRType)
    ensures Pick(rs, RRset(n, t)) != [] ==> n in Owners(rs)
  {
    PickMembers(rs, RRset(n, t));
    if n !in Owners(rs) {
      PickNone(rs, RRset(n, t));
    }
  }

  /** `LookupByName`: the list of the name, scanned by type. */
  method LookupByName(d: DB, name: Name, t: RRType) returns (result: seq<RR>)
    ensures result == Pick(NameList(d, name), OfType(t))
  {
    var list := NameList(d, name);
    result := [];
    var i := 0;
    while i < |list|
      invariant 0 <= i <= |list|
      invariant result == Pick(list[..i], OfType(t))
    {
      assert list[..i + 1][..i] == list[..i];
      if list[i].rtype == t {
        result := result + [list[i]];
      }
      i := i + 1;
    }
    assert list[..i] == list;
  }

  // ----- wildcards (section 4.3.3 of RFC 1034, section 3.3.1 of RFC 4592)

  /** A node exists when it owns records or lies above an owner (an empty non-terminal). */
  ghost predicate NodeExists(owners: set<Name>, n: Name) {
    n in owners || exists k :: k in owners && Below(k, n)
  }

  /** The ancestors in question go up to the zone apex; for a name outside the zone, up to the root. */
  function Floor(zone: Name, q: Name): (k: nat)
    ensures k <= |q|
  {
    if AtOrBelow(q, zone) then |zone| else 0
  }

  /** `ce` is the longest proper ancestor of `q`, not above the floor, that exists. */
  ghost predicate IsClosestEncloser(owners: set<Name>, zone: Name, q: Name, ce: Name) {
    && Below(q, ce) && Floor(zone, q) <= |ce| && NodeExists(owners, ce)
    && forall p :: Below(q, p) && |ce| < |p| ==> !NodeExists(owners, p)
  }

  /** The longest existing ancestor of `q` with a label count from `floor` to `len`. */
  ghost function EncloserUpTo(owners: set<Name>, q: Name, floor: nat, len: int): (ce: Option<Name>)
    requires len <= |q|
    decreases len + 1
  {
    if len < floor then None
    else if NodeExists(owners, q[|q| - len..]) then Some(q[|q| - len..])
    else EncloserUpTo(owners, q, floor, len - 1)
  }

  ghost function ClosestEncloser(owners: set<Name>, zone: Name, q: Name): (ce: Option<Name>) {
    EncloserUpTo(owners, q, Floor(zone, q), |q| - 1)
  }

  lemma {:induction false} EncloserUpToSpec(owners: set<Name>, q: Name, floor: nat, len: int)
    requires len < |q|
    ensures var ce := EncloserUpTo(owners, q, floor, len);
      && (ce.Some? ==> Below(q, ce.value) && floor <= |ce.value| <= len && NodeExists(owners, ce.value))
      && forall p :: Below(q, p) && floor <= |p| <= len && NodeExists(owners, p) ==>
           ce.Some? && |p| <= |ce.value|
    decreases len + 1
  {
    if floor <= len && !NodeExists(owners, q[|q| - len..]) {
      EncloserUpToSpec(owners, q, floor, len - 1);
    }
  }

  /** The recursive search finds exactly the closest encloser of the RFC. */
  lemma ClosestEncloserSpec(owners: set<Name>, zone: Name, q: Name, ce: Name)
    ensures ClosestEncloser(owners, zone, q) == Some(ce) <==> IsClosestEncloser(owners, zone, q, ce)
  {
    EncloserUpToSpec(owners, q, Floor(zone, q), |q| - 1);
    var found := ClosestEncloser(owners, zone, q);
    if IsClosestEncloser(owners, zone, q, ce) {
      assert |found.value| == |ce|;
      assert ce == q[|q| - |ce|..] == found.value;
    }
  }

  ghost function WildcardOwner(owners: set<Name>, zone: Name, q: Name): (wc: Option<Name>) {
    match ClosestEncloser(owners, zone, q)
    case None => None
    case Some(ce) => if [STAR] + ce in owners then Some([STAR] + ce) else None
  }

  lemma SameLength(n: Name, a: Name, b: Name)
    requires AtOrBelow(n, a) && AtOrBelow(n, b)
    ensures |a| == |b| ==> a == b
  {
  }

  /** The scan over all keys for one that ends in "." + c. */
  method AnyBelow(keys: set<Name>, c: Name) returns (b: bool)
    ensures b <==> exists k :: k in keys && Below(k, c)
  {
    var todo := keys;
    b := false;
    while todo != {}
      invariant todo <= keys
      invariant forall k :: k in keys && k !in todo ==> !Below(k, c)
      decreases |todo|
    {
      var key :| key in todo;
      if Below(key, c) {
        return true;
      }
      todo := todo - {key};
    }
  }

  /** The inner loop: does a node strictly between `name` and `parent` exist? */
  method Blocked(keys: set<Name>, name: Name, parent: Name) returns (blocked: bool)
    requires Below(name, parent)
    ensures blocked <==> exists p :: Below(name, p) && |parent| < |p| && NodeExists(keys, p)
  {
    var intermediate := name;
    blocked := false;
    while intermediate[1..] != parent
      invariant |parent| < |intermediate| && AtOrBelow(name, intermediate)
      invariant AtOrBelow(intermediate, parent)
      invariant forall p :: Below(name, p) && |intermediate| <= |p| ==> !NodeExists(keys, p)
      decreases |intermediate|
    {
      var c := intermediate[1..];
      assert AtOrBelow(name, c) by {
        assert name[|name| - |c|..] == intermediate[1..];
      }
      SameLength(intermediate, c, parent);
      assert AtOrBelow(c, parent) by {
        assert c[|c| - |parent|..] == intermediate[|intermediate| - |parent|..];
      }
      assert Below(name, c);
      if c in keys {
        return true;
      }
      var below := AnyBelow(keys, c);
      if below {
        return true;
      }
      forall p | Below(name, p) && |c| <= |p|
        ensures !NodeExists(keys, p)
      {
        if |p| == |c| {
          assert p == c;
        }
      }
      intermediate := c;
    }
  }

  lemma WildcardFound(keys: set<Name>, zone: Name, name: Name, parent: Name)
    requires Below(name, parent) && Floor(zone, name) <= |parent| && [STAR] + parent in keys
    requires forall p :: Below(name, p) && |parent| < |p| ==> !NodeExists(keys, p)
    ensures WildcardOwner(keys, zone, name) == Some([STAR] + parent)
  {
    var wc := [STAR] + parent;
    assert wc[1..] == parent;
    assert Below(wc, parent);
    ClosestEncloserSpec(keys, zone, name, parent);
  }

  /** No wildcard below any ancestor of at least `k` labels, and the closest encloser has that many. */
  lemma WildcardAbsent(keys: set<Name>, zone: Name, name: Name, k: nat)
    requires forall p :: Below(name, p) && k <= |p| ==> [STAR] + p !in keys
    requires k <= Floor(zone, name) || exists p :: Below(name, p) && k <= |p| && NodeExists(keys, p)
    ensures WildcardOwner(keys, zone, name) == None
  {
    EncloserUpToSpec(keys, name, Floor(zone, name), |name| - 1);
  }

  /** `WildcardLookup`: walk up to the first ancestor with a wildcard child; an existing node in between blocks it. */
  method WildcardLookup(d: DB, name: Name, zone: Name, t: RRType) returns (wildcard: Option<Name>, rrs: seq<RR>)
    ensures wildcard == WildcardOwner(d.byName.Keys, zone, name)
    ensures rrs == if wildcard.Some? then Pick(NameList(d, wildcard.value), OfType(t)) else []
  {
    var keys := d.byName.Keys;
    if name == zone {
      return None, [];
    }
    var current := name;
    while current != []
      invariant AtOrBelow(name, current)
      invariant AtOrBelow(name, zone) ==> |zone| < |current|
      invariant forall p :: Below(name, p) && |current| <= |p| ==> [STAR] + p !in keys
      decreases |current|
    {
      var parent := current[1..];
      BelowTrans(name, current, parent);
      var wc: Name := [STAR] + parent;
      if wc in keys {
        var blocked := Blocked(keys, name, parent);
        if blocked {
          WildcardAbsent(keys, zone, name, |current|);
          return None, [];
        }
        WildcardFound(keys, zone, name, parent);
        rrs := LookupByName(d, wc, t);
        return Some(wc), rrs;
      }
      forall p | Below(name, p) && |parent| <= |p|
        ensures [STAR] + p !in keys
      {
        SameLength(name, p, parent);
      }
      if parent == zone {
        WildcardAbsent(keys, zone, name, |parent|);
        return None, [];
      }
      if AtOrBelow(name, zone) {
        SameLength(name, parent, zone);
      }
      current := parent;
    }
    WildcardAbsent(keys, zone, name, 0);
    return None, [];
  }

  // ----- additional section

  function Target(o: Opts): (n: Option<Name>) {
    match o
    case OptsCNAME(cname) => Some(cname)
    case OptsMX(_, mx) => Some(mx)
    case OptsNS(ns) => Some(ns)
    case OptsSRV(_, _, _, target) => Some(target)
    case _ => None
  }

  /** The distinct targets named by the answers, in order of first appearance. */
  function Targets(answers: seq<RR>): (ns: seq<Name>) {
    if answers == [] then []
    else
      var before, t := Targets(answers[..|answers| - 1]), Target(answers[|answers| - 1].opts);
      if t.None? || t.value in before then before else before + [t.value]
  }

  /** The address records of each name, A before AAAA. */
  function Addresses(rs: seq<RR>, ns: seq<Name>): (r: seq<RR>) {
    if ns == [] then []
    else
      var n := ns[|ns| - 1];
      Addresses(rs, ns[..|ns| - 1]) + Pick(rs, RRset(n, A)) + Pick(rs, RRset(n, AAAA))
  }

  lemma AddressesAppend(rs: seq<RR>, ns: seq<Name>, n: Name)
    ensures Addresses(rs, ns + [n]) == Addresses(rs, ns) + Pick(rs, RRset(n, A)) + Pick(rs, RRset(n, AAAA))
  {
    assert (ns + [n])[..|ns|] == ns;
  }

  /** `LookupAdditional`: one pass with a `seen` set. */
  method LookupAdditional(d: DB, ghost rs: seq<RR>, answers: seq<RR>) returns (result: seq<RR>)
    requires Indexes(d, rs)
    ensures result == Addresses(rs, Targets(answers))
  {
    var seen: set<Name> := {};
    result := [];
    var i := 0;
    while i < |answers|
      invariant 0 <= i <= |answers|
      invariant seen == Elems(Targets(answers[..i]))
      invariant result == Addresses(rs, Targets(answers[..i]))
    {
      assert answers[..i + 1][..i] == answers[..i];
      var target := Target(answers[i].opts);
      if target.Some? && target.value !in seen {
        seen := seen + {target.value};
        IndexedRRset(d, rs, target.value, A);
        IndexedRRset(d, rs, target.value, AAAA);
        var a := LookupByType(d, target.value, A);
        result := result + a;
        var aaaa := LookupByType(d, target.value, AAAA);
        result := result + aaaa;
        AddressesAppend(rs, Targets(answers[..i]), target.value);
        ElemsAppend(Targets(answers[..i]), target.value);
      }
      i := i + 1;
    }
    assert answers[..i] == answers;
  }

  lemma {:induction false} TargetsOnce(answers: seq<RR>)
    ensures NoDup(Targets(answers))
    decreases |answers|
  {
    if answers != [] {
      hide Target;
      var init, t := answers[..|answers| - 1], Target(answers[|answers| - 1].opts);
      TargetsOnce(init);
      if t.Some? && t.value !in Targets(init) {
        NoDupAppend(Targets(init), t.value);
      }
    }
  }

  lemma {:induction false} TargetsExact(answers: seq<RR>, n: Name)
    ensures n in Targets(answers) <==> exists a :: a in answers && Target(a.opts) == Some(n)
    decreases |answers|
  {
    hide Target;
    if answers != [] {
      var init, last := answers[..|answers| - 1], answers[|answers| - 1];
      assert answers == init + [last];
      TargetsExact(init, n);
    }
  }

  lemma {:induction false} AddressesExact(rs: seq<RR>, ns: seq<Name>, r: RR)
    requires NoDup(ns)
    ensures multiset(Addresses(rs, ns))[r] == if r.name in ns && (r.rtype == A || r.rtype == AAAA) then multiset(rs)[r] else 0
    decreases |ns|
  {
    if ns != [] {
      var init, n := ns[..|ns| - 1], ns[|ns| - 1];
      assert ns == init + [n];
      AddressesExact(rs, init, r);
      AddressesAppend(rs, init, n);
      hide Pick, Addresses;
      PickCounts(rs, RRset(n, A), r);
      PickCounts(rs, RRset(n, AAAA), r);
    }
  }

  lemma PickCounts(rs: seq<RR>, w: Want, r: RR)
    ensures multiset(Pick(rs, w))[r] == if Match(w, r) then multiset(rs)[r] else 0
  {
    if Match(w, r) {
      PickCount(rs, w, r);
    } else {
      PickMember(rs, w, r);
    }
  }

  /** The additional section: every address record of a host that an answer names, as often as it is listed, and no other. */
  lemma AdditionalExact(rs: seq<RR>, answers: seq<RR>, r: RR)
    ensures multiset(Addresses(rs, Targets(answers)))[r] ==
            if (r.rtype == A || r.rtype == AAAA) && exists a :: a in answers && Target(a.opts) == Some(r.name)
            then multiset(rs)[r] else 0
  {
    TargetsExact(answers, r.name);
    TargetsOnce(answers);
    AddressesExact(rs, Targets(answers), r);
  }

  // ----- flattening

  ghost predicate NoDup<T>(s: seq<T>) {
    s == [] || (s[|s| - 1] !in s[..|s| - 1] && NoDup(s[..|s| - 1]))
  }

  lemma {:induction false} NoDupCount<T(!new)>(s: seq<T>)
    ensures NoDup(s) <==> forall x :: x in s ==> multiset(s)[x] == 1
    decreases |s|
  {
    if s != [] {
      var init, last := s[..|s| - 1], s[|s| - 1];
      assert s == init + [last];
      assert multiset(s) == multiset(init) + multiset{last};
      NoDupCount(init);
      assert last in s && forall x :: x in init ==> x in s;
    }
  }

  lemma NoDupAppend<T>(s: seq<T>, x: T)
    requires NoDup(s) && x !in s
    ensures NoDup(s + [x])
  {
    assert (s + [x])[..|s|] == s;
  }

  /** `order` lists each type of the index once: one possible iteration order of the map. */
  ghost predicate IsOrder(d: DB, order: seq<RRType>) {
    NoDup(order) && Elems(order) == d.byType.Keys
  }

  function Flatten(d: DB, order: seq<RRType>): (rs: seq<RR>) {
    if order == [] then [] else Flatten(d, order[..|order| - 1]) + TypeList(d, order[|order| - 1])
  }

  /** Without the second and later occurrences of a record. */
  function Dedup(rs: seq<RR>): (r: seq<RR>) {
    if rs == [] then []
    else
      var init, last := rs[..|rs| - 1], rs[|rs| - 1];
      if last in init then Dedup(init) else Dedup(init) + [last]
  }

  lemma {:induction false} DedupOnce(rs: seq<RR>)
    ensures forall x :: x in Dedup(rs) <==> x in rs
    ensures NoDup(Dedup(rs))
    decreases |rs|
  {
    if rs != [] {
      var init, last := rs[..|rs| - 1], rs[|rs| - 1];
      DedupOnce(init);
      assert rs == init + [last];
      if last !in init {
        NoDupAppend(Dedup(init), last);
      }
    }
  }

  /** `AllRecords`: the type lists one after the other, in map order, each record once. */
  method AllRecords(d: DB) returns (result: seq<RR>, ghost order: seq<RRType>)
    ensures IsOrder(d, order)
    ensures result == Dedup(Flatten(d, order))
  {
    var todo := d.byType.Keys;
    var seen: set<RR> := {};
    result := [];
    order := [];
    while todo != {}
      invariant todo <= d.byType.Keys && NoDup(order)
      invariant Elems(order) == d.byType.Keys - todo
      invariant result == Dedup(Flatten(d, order))
      invariant seen == Elems(result)
      decreases |todo|
    {
      var t :| t in todo;
      OrderStep(d.byType.Keys, todo, order, t);
      FlattenAppend(d, order, t);
      result, seen := AppendUnseen(Flatten(d, order), result, seen, d.byType[t]);
      todo := todo - {t};
      order := order + [t];
    }
  }

  lemma OrderStep<T>(keys: set<T>, todo: set<T>, order: seq<T>, t: T)
    requires t in todo && todo <= keys && NoDup(order) && Elems(order) == keys - todo
    ensures NoDup(order + [t]) && Elems(order + [t]) == keys - (todo - {t})
  {
    assert t !in Elems(order);
    NoDupAppend(order, t);
    ElemsAppend(order, t);
  }

  lemma FlattenAppend(d: DB, order: seq<RRType>, t: RRType)
    ensures Flatten(d, order + [t]) == Flatten(d, order) + TypeList(d, t)
  {
    assert (order + [t])[..|order|] == order;
  }

  method AppendUnseen(ghost before: seq<RR>, r: seq<RR>, s: set<RR>, list: seq<RR>)
    returns (result: seq<RR>, seen: set<RR>)
    requires r == Dedup(before) && s == Elems(r)
    ensures result == Dedup(before + list) && seen == Elems(result)
  {
    result, seen := r, s;
    var i := 0;
    assert before + list[..0] == before;
    while i < |list|
      invariant 0 <= i <= |list|
      invariant result == Dedup(before + list[..i]) && seen == Elems(result)
    {
      DedupStep(before, list, i);
      ElemsAppend(result, list[i]);
      if list[i] !in seen {
        seen := seen + {list[i]};
        result := result + [list[i]];
      }
      i := i + 1;
    }
    assert list[..i] == list;
  }

  lemma DedupStep(before: seq<RR>, list: seq<RR>, i: nat)
    requires i < |list|
    ensures var r := Dedup(before + list[..i]);
            Dedup(before + list[..i + 1]) == if list[i] in r then r else r + [list[i]]
  {
    assert (before + list[..i + 1])[..|before| + i] == before + list[..i];
    DedupOnce(before + list[..i]);
  }

  lemma {:induction false} DedupId(rs: seq<RR>)
    requires NoDup(rs)
    ensures Dedup(rs) == rs
    decreases |rs|
  {
    if rs != [] {
      var init, last := rs[..|rs| - 1], rs[|rs| - 1];
      assert rs == init + [last];
      DedupId(init);
    }
  }

  lemma DedupAppend(rs: seq<RR>, r: RR)
    ensures Dedup(rs + [r]) == if r in rs then Dedup(rs) else Dedup(rs) + [r]
  {
    assert (rs + [r])[..|rs|] == rs;
  }

  lemma {:induction false} PickDedup(rs: seq<RR>, w: Want)
    ensures Pick(Dedup(rs), w) == Dedup(Pick(rs, w))
    decreases |rs|
  {
    if rs != [] {
      var init, last := rs[..|rs| - 1], rs[|rs| - 1];
      PickDedup(init, w);
      PickMembers(init, w);
      PickAppend(Dedup(init), last, w);
      DedupAppend(Pick(init, w), last);
      if !Match(w, last) {
        assert Pick(rs, w) == Pick(init, w);
      } else if last in init {
        assert Dedup(rs) == Dedup(init);
      } else {
        assert Dedup(rs) == Dedup(init) + [last];
      }
    }
  }

  lemma {:induction false} FlattenSame(d: DB, e: DB, order: seq<RRType>)
    requires d.byType == e.byType
    ensures Flatten(d, order) == Flatten(e, order)
    decreases |order|
  {
    if order != [] {
      FlattenSame(d, e, order[..|order| - 1]);
    }
  }

  lemma {:induction false} PickFlatten(zone: Name, rs: seq<RR>, order: seq<RRType>, t: RRType)
    requires NoDup(order)
    ensures Pick(Flatten(Index(zone, rs), order), OfType(t)) == if t in order then Pick(rs, OfType(t)) else []
    decreases |order|
  {
    if order == [] {
      assert Flatten(Index(zone, rs), order) == [];
    } else {
      var init, last := order[..|order| - 1], order[|order| - 1];
      hide Pick, Flatten, Index;
      PickFlatten(zone, rs, init, t);
      FlattenStep(zone, rs, init, last, t);
      assert order == init + [last];
    }
  }

  lemma FlattenStep(zone: Name, rs: seq<RR>, init: seq<RRType>, last: RRType, t: RRType)
    ensures var d := Index(zone, rs);
      Pick(Flatten(d, init + [last]), OfType(t)) ==
      Pick(Flatten(d, init), OfType(t)) + if t == last then Pick(rs, OfType(t)) else []
  {
    hide Pick, Flatten, Index;
    var d := Index(zone, rs);
    FlattenAppend(d, init, last);
    PickConcat(Flatten(d, init), TypeList(d, last), OfType(t));
    IndexedType(zone, rs, last);
    OtherType(rs, last, t);
  }

  lemma OtherType(rs: seq<RR>, last: RRType, t: RRType)
    ensures Pick(Pick(rs, OfType(last)), OfType(t)) == if t == last then Pick(rs, OfType(t)) else []
  {
    PickMembers(rs, OfType(last));
    if t == last {
      PickAll(Pick(rs, OfType(last)), OfType(t));
    } else {
      PickNone(Pick(rs, OfType(last)), OfType(t));
    }
  }

  ghost predicate SameRRsets(a: seq<RR>, b: seq<RR>) {
    forall n, t :: Pick(a, RRset(n, t)) == Pick(b, RRset(n, t))
  }

  /** Whatever the map order, every type list of the flattened database is the original one, each record once. */
  lemma FlattenTypes(zone: Name, rs: seq<RR>, order: seq<RRType>, t: RRType)
    requires IsOrder(Index(zone, rs), order)
    ensures Pick(Dedup(Flatten(Index(zone, rs), order)), OfType(t)) == Dedup(Pick(rs, OfType(t)))
  {
    PickDedup(Flatten(Index(zone, rs), order), OfType(t));
    PickFlatten(zone, rs, order, t);
    if t !in order {
      assert t !in Index(zone, rs).byType;
      PickNone(rs, OfType(t));
    }
  }

  lemma FlattenRRsets(zone: Name, rs: seq<RR>, order: seq<RRType>, n: Name, t: RRType)
    requires IsOrder(Index(zone, rs), order)
    ensures Pick(Dedup(Flatten(Index(zone, rs), order)), RRset(n, t)) == Dedup(Pick(rs, RRset(n, t)))
  {
    var all := Dedup(Flatten(Index(zone, rs), order));
    FlattenTypes(zone, rs, order, t);
    ScanTypeList(all, n, t);
    ScanTypeList(rs, n, t);
    PickDedup(Pick(rs, OfType(t)), AtName(n));
  }

  /** Rebuilding from the flattened list keeps every RRset, order included, exactly when no pointer was listed twice. */
  lemma FlattenKeepsRRsets(zone: Name, rs: seq<RR>, order: seq<RRType>)
    requires IsOrder(Index(zone, rs), order)
    ensures SameRRsets(Dedup(Flatten(Index(zone, rs), order)), rs) <==> NoDup(rs)
  {
    var all := Dedup(Flatten(Index(zone, rs), order));
    if NoDup(rs) {
      forall n, t
        ensures Pick(all, RRset(n, t)) == Pick(rs, RRset(n, t))
      {
        FlattenRRsets(zone, rs, order, n, t);
        PickNoDup(rs, RRset(n, t));
        DedupId(Pick(rs, RRset(n, t)));
      }
    }
    if SameRRsets(all, rs) {
      forall r | r in rs
        ensures multiset(rs)[r] == 1
      {
        FlattenRRsets(zone, rs, order, r.name, r.rtype);
        CountOnce(rs, r);
      }
      NoDupCount(rs);
    }
  }

  lemma CountOnce(rs: seq<RR>, r: RR)
    requires r in rs && Dedup(Pick(rs, RRset(r.name, r.rtype))) == Pick(rs, RRset(r.name, r.rtype))
    ensures multiset(rs)[r] == 1
  {
    var w := RRset(r.name, r.rtype);
    PickCount(rs, w, r);
    PickMembers(rs, w);
    DedupOnce(Pick(rs, w));
    NoDupCount(Pick(rs, w));
  }

  lemma PickNoDup(rs: seq<RR>, w: Want)
    requires NoDup(rs)
    ensures NoDup(Pick(rs, w))
  {
    NoDupCount(rs);
    PickMembers(rs, w);
    forall x | x in Pick(rs, w)
      ensures multiset(Pick(rs, w))[x] == 1
    {
      PickCount(rs, w, x);
    }
    NoDupCount(Pick(rs, w));
  }

  lemma FlattenCount(zone: Name, rs: seq<RR>, order: seq<RRType>, t: RRType)
    requires IsOrder(Index(zone, rs), order) && NoDup(rs)
    ensures Pick(Dedup(Flatten(Index(zone, rs), order)), OfType(t)) == Pick(rs, OfType(t))
  {
    FlattenTypes(zone, rs, order, t);
    PickNoDup(rs, OfType(t));
    DedupId(Pick(rs, OfType(t)));
  }

  /** Flattening only permutes; the rebuilt database has the same type index and the same owners. */
  lemma FlattenPermutes(zone: Name, rs: seq<RR>, order: seq<RRType>)
    requires IsOrder(Index(zone, rs), order) && NoDup(rs)
    ensures var all := Dedup(Flatten(Index(zone, rs), order));
      && multiset(all) == multiset(rs) && |all| == |rs| && NoDup(all)
      && Index(zone, all).byType == Index(zone, rs).byType
      && Owners(all) == Owners(rs)
  {
    var all := Dedup(Flatten(Index(zone, rs), order));
    forall t
      ensures Pick(all, OfType(t)) == Pick(rs, OfType(t))
    {
      FlattenCount(zone, rs, order, t);
    }
    SameTypesPermute(all, rs);
    DedupOnce(Flatten(Index(zone, rs), order));
  }

  /** Two lists with the same type lists hold the same records. */
  lemma SameTypesPermute(a: seq<RR>, b: seq<RR>)
    requires forall t :: Pick(a, OfType(t)) == Pick(b, OfType(t))
    ensures multiset(a) == multiset(b) && |a| == |b|
    ensures Types(a) == Types(b) && Owners(a) == Owners(b)
  {
    forall r
      ensures multiset(a)[r] == multiset(b)[r]
    {
      PickCount(a, OfType(r.rtype), r);
      PickCount(b, OfType(r.rtype), r);
    }
    assert multiset(a) == multiset(b);
    assert |a| == |multiset(a)| == |multiset(b)| == |b|;
    assert forall r :: r in a <==> r in multiset(a);
    assert forall r :: r in b <==> r in multiset(b);
    assert forall r :: r in a <==> r in b;
  }
}
