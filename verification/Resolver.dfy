/** Answering a query: exact match, CNAME, NODATA, wildcard synthesis, NXDOMAIN. */
module Resolver {
  import opened Bytes
  import opened Names
  import opened Records
  import opened Database

  const NO_ERROR: nat := 0
  const NX_DOMAIN: nat := 3

  datatype Reply = Reply(rcode: nat, answers: seq<RR>, additional: seq<RR>, effectiveOwner: Name)

  /** `synthesiseAnswers`: copies of the wildcard's records under the queried name. */
  function Synthesise(rrs: seq<RR>, q: Name): (r: seq<RR>)
    ensures |r| == |rrs|
  {
    seq(|rrs|, i requires 0 <= i < |rrs| => rrs[i].(name := q))
  }

  ghost function Positive(rs: seq<RR>, answers: seq<RR>, owner: Name): (r: Reply) {
    Reply(NO_ERROR, answers, Addresses(rs, Targets(answers)), owner)
  }

  ghost function NoData(owner: Name): (r: Reply) {
    Reply(NO_ERROR, [], [], owner)
  }

  /** What a name that owns records answers. */
  ghost function AtNode(rs: seq<RR>, q: Name, t: RRType): (r: Reply) {
    if Pick(rs, RRset(q, t)) != [] then Positive(rs, Pick(rs, RRset(q, t)), q)
    else if Pick(rs, RRset(q, CNAME)) != [] then Positive(rs, Pick(rs, RRset(q, CNAME)), q)
    else NoData(q)
  }

  /** What the wildcard `wc` answers for `q`. */
  ghost function AtWildcard(rs: seq<RR>, wc: Name, q: Name, t: RRType): (r: Reply) {
    if Pick(rs, RRset(wc, t)) != [] then Positive(rs, Synthesise(Pick(rs, RRset(wc, t)), q), wc)
    else if Pick(rs, RRset(wc, CNAME)) != [] then Positive(rs, Synthesise(Pick(rs, RRset(wc, CNAME)), q), wc)
    else NoData(wc)
  }

  ghost function OffNode(rs: seq<RR>, zone: Name, q: Name, t: RRType): (r: Reply) {
    match WildcardOwner(Owners(rs), zone, q)
    case None => Reply(NX_DOMAIN, [], [], q)
    case Some(wc) => AtWildcard(rs, wc, q, t)
  }

  /** The reply as a function of the flat record list. */
  ghost function Resolve(rs: seq<RR>, zone: Name, q: Name, t: RRType): (r: Reply) {
    if q in Owners(rs) then AtNode(rs, q, t) else OffNode(rs, zone, q, t)
  }

  /** `lookupRRset`, on the indexes. */
  method LookupRRset(d: DB, ghost rs: seq<RR>, name: Name, t: RRType) returns (reply: Reply)
    requires Indexes(d, rs)
    ensures reply == Resolve(rs, d.zone, name, t)
  {
    IndexedRRset(d, rs, name, t);
    IndexedRRset(d, rs, name, CNAME);
    OwnerOfRRset(rs, name, t);
    OwnerOfRRset(rs, name, CNAME);
    IndexedOwners(d, rs);
    var answers := LookupByType(d, name, t);
    if |answers| > 0 {
      var additional := LookupAdditional(d, rs, answers);
      return Reply(NO_ERROR, answers, additional, name);
    }
    if t != CNAME {
      answers := LookupByType(d, name, CNAME);
      if |answers| > 0 {
        var additional := LookupAdditional(d, rs, answers);
        return Reply(NO_ERROR, answers, additional, name);
      }
    }
    if name in d.byName {
      return Reply(NO_ERROR, [], [], name);
    }
    reply := ExpandWildcard(d, rs, name, t);
  }

  /** The wildcard branch of `lookupRRset`. */
  method ExpandWildcard(d: DB, ghost rs: seq<RR>, name: Name, t: RRType) returns (reply: Reply)
    requires Indexes(d, rs)
    ensures reply == OffNode(rs, d.zone, name, t)
  {
    IndexedOwners(d, rs);
    var wildcard, wildcardRRs := WildcardLookup(d, name, d.zone, t);
    if wildcard.None? {
      return Reply(NX_DOMAIN, [], [], name);
    }
    IndexedRRset(d, rs, wildcard.value, t);
    IndexedRRset(d, rs, wildcard.value, CNAME);
    if |wildcardRRs| == 0 {
      if t != CNAME {
        var cnames := LookupByName(d, wildcard.value, CNAME);
        if |cnames| > 0 {
          var answers := Synthesise(cnames, name);
          var additional := LookupAdditional(d, rs, answers);
          return Reply(NO_ERROR, answers, additional, wildcard.value);
        }
      }
      return Reply(NO_ERROR, [], [], wildcard.value);
    }
    var answers := Synthesise(wildcardRRs, name);
    var additional := LookupAdditional(d, rs, answers);
    return Reply(NO_ERROR, answers, additional, wildcard.value);
  }

  // ----- what a reply depends on

  lemma {:induction false} AddressesSame(a: seq<RR>, b: seq<RR>, ns: seq<Name>)
    requires forall n :: Pick(a, RRset(n, A)) == Pick(b, RRset(n, A))
    requires forall n :: Pick(a, RRset(n, AAAA)) == Pick(b, RRset(n, AAAA))
    ensures Addresses(a, ns) == Addresses(b, ns)
    decreases |ns|
  {
    if ns != [] {
      AddressesSame(a, b, ns[..|ns| - 1]);
    }
  }

  ghost predicate SameType(a: seq<RR>, b: seq<RR>, t: RRType) {
    forall n :: Pick(a, RRset(n, t)) == Pick(b, RRset(n, t))
  }

  /** A reply depends on the RRsets of four types, on whether the name is an owner, and on its wildcard. */
  lemma ResolveCongruence(a: seq<RR>, b: seq<RR>, zone: Name, q: Name, t: RRType)
    requires SameType(a, b, t) && SameType(a, b, CNAME) && SameType(a, b, A) && SameType(a, b, AAAA)
    requires q in Owners(a) <==> q in Owners(b)
    requires WildcardOwner(Owners(a), zone, q) == WildcardOwner(Owners(b), zone, q)
    ensures Resolve(a, zone, q, t) == Resolve(b, zone, q, t)
  {
    hide Pick, WildcardOwner, Owners, Addresses, Targets, Synthesise;
    var r := Resolve(a, zone, q, t);
    AddressesSame(a, b, Targets(r.answers));
    if q in Owners(a) {
      assert AtNode(a, q, t) == AtNode(b, q, t);
    } else if WildcardOwner(Owners(a), zone, q).Some? {
      var wc := WildcardOwner(Owners(a), zone, q).value;
      assert AtWildcard(a, wc, q, t) == AtWildcard(b, wc, q, t);
    }
  }

  /** Flattening in any map order and rebuilding the indexes changes no reply. */
  lemma FlattenKeepsReplies(zone: Name, rs: seq<RR>, order: seq<RRType>, q: Name, t: RRType)
    requires IsOrder(Index(zone, rs), order) && NoDup(rs)
    ensures Resolve(Dedup(Flatten(Index(zone, rs), order)), zone, q, t) == Resolve(rs, zone, q, t)
  {
    var all := Dedup(Flatten(Index(zone, rs), order));
    FlattenKeepsRRsets(zone, rs, order);
    FlattenPermutes(zone, rs, order);
    ResolveCongruence(all, rs, zone, q, t);
  }

  /** The exact condition for NXDOMAIN: no owner, and no wildcard at the closest encloser. */
  lemma NxDomainExact(rs: seq<RR>, zone: Name, q: Name, t: RRType)
    ensures Resolve(rs, zone, q, t).rcode == NX_DOMAIN <==>
            && q !in Owners(rs)
            && forall ce :: IsClosestEncloser(Owners(rs), zone, q, ce) ==> [STAR] + ce !in Owners(rs)
  {
    var found := ClosestEncloser(Owners(rs), zone, q);
    forall ce
      ensures IsClosestEncloser(Owners(rs), zone, q, ce) <==> found == Some(ce)
    {
      ClosestEncloserSpec(Owners(rs), zone, q, ce);
    }
    assert found.Some? ==> IsClosestEncloser(Owners(rs), zone, q, found.value);
  }
}
