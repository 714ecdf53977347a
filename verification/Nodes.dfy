/** Master and slave as the objects of the source, tied to the steps of the protocol. */
module Nodes {
  import opened Bytes
  import opened Names
  import opened Records
  import opened Database
  import opened Sanity
  import opened Signing
  import opened Nsec3Chain
  import opened SignedZone
  import opened SignedIds
  import opened Replication

  const DEFAULT_MAX_RECORDS: int := 100000
  const MAX_ATTEMPTS: nat := 10

  // ----- reading and writing

  method ReadImage(image: Content) returns (d: DB)
    ensures d == DBOf(image)
  {
    d := NewDB(image.zone, image.rs);
    d := d.(dnssecEnabled := image.signed);
  }

  method WriteImage(d: DB, ghost c: Content) returns (image: Content, ghost order: seq<RRType>)
    requires d == DBOf(c)
    ensures IsOrder(d, order) && image == Encoded(c, order)
  {
    var all;
    all, order := AllRecords(d);
    image := Content(d.zone, all, d.dnssecEnabled);
  }

  // ----- the master

  /** What `rebuild` makes of a listed record: the default TTL, and in an SOA the serial. */
  function Prepare(r: RR, serial: nat): (p: RR)
    ensures p.id == r.id && p.name == r.name && p.rtype == r.rtype && p.opts.RRType() == r.opts.RRType()
  {
    r.(ttl := DEFAULT_TTL, opts := if r.rtype == SOA && r.opts.OptsSOA? then r.opts.(serial := serial) else r.opts)
  }

  function Prepared(rs: seq<RR>, serial: nat): (ps: seq<RR>)
    ensures |ps| == |rs|
  {
    seq(|rs|, i requires 0 <= i < |rs| => Prepare(rs[i], serial))
  }

  /** Everything of a record is kept but the TTL, which becomes 300, and the serial of an SOA. */
  lemma PrepareKeeps(r: RR, serial: nat)
    requires r.rtype == r.opts.RRType()
    ensures var p := Prepare(r, serial);
      && p == RR(r.id, r.name, r.rtype, 300, p.opts)
      && match r.opts
         case OptsSOA(mname, rname, _, refresh, retry, expire, minimum) =>
           p.opts == OptsSOA(mname, rname, serial, refresh, retry, expire, minimum)
         case _ => p.opts == r.opts
  {
  }

  /** The check of the serial fails exactly for the serial 0: a clock that stands at a multiple of 2^32 seconds. */
  lemma PreparedSerial(rs: seq<RR>, serial: nat, zone: Name)
    requires Typed(rs)
    ensures Verdict(Prepared(rs, serial), zone) == Some(SOAZeroSerial) <==>
            serial == 0 && |Pick(Prepared(rs, serial), OfType(SOA))| == 1
  {
    var ps := Prepared(rs, serial);
    hide Pick, MnameServed, NsAddressed, UniqueCnames, CnamesAlone, NoSelfReference, CnamesChase, Prepared, Typed;
    var soas := Pick(ps, OfType(SOA));
    if |soas| == 1 {
      PickMember(ps, OfType(SOA), soas[0]);
      var i :| 0 <= i < |ps| && ps[i] == soas[0];
      TypedMember(rs, rs[i]);
      assert ps[i] == Prepare(rs[i], serial) by { PreparedAt(rs, serial, i); }
      PrepareKeeps(rs[i], serial);
    }
  }

  lemma PreparedAt(rs: seq<RR>, serial: nat, i: nat)
    requires i < |rs|
    ensures Prepared(rs, serial)[i] == Prepare(rs[i], serial)
  {
  }

  /** The two loops of `rebuild` that write into the records. */
  method PrepareRecords(rs: seq<RR>, serial: nat) returns (ps: seq<RR>)
    ensures ps == Prepared(rs, serial)
  {
    ps := [];
    var i := 0;
    while i < |rs|
      invariant 0 <= i <= |rs| && |ps| == i
      invariant forall j :: 0 <= j < i ==> ps[j] == rs[j].(ttl := DEFAULT_TTL)
    {
      ps := ps + [rs[i].(ttl := DEFAULT_TTL)];
      i := i + 1;
    }
    i := 0;
    while i < |rs|
      invariant 0 <= i <= |rs| && |ps| == |rs|
      invariant forall j :: 0 <= j < i ==> ps[j] == Prepare(rs[j], serial)
      invariant forall j :: i <= j < |rs| ==> ps[j] == rs[j].(ttl := DEFAULT_TTL)
    {
      if ps[i].rtype == SOA && ps[i].opts.OptsSOA? {
        ps := ps[i := ps[i].(opts := ps[i].opts.(serial := serial))];
      }
      i := i + 1;
    }
  }

  lemma PreparedFacts(rs: seq<RR>, serial: nat, first: nat)
    requires Typed(rs) && Consecutive(rs, first)
    ensures Typed(Prepared(rs, serial)) && NoDup(Prepared(rs, serial))
    ensures forall r :: r in Prepared(rs, serial) ==> r.id < first + |rs|
  {
    var ps := Prepared(rs, serial);
    forall p | p in ps
      ensures p.rtype == p.opts.RRType()
    {
      var i :| 0 <= i < |ps| && ps[i] == p;
      TypedMember(rs, rs[i]);
    }
    TypedAll(ps);
    hide Typed, Prepare;
    assert Consecutive(ps, first);
    FreshTail([], ps, first);
    assert [] + ps == ps;
  }

  class Master {
    const zone: Name
    const maxRecords: int
    var current: Option<DB>
    ghost var content: Option<Content>

    /** What is served was built from records that passed the checks. */
    ghost predicate Valid()
      reads this
    {
      && current.Some? == content.Some?
      && (content.Some? ==> current.value == DBOf(content.value) && Publishable(content.value) && content.value.zone == zone)
    }

    constructor (zone: Name, maxRecords: int)
      ensures Valid() && this.zone == zone && this.maxRecords == maxRecords && current == None
    {
      this.zone := zone;
      this.maxRecords := maxRecords;
      current := None;
      content := None;
    }

    ghost function Limit(): (n: int) {
      if maxRecords <= 0 then DEFAULT_MAX_RECORDS else maxRecords
    }

    /**
     `rebuild`: `listed` is what the API returned, `keys` the loaded keys; without keys the zone goes out unsigned. Any
     failure leaves the served database alone; a success is a `Rebuild` step of the protocol. It succeeds exactly when
     the records came, are not too many, pass the checks, and can all be signed if there are keys.
     */
    method Rebuild(env: Env, listed: Option<seq<RR>>, keys: seq<SigningKey>, now: nat, first: nat)
      returns (ok: bool, ghost run: Run)
      requires Valid() && Hash20(Hasher(env.sha, DEFAULT_PARAMS)) && ValidKeys(keys)
      requires listed.Some? ==> Typed(listed.value) && Consecutive(listed.value, first)
      modifies this
      ensures Valid()
      ensures !ok ==> current == old(current) && content == old(content)
      ensures listed.Some? ==> IsAttempt(run, env, zone, keys, Prepared(listed.value, now % 0x1_0000_0000), first + |listed.value|)
      ensures (listed.Some? && |listed.value| <= Limit() && keys != [] &&
               Verdict(Prepared(listed.value, now % 0x1_0000_0000), zone) == None) ==> Genuine(run)
      ensures ok <==> listed.Some? && |listed.value| <= Limit() &&
                      Verdict(Prepared(listed.value, now % 0x1_0000_0000), zone) == None && (keys == [] || run.Signs())
      ensures ok ==> content.Some? && BuiltFrom(content.value, Prepared(listed.value, now % 0x1_0000_0000)) &&
                     (content.value.signed <==> keys != [])
    {
      hide Prepared, Typed, Verdict, NoDup, Consecutive, BuiltFrom, Publishable, DBOf, Hash20, Hasher, ValidKeys, Run.Signs,
           Run.Hash, IsAttempt, Genuine;
      run := Run(env, zone, keys, [], [], [], [], first);
      if listed.None? {
        return false, run;
      }
      var serial := now % 0x1_0000_0000;
      ghost var attempt := Prepared(listed.value, serial);
      run := StartAttempt(env, zone, keys, attempt, first + |listed.value|);
      var limit := maxRecords;
      if limit <= 0 {
        limit := DEFAULT_MAX_RECORDS;
      }
      if |listed.value| > limit {
        return false, run;
      }
      var records := PrepareRecords(listed.value, serial);
      PreparedFacts(listed.value, serial, first);
      var newDB;
      ghost var c;
      newDB, c, run := BuildZone(env, zone, records, keys, first + |listed.value|);
      if newDB.None? {
        return false, run;
      }
      current := newDB;
      content := Some(c);
      ok := true;
    }
  }

  /** `run` is a run of the signing pipeline over these records. */
  ghost predicate IsAttempt(run: Run, env: Env, zone: Name, keys: seq<SigningKey>, records: seq<RR>, alloc: nat) {
    && run.env == env && run.zone == zone && run.keys == keys && run.rs == records && run.alloc == alloc
    && Hash20(run.Hash())
  }

  /** The choices of the run are ones the maps can make, up to the step at which a signature was refused. */
  ghost predicate Genuine(run: Run) {
    run.Ordered() && (SetsSign(run.env, run.zone, run.Keyed(), run.keys) ==> run.Valid())
  }

  lemma StartAttempt(env: Env, zone: Name, keys: seq<SigningKey>, records: seq<RR>, alloc: nat) returns (run: Run)
    requires Hash20(Hasher(env.sha, DEFAULT_PARAMS))
    ensures IsAttempt(run, env, zone, keys, records, alloc)
  {
    run := Run(env, zone, keys, records, [], [], [], alloc);
    HashOf(run);
    hide Hash20, Hasher;
  }

  /** The middle of `rebuild`: index, check, sign. */
  method BuildZone(env: Env, zone: Name, records: seq<RR>, keys: seq<SigningKey>, alloc: nat)
    returns (d: Option<DB>, ghost c: Content, ghost run: Run)
    requires Hash20(Hasher(env.sha, DEFAULT_PARAMS)) && ValidKeys(keys)
    requires Typed(records) && NoDup(records) && forall r :: r in records ==> r.id < alloc
    ensures IsAttempt(run, env, zone, keys, records, alloc)
    ensures Verdict(records, zone) == None && keys != [] ==> Genuine(run)
    ensures d.Some? <==> Verdict(records, zone) == None && (keys == [] || run.Signs())
    ensures d.Some? ==> d.value == DBOf(c) && Publishable(c) && c.zone == zone && BuiltFrom(c, records) &&
                        (c.signed <==> keys != [])
  {
    run := StartAttempt(env, zone, keys, records, alloc);
    hide Typed, Verdict, NoDup, Index, Hash20, Hasher, ValidKeys, Run.Valid, Run.Signed, Run.Signs, Run.Hash, Run.Ordered,
         Run.Keyed, SetsSign;
    c := Content(zone, records, false);
    var newDB := NewDB(zone, records);
    IndexIsIndexes(zone, records);
    var failed := SanityChecks(newDB, records);
    if failed.Some? {
      return None, c, run;
    }
    if |keys| == 0 {
      UnsignedDB(zone, records);
      return Some(newDB), c, run;
    }
    d, run := SignZone(env, newDB, records, keys, alloc);
    if d.Some? {
      SignedNoDup(run);
      c := Content(zone, run.Signed(), true);
      assert BuiltFrom(c, records);
    }
  }

  lemma UnsignedDB(zone: Name, rs: seq<RR>)
    ensures Index(zone, rs) == DBOf(Content(zone, rs, false))
  {
  }

  // ----- the slave

  /** The first attempt that was answered. */
  function FirstAnswer(attempts: seq<Option<Option<Content>>>): (r: Option<Option<Content>>) {
    if attempts == [] then None else if attempts[0].Some? then attempts[0] else FirstAnswer(attempts[1..])
  }

  class SlaveNode {
    const keepsSnapshots: bool
    var currDB: Option<DB>
    var nsec3Chain: Option<Chain>
    var ready: bool
    var snapshot: Option<Content>
    ghost var content: Option<Content>

    /** The served database and the chain belong together. */
    ghost predicate Valid()
      reads this
    {
      && currDB.Some? == content.Some? == ready
      && (content.Some? ==> currDB.value == DBOf(content.value) && ChainOf(content.value, nsec3Chain))
      && (content.None? ==> nsec3Chain == None)
    }

    /** The slave as the protocol sees it. */
    ghost function View(): (s: Slave)
      reads this
    {
      Slave(content, nsec3Chain, snapshot, None)
    }

    constructor (keepsSnapshots: bool, snapshot: Option<Content>)
      ensures Valid() && View() == Slave(None, None, snapshot, None) && this.keepsSnapshots == keepsSnapshots
    {
      this.keepsSnapshots := keepsSnapshots;
      this.snapshot := snapshot;
      currDB, nsec3Chain, ready, content := None, None, false, None;
    }

    /** `swapDB`; `saved` tells whether the snapshot could be written. */
    method SwapDB(newDB: DB, ghost c: Content, saved: bool)
      requires Valid() && newDB == DBOf(c)
      modifies this
      ensures Valid() && content == Some(c) && Swapped(old(View()), c, View())
    {
      hide Index;
      var chain := None;
      if newDB.dnssecEnabled {
        var r := RebuildNSEC3Chain(newDB);
        if r.Ok? {
          chain := Some(r.value);
        }
      }
      currDB := Some(newDB);
      nsec3Chain := chain;
      ready := true;
      content := Some(c);
      if keepsSnapshots && saved {
        var image;
        ghost var order;
        image, order := WriteImage(newDB, c);
        snapshot := Some(image);
      }
    }

    /** `handleDBPush`: a body that cannot be read changes nothing. */
    method HandlePush(body: Option<Content>, saved: bool) returns (ok: bool)
      requires Valid()
      modifies this
      ensures Valid() && (ok <==> body.Some?)
      ensures if ok then Swapped(old(View()), body.value, View()) else View() == old(View())
    {
      hide Swapped, ChainOf, DBOf;
      if body.None? {
        return false;
      }
      var newDB := ReadImage(body.value);
      SwapDB(newDB, body.value, saved);
      ok := true;
    }

    /** `poll`: up to ten attempts; the first answered one counts, whether or not its body can be read. */
    method Poll(attempts: seq<Option<Option<Content>>>, saved: bool) returns (ok: bool)
      requires Valid() && |attempts| == MAX_ATTEMPTS
      modifies this
      ensures Valid()
      ensures ok <==> FirstAnswer(attempts).Some? && FirstAnswer(attempts).value.Some?
      ensures if ok then Swapped(old(View()), FirstAnswer(attempts).value.value, View()) else View() == old(View())
    {
      hide Swapped, ChainOf, DBOf;
      var resp: Option<Option<Content>> := None;
      var attempt := 0;
      while attempt < MAX_ATTEMPTS && resp.None?
        invariant 0 <= attempt <= MAX_ATTEMPTS
        invariant FirstAnswer(attempts) == if resp.Some? then resp else FirstAnswer(attempts[attempt..])
        decreases MAX_ATTEMPTS - attempt, resp.None?
      {
        resp := attempts[attempt];
        assert attempts[attempt..][1..] == attempts[attempt + 1..];
        attempt := attempt + 1;
      }
      if resp.None? || resp.value.None? {
        return false;
      }
      var newDB := ReadImage(resp.value.value);
      SwapDB(newDB, resp.value.value, saved);
      ok := true;
    }
  }

  /** The start of `MainLoop`: serve the snapshot if it loads, then poll; the slave runs on if either worked. */
  method StartUp(snapshot: Option<Content>, keepsSnapshots: bool, loads: bool, saved: bool,
                 attempts: seq<Option<Option<Content>>>, savedPolled: bool) returns (slave: SlaveNode, running: bool, ghost warm: Slave)
    requires |attempts| == MAX_ATTEMPTS
    ensures fresh(slave) && slave.Valid()
    ensures forall before: Slave :: before.snapshot == snapshot ==> Restarted(before, warm)
    ensures var answer := FirstAnswer(attempts);
      if answer.Some? && answer.value.Some? then running && Swapped(warm, answer.value.value, slave.View())
      else slave.View() == warm && running == (keepsSnapshots && snapshot.Some? && loads)
  {
    hide Swapped, ChainOf, DBOf;
    slave := new SlaveNode(keepsSnapshots, snapshot);
    var loaded := false;
    if keepsSnapshots && snapshot.Some? && loads {
      var d := ReadImage(snapshot.value);
      slave.SwapDB(d, snapshot.value, saved);
      loaded := true;
    }
    warm := slave.View();
    var polled := slave.Poll(attempts, savedPolled);
    running := polled || loaded;
  }
}
