/** Replication as a protocol: rebuild, push, poll, snapshot and restart steps, in any order. */
module Replication {
  import opened Bytes
  import opened Names
  import opened Records
  import opened Database
  import opened Resolver
  import opened Sanity
  import opened Sorting
  import opened Nsec3Chain
  import opened SignedZone
  import opened SigningTheorems

  /** A database as it is written to JSON: zone, flat record list, DNSSEC flag. */
  datatype Content = Content(zone: Name, rs: seq<RR>, signed: bool)

  function DBOf(c: Content): (d: DB) {
    Index(c.zone, c.rs).(dnssecEnabled := c.signed)
  }

  /** What is written when the type index is walked in the given order. */
  function Encoded(c: Content, order: seq<RRType>): (e: Content) {
    Content(c.zone, Dedup(Flatten(DBOf(c), order)), c.signed)
  }

  /** Same zone, same flag, same records, and in every type list the same order. */
  ghost predicate Copy(a: Content, b: Content) {
    && a.zone == b.zone && a.signed == b.signed && NoDup(a.rs) && NoDup(b.rs)
    && forall t :: Pick(a.rs, OfType(t)) == Pick(b.rs, OfType(t))
  }

  lemma CopyOfSelf(c: Content)
    requires NoDup(c.rs)
    ensures Copy(c, c)
  {
  }

  lemma CopyTrans(a: Content, b: Content, c: Content)
    requires Copy(a, b) && Copy(b, c)
    ensures Copy(a, c)
  {
    hide Pick, NoDup;
  }

  /** Writing and reading back copies, whatever order the index is walked in. */
  lemma EncodedIsCopy(c: Content, order: seq<RRType>)
    requires NoDup(c.rs) && IsOrder(DBOf(c), order)
    ensures Copy(c, Encoded(c, order))
  {
    FlattenSame(DBOf(c), Index(c.zone, c.rs), order);
    forall t
      ensures Pick(Encoded(c, order).rs, OfType(t)) == Pick(c.rs, OfType(t))
    {
      FlattenCount(c.zone, c.rs, order, t);
    }
    FlattenPermutes(c.zone, c.rs, order);
    hide Pick, NoDup, Flatten, Dedup;
  }

  // ----- copies cannot be told apart

  lemma CopySame(a: Content, b: Content)
    requires Copy(a, b)
    ensures Owners(a.rs) == Owners(b.rs) && DBOf(a).byType == DBOf(b).byType
    ensures forall t :: SameType(a.rs, b.rs, t)
    ensures forall r :: r in a.rs <==> r in b.rs
  {
    SameTypesPermute(a.rs, b.rs);
    forall n, t
      ensures Pick(a.rs, RRset(n, t)) == Pick(b.rs, RRset(n, t))
    {
      ScanTypeList(a.rs, n, t);
      ScanTypeList(b.rs, n, t);
    }
    forall r
      ensures r in a.rs <==> r in b.rs
    {
      MultisetMember(a.rs, b.rs, r);
    }
    hide Pick, NoDup, Owners;
  }

  lemma CopyReplies(a: Content, b: Content, q: Name, t: RRType)
    requires Copy(a, b)
    ensures Resolve(a.rs, a.zone, q, t) == Resolve(b.rs, b.zone, q, t)
  {
    CopySame(a, b);
    hide SameType, Resolve, Owners, Pick, NoDup, WildcardOwner;
    ResolveCongruence(a.rs, b.rs, a.zone, q, t);
  }

  lemma CopyVerdict(a: Content, b: Content)
    requires Copy(a, b)
    ensures Verdict(a.rs, a.zone) == Verdict(b.rs, b.zone)
  {
    CopySame(a, b);
    hide SameType, Verdict, Pick, NoDup, Owners;
    assert CnamesAlone(a.rs) <==> CnamesAlone(b.rs);
    VerdictCongruence(a.rs, b.rs, a.zone);
  }

  // ----- what is published

  /** `c` is the list `base`, or the list that one run of the signing pipeline made of it. */
  ghost predicate BuiltFrom(c: Content, base: seq<RR>) {
    if !c.signed then c.rs == base
    else exists run: Run :: run.Valid() && run.zone == c.zone && run.rs == base && c.rs == run.Signed()
  }

  /** Built from records that passed the sanity checks. */
  ghost predicate Publishable(c: Content) {
    NoDup(c.rs) && exists base :: Verdict(base, c.zone) == None && BuiltFrom(c, base)
  }

  /** What is published passes the checks itself, signed or not. */
  lemma PublishedPasses(c: Content)
    requires Publishable(c)
    ensures Verdict(c.rs, c.zone) == None
  {
    hide Verdict, NoDup;
    var base :| Verdict(base, c.zone) == None && BuiltFrom(c, base);
    if c.signed {
      var run: Run :| run.Valid() && run.zone == c.zone && run.rs == base && c.rs == run.Signed();
      hide Run.Valid, Run.Signed;
      SigningKeepsVerdict(run);
    }
  }

  // ----- states and steps

  /** A slave: the database it serves, the chain it rebuilt, the snapshot on disk, the poll response it is reading. */
  datatype Slave = Slave(db: Option<Content>, chain: Option<Chain>, snapshot: Option<Content>, pending: Option<Content>)

  datatype Push = Push(to: nat, image: Content)

  /** `jobs` are the pushes still to be sent, `network` those under way; `published` is history. */
  datatype State = State(current: Option<Content>, jobs: multiset<Content>, network: multiset<Push>, slaves: seq<Slave>,
                         published: set<Content>)

  datatype Step =
    | Rebuild(c: Content)
    | RebuildFails
    | MasterRestart
    | Send(c: Content, to: nat, order: seq<RRType>)
    | EndJob(c: Content)
    | Deliver(p: Push)
    | Lose(p: Push)
    | Fetch(i: nat, order: seq<RRType>)
    | Install(i: nat)
    | Abandon(i: nat)
    | Restart(i: nat)

  ghost predicate ChainOf(c: Content, chain: Option<Chain>) {
    if c.signed && Rebuildable(DBOf(c)) then chain.Some? && IsRebuild(DBOf(c), chain.value) else chain == None
  }

  /** `swapDB`: database and chain change together; the snapshot may or may not be written. */
  ghost predicate Swapped(s: Slave, c: Content, s': Slave) {
    && s'.db == Some(c) && ChainOf(c, s'.chain) && s'.pending == s.pending
    && (s'.snapshot == s.snapshot ||
        exists order :: IsOrder(DBOf(c), order) && s'.snapshot == Some(Encoded(c, order)))
  }

  /** After a restart only the snapshot is left, which is served if it can be read. */
  ghost predicate Restarted(s: Slave, s': Slave) {
    var bare := Slave(None, None, s.snapshot, None);
    s' == bare || (s.snapshot.Some? && Swapped(bare, s.snapshot.value, s'))
  }

  ghost predicate SlaveMoves(s: State, i: nat, s': State) {
    i < |s.slaves| && |s'.slaves| == |s.slaves| && s' == s.(network := s'.network, slaves := s.slaves[i := s'.slaves[i]])
  }

  ghost predicate Next(s: State, step: Step, s': State) {
    match step
    case Rebuild(c) =>
      Publishable(c) && s' == s.(current := Some(c), jobs := s.jobs + multiset{c}, published := s.published + {c})
    case RebuildFails => s' == s
    case MasterRestart => s' == s.(current := None, jobs := multiset{})
    case Send(c, to, order) =>
      c in s.jobs && IsOrder(DBOf(c), order) && s' == s.(network := s.network + multiset{Push(to, Encoded(c, order))})
    case EndJob(c) => s' == s.(jobs := s.jobs - multiset{c})
    case Deliver(p) =>
      && p in s.network && SlaveMoves(s, p.to, s') && s'.network == s.network - multiset{p}
      && Swapped(s.slaves[p.to], p.image, s'.slaves[p.to])
    case Lose(p) => s' == s.(network := s.network - multiset{p})
    case Fetch(i, order) =>
      && s.current.Some? && IsOrder(DBOf(s.current.value), order) && SlaveMoves(s, i, s') && s'.network == s.network
      && s'.slaves[i] == s.slaves[i].(pending := Some(Encoded(s.current.value, order)))
    case Install(i) =>
      && SlaveMoves(s, i, s') && s'.network == s.network && s.slaves[i].pending.Some?
      && Swapped(s.slaves[i].(pending := None), s.slaves[i].pending.value, s'.slaves[i])
    case Abandon(i) => SlaveMoves(s, i, s') && s'.network == s.network && s'.slaves[i] == s.slaves[i].(pending := None)
    case Restart(i) => SlaveMoves(s, i, s') && s'.network == s.network && Restarted(s.slaves[i], s'.slaves[i])
  }

  // ----- safety

  /** A copy of something the master published. */
  ghost predicate From(published: set<Content>, c: Content) {
    exists p :: p in published && Copy(p, c)
  }

  ghost predicate FromIf(published: set<Content>, c: Option<Content>) {
    c.Some? ==> From(published, c.value)
  }

  ghost predicate SlaveSafe(published: set<Content>, s: Slave) {
    && FromIf(published, s.db) && FromIf(published, s.snapshot) && FromIf(published, s.pending)
    && (if s.db.Some? then ChainOf(s.db.value, s.chain) else s.chain == None)
  }

  ghost predicate Inv(s: State) {
    && (s.current.Some? ==> s.current.value in s.published)
    && (forall p :: p in s.published ==> Publishable(p))
    && (forall c :: c in s.jobs ==> c in s.published)
    && (forall p :: p in s.network ==> From(s.published, p.image))
    && (forall i :: 0 <= i < |s.slaves| ==> SlaveSafe(s.published, s.slaves[i]))
  }

  lemma FromEncoded(published: set<Content>, c: Content, order: seq<RRType>)
    requires From(published, c) && IsOrder(DBOf(c), order)
    ensures From(published, Encoded(c, order))
  {
    hide Copy, Encoded, IsOrder;
    var p :| p in published && Copy(p, c);
    assert NoDup(c.rs) by { CopyNoDup(p, c); }
    EncodedIsCopy(c, order);
    CopyTrans(p, c, Encoded(c, order));
  }

  lemma CopyNoDup(a: Content, b: Content)
    requires Copy(a, b)
    ensures NoDup(a.rs) && NoDup(b.rs)
  {
  }

  lemma FromPublished(published: set<Content>, c: Content)
    requires c in published && Publishable(c)
    ensures From(published, c)
  {
    CopyOfSelf(c);
    hide Copy, BuiltFrom;
  }

  lemma SwapSafe(published: set<Content>, s: Slave, c: Content, s': Slave)
    requires FromIf(published, s.snapshot) && FromIf(published, s.pending) && From(published, c) && Swapped(s, c, s')
    ensures SlaveSafe(published, s')
  {
    hide From, ChainOf, Encoded, IsOrder;
    if s'.snapshot != s.snapshot {
      var order :| IsOrder(DBOf(c), order) && s'.snapshot == Some(Encoded(c, order));
      FromEncoded(published, c, order);
    }
  }

  lemma SlavesSafe(s: State, i: nat, s': State)
    requires Inv(s) && SlaveMoves(s, i, s') && SlaveSafe(s.published, s'.slaves[i])
    requires forall p :: p in s'.network ==> p in s.network
    ensures Inv(s')
  {
    hide SlaveSafe, From, Publishable;
    forall j | 0 <= j < |s'.slaves|
      ensures SlaveSafe(s'.published, s'.slaves[j])
    {
      assert j != i ==> s'.slaves[j] == s.slaves[j];
    }
  }

  lemma GrowSafe(published: set<Content>, more: set<Content>, s: Slave)
    requires SlaveSafe(published, s) && published <= more
    ensures SlaveSafe(more, s)
  {
    hide Copy, ChainOf;
  }

  lemma RebuildSafe(s: State, c: Content, s': State)
    requires Inv(s) && Next(s, Rebuild(c), s')
    ensures Inv(s')
  {
    hide Publishable, Copy, SlaveSafe;
    forall i | 0 <= i < |s.slaves|
      ensures SlaveSafe(s'.published, s.slaves[i])
    {
      GrowSafe(s.published, s'.published, s.slaves[i]);
    }
    forall p | p in s.network
      ensures From(s'.published, p.image)
    {
      var q :| q in s.published && Copy(q, p.image);
      assert q in s'.published;
    }
  }

  lemma SlaveStepSafe(s: State, step: Step, s': State)
    requires Inv(s) && Next(s, step, s')
    requires step.Deliver? || step.Fetch? || step.Install? || step.Abandon? || step.Restart?
    ensures Inv(s')
  {
    hide From, Publishable, ChainOf, Encoded, IsOrder, Swapped;
    match step
    case Deliver(p) =>
      assert SlaveSafe(s.published, s.slaves[p.to]);
      SwapSafe(s.published, s.slaves[p.to], p.image, s'.slaves[p.to]);
      SlavesSafe(s, p.to, s');
    case Fetch(i, order) =>
      assert SlaveSafe(s.published, s.slaves[i]);
      FromPublished(s.published, s.current.value);
      FromEncoded(s.published, s.current.value, order);
      SlavesSafe(s, i, s');
    case Install(i) =>
      assert SlaveSafe(s.published, s.slaves[i]);
      SwapSafe(s.published, s.slaves[i].(pending := None), s.slaves[i].pending.value, s'.slaves[i]);
      SlavesSafe(s, i, s');
    case Abandon(i) =>
      assert SlaveSafe(s.published, s.slaves[i]);
      SlavesSafe(s, i, s');
    case Restart(i) =>
      assert SlaveSafe(s.published, s.slaves[i]);
      var bare := Slave(None, None, s.slaves[i].snapshot, None);
      if s'.slaves[i] != bare {
        SwapSafe(s.published, bare, s.slaves[i].snapshot.value, s'.slaves[i]);
      }
      SlavesSafe(s, i, s');
  }

  lemma MasterStepSafe(s: State, step: Step, s': State)
    requires Inv(s) && Next(s, step, s')
    requires step.RebuildFails? || step.MasterRestart? || step.EndJob? || step.Lose?
    ensures Inv(s')
  {
    hide From, Publishable, SlaveSafe;
  }

  lemma SendSafe(s: State, c: Content, to: nat, order: seq<RRType>, s': State)
    requires Inv(s) && Next(s, Send(c, to, order), s')
    ensures Inv(s')
  {
    hide From, Publishable, SlaveSafe, Encoded, IsOrder;
    FromPublished(s.published, c);
    FromEncoded(s.published, c, order);
  }

  /** Every step keeps the invariant. */
  lemma StepSafe(s: State, step: Step, s': State)
    requires Inv(s) && Next(s, step, s')
    ensures Inv(s')
  {
    hide Inv, Next;
    match step
    case Rebuild(c) => RebuildSafe(s, c, s');
    case Send(c, to, order) => SendSafe(s, c, to, order, s');
    case RebuildFails => MasterStepSafe(s, step, s');
    case MasterRestart => MasterStepSafe(s, step, s');
    case EndJob(_) => MasterStepSafe(s, step, s');
    case Lose(_) => MasterStepSafe(s, step, s');
    case _ => SlaveStepSafe(s, step, s');
  }

  /** Nothing published, nothing under way, every slave bare. */
  ghost predicate Init(s: State) {
    && s.current == None && s.jobs == multiset{} && s.network == multiset{} && s.published == {}
    && forall i :: 0 <= i < |s.slaves| ==> s.slaves[i] == Slave(None, None, None, None)
  }

  ghost predicate Trace(states: seq<State>, steps: seq<Step>) {
    && |states| == |steps| + 1
    && forall k :: 0 <= k < |steps| ==> Next(states[k], steps[k], states[k + 1])
  }

  lemma InitSafe(s: State)
    requires Init(s)
    ensures Inv(s)
  {
  }

  lemma {:induction false} RunSafe(states: seq<State>, steps: seq<Step>, k: nat)
    requires Trace(states, steps) && Inv(states[0]) && k < |states|
    ensures Inv(states[k])
  {
    hide Next, Inv;
    if k > 0 {
      RunSafe(states, steps, k - 1);
      StepSafe(states[k - 1], steps[k - 1], states[k]);
    }
  }

  /**
   Over every run, pushes reordered and restarts included: a slave serves only a copy of a database the master
   published, it passes the sanity checks, and its chain is the rebuild of that same database.
   */
  lemma SlaveServesPublished(states: seq<State>, steps: seq<Step>, k: nat, i: nat)
    requires Trace(states, steps) && Init(states[0]) && k < |states| && i < |states[k].slaves| && states[k].slaves[i].db.Some?
    ensures var slave := states[k].slaves[i];
      && From(states[k].published, slave.db.value) && ChainOf(slave.db.value, slave.chain)
      && Verdict(slave.db.value.rs, slave.db.value.zone) == None
  {
    InitSafe(states[0]);
    RunSafe(states, steps, k);
    var s := states[k];
    var c := s.slaves[i].db.value;
    hide Trace, Init, ChainOf, Copy, Verdict, Publishable;
    assert SlaveSafe(s.published, s.slaves[i]);
    var p :| p in s.published && Copy(p, c);
    PublishedPasses(p);
    CopyVerdict(p, c);
  }

  // ----- agreement

  /** The master stands still on `c`: no push is outstanding, and slave `i` is reading nothing older. */
  ghost predicate Quiet(s: State, i: nat, c: Content) {
    && s.current == Some(c) && NoDup(c.rs) && s.jobs == multiset{} && s.network == multiset{}
    && i < |s.slaves| && (s.slaves[i].pending.Some? ==> Copy(c, s.slaves[i].pending.value))
  }

  ghost predicate Agrees(s: State, i: nat, c: Content) {
    i < |s.slaves| && s.slaves[i].db.Some? && Copy(c, s.slaves[i].db.value)
  }

  predicate MasterMoves(step: Step) {
    step.Rebuild? || step.MasterRestart?
  }

  lemma StaysQuiet(s: State, step: Step, s': State, i: nat, c: Content)
    requires Quiet(s, i, c) && Next(s, step, s') && !MasterMoves(step)
    ensures Quiet(s', i, c)
  {
    if step.Fetch? {
      EncodedIsCopy(c, step.order);
    }
    hide Copy, Encoded, IsOrder, ChainOf, NoDup;
    if step.Fetch? || step.Install? || step.Abandon? || step.Restart? {
      assert step.i != i ==> s'.slaves[i] == s.slaves[i];
    }
  }

  lemma StaysAgreed(s: State, step: Step, s': State, i: nat, c: Content)
    requires Quiet(s, i, c) && Next(s, step, s') && !MasterMoves(step)
    ensures step == Install(i) ==> Agrees(s', i, c)
    ensures Agrees(s, i, c) && step != Restart(i) ==> Agrees(s', i, c)
  {
    hide Copy, Encoded, IsOrder, ChainOf, NoDup;
    if step.Fetch? || step.Install? || step.Abandon? || step.Restart? {
      assert step.i != i ==> s'.slaves[i] == s.slaves[i];
    }
  }

  lemma {:induction false} QuietRun(states: seq<State>, steps: seq<Step>, k: nat, i: nat, c: Content)
    requires Trace(states, steps) && k < |states| && Quiet(states[0], i, c) && forall s :: s in steps ==> !MasterMoves(s)
    ensures Quiet(states[k], i, c)
  {
    hide Quiet, Next;
    if k > 0 {
      QuietRun(states, steps, k - 1, i, c);
      assert steps[k - 1] in steps;
      StaysQuiet(states[k - 1], steps[k - 1], states[k], i, c);
    }
  }

  lemma {:induction false} AgreedRun(states: seq<State>, steps: seq<Step>, j: nat, k: nat, i: nat, c: Content)
    requires Trace(states, steps) && j < k < |states| && Quiet(states[0], i, c) && forall s :: s in steps ==> !MasterMoves(s)
    requires steps[j] == Install(i) && forall l :: j < l < |steps| ==> steps[l] != Restart(i)
    ensures Agrees(states[k], i, c)
  {
    hide Quiet, Next, Agrees;
    QuietRun(states, steps, k - 1, i, c);
    if k > j + 1 {
      AgreedRun(states, steps, j, k - 1, i, c);
    }
    assert steps[k - 1] in steps;
    StaysAgreed(states[k - 1], steps[k - 1], states[k], i, c);
  }

  lemma CopyChain(a: Content, b: Content, chain: Option<Chain>)
    requires Copy(a, b) && ChainOf(b, chain)
    ensures ChainOf(a, chain) && a.zone == b.zone && a.signed == b.signed
  {
    CopySame(a, b);
    assert a.signed == b.signed;
    hide Copy, DBOf, Rebuildable, IsRebuild;
    SameRebuild(DBOf(a), DBOf(b));
  }

  /** The chain is a matter of the type index alone. */
  lemma SameRebuild(d: DB, e: DB)
    requires d.byType == e.byType
    ensures Rebuildable(d) <==> Rebuildable(e)
    ensures forall c :: IsRebuild(d, c) <==> IsRebuild(e, c)
  {
    assert TypeList(d, NSEC3) == TypeList(e, NSEC3) && TypeList(d, NSEC3PARAM) == TypeList(e, NSEC3PARAM);
    hide TypeList, SortedBy, ByHash;
  }

  /**
   With no push or rebuild outstanding, one successful poll is enough: from then on, until it restarts, the slave gives
   every reply the master's database gives, and serves a chain rebuilt from it.
   */
  lemma PollConverges(states: seq<State>, steps: seq<Step>, j: nat, k: nat, i: nat, c: Content, q: Name, t: RRType)
    requires Trace(states, steps) && Inv(states[0]) && j < k < |states| && Quiet(states[0], i, c)
    requires forall s :: s in steps ==> !MasterMoves(s)
    requires steps[j] == Install(i) && forall l :: j < l < |steps| ==> steps[l] != Restart(i)
    ensures states[k].current == Some(c) && i < |states[k].slaves| && states[k].slaves[i].db.Some?
    ensures var served := states[k].slaves[i].db.value;
      && served.zone == c.zone && served.signed == c.signed
      && Resolve(served.rs, served.zone, q, t) == Resolve(c.rs, c.zone, q, t)
      && ChainOf(c, states[k].slaves[i].chain)
  {
    hide Trace, ChainOf, Resolve, Copy, From, Publishable;
    QuietRun(states, steps, k, i, c);
    AgreedRun(states, steps, j, k, i, c);
    RunSafe(states, steps, k);
    assert SlaveSafe(states[k].published, states[k].slaves[i]);
    var served := states[k].slaves[i].db.value;
    CopyReplies(c, served, q, t);
    CopyChain(c, served, states[k].slaves[i].chain);
  }
}
