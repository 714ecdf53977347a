/** The other side of the limiter: which queries get through, one by one and over whole runs. */
module FairnessTheorems {
  import opened Bytes
  import opened RateLimit
  import opened RateTheorems

  // ----- one query

  /** What a bucket holds at `now`: its tokens and the rate for the time since, at most a burst. */
  ghost function Refilled(cfg: Config, b: Bucket, now: real): (tokens: real) {
    Min(b.tokens + cfg.rate * (now - b.lastFill), cfg.burst as real)
  }

  /** What the bucket of the prefix holds when the query comes, after collection; a new bucket holds a burst. */
  ghost function Held(cfg: Config, e: Event): (tokens: real) {
    if e.key in e.collected.buckets then Refilled(cfg, e.collected.buckets[e.key], e.now) else cfg.burst as real
  }

  lemma SpendExact(cfg: Config, b: Bucket, now: real)
    requires Sane(cfg) && b.tokens <= cfg.burst as real && b.lastFill <= now
    ensures var (after, ok) := Spend(cfg, b, now);
      && (ok <==> Refilled(cfg, b, now) >= 1.0)
      && after.tokens == Refilled(cfg, b, now) - (if ok then 1.0 else 0.0) && after.lastFill == now
  {
    EarnedIs(cfg, now - b.lastFill);
    EarnedIs(cfg, 0.0);
    hide Earned;
    if now == b.lastFill {
      assert now - b.lastFill == 0.0;
    }
  }

  /** A query gets through if and only if its bucket holds a token, and takes exactly that one. */
  lemma QueryExact(cfg: Config, s: Table, e: Event)
    requires Sane(cfg) && QueryStep(cfg, s, e) && Sound(cfg, s, e.now) && e.outcome != TableFull
    ensures e.outcome == Allowed <==> Held(cfg, e) >= 1.0
    ensures e.key in e.after.buckets && e.after.buckets[e.key].lastFill == e.now
    ensures e.after.buckets[e.key].tokens == Held(cfg, e) - if e.outcome == Allowed then 1.0 else 0.0
  {
    hide Collected, Spend, Refilled;
    StepSound(cfg, s, e);
    var b := Found(cfg, e.collected, e.key, e.now);
    SpendExact(cfg, b, e.now);
    if e.key !in e.collected.buckets {
      NewHolds(cfg, b, e.now);
    }
  }

  lemma NewHolds(cfg: Config, b: Bucket, now: real)
    requires b.tokens == cfg.burst as real && b.lastFill == now
    ensures Refilled(cfg, b, now) == cfg.burst as real
  {
    assert now - b.lastFill == 0.0;
  }

  lemma EarnedIs(cfg: Config, elapsed: real)
    ensures Earned(cfg, elapsed) == cfg.rate * elapsed
  {
  }

  // ----- what is there to spend

  /** What a query of the prefix would find at `t`: the level of its bucket, or a burst if it has none. */
  function Avail(cfg: Config, s: Table, k: Key, t: real): (tokens: real) {
    if k in s.buckets then Level(cfg, s.buckets[k], t) else cfg.burst as real
  }

  lemma HeldIsAvail(cfg: Config, e: Event)
    ensures Held(cfg, e) == Avail(cfg, e.collected, e.key, e.now)
  {
    if e.key in e.collected.buckets {
      EarnedIs(cfg, e.now - e.collected.buckets[e.key].lastFill);
    }
    hide Earned;
  }

  ghost predicate Evicted(s: Table, e: Event, k: Key) {
    k in s.buckets && k !in e.collected.buckets
  }

  lemma CollectAvail(cfg: Config, s: Table, e: Event, k: Key)
    requires QueryStep(cfg, s, e)
    ensures Avail(cfg, e.collected, k, e.now) == if Evicted(s, e, k) then cfg.burst as real else Avail(cfg, s, k, e.now)
    ensures k in e.collected.buckets ==> k in s.buckets
  {
    CollectedPart(cfg, s, e.now, e.collected);
    hide Collected, Served, Level;
  }

  lemma ServeAvail(cfg: Config, s: Table, e: Event, k: Key)
    requires Sane(cfg) && QueryStep(cfg, s, e) && Sound(cfg, s, e.now) && e.outcome != TableFull
    ensures e.key == k ==> (e.outcome == Allowed <==> Avail(cfg, e.collected, k, e.now) >= 1.0) && k in e.after.buckets
    ensures Avail(cfg, e.after, k, e.now) ==
            Avail(cfg, e.collected, k, e.now) - if e.key == k && e.outcome == Allowed then 1.0 else 0.0
    ensures k in e.collected.buckets ==> k in e.after.buckets
    ensures e.key != k ==> (k in e.after.buckets <==> k in e.collected.buckets)
  {
    StepSound(cfg, s, e);
    if e.key == k {
      QueryExact(cfg, s, e);
      HeldIsAvail(cfg, e);
      NowLevel(cfg, e.after.buckets[k], e.now);
    }
    hide Collected, Level, Held;
  }

  lemma NowLevel(cfg: Config, b: Bucket, t: real)
    requires b.lastFill == t && b.tokens <= cfg.burst as real
    ensures Level(cfg, b, t) == b.tokens
  {
    EarnedIs(cfg, 0.0);
    hide Earned;
  }

  lemma WaitAvail(cfg: Config, s: Table, k: Key, t: real, u: real)
    requires Sane(cfg) && t <= u
    ensures Avail(cfg, s, k, u) == Min(Avail(cfg, s, k, t) + Earned(cfg, u - t), cfg.burst as real)
  {
    EarnedMore(cfg, 0.0, u - t);
    if k in s.buckets {
      EarnedMore(cfg, t - s.buckets[k].lastFill, u - s.buckets[k].lastFill);
      assert u - s.buckets[k].lastFill - (t - s.buckets[k].lastFill) == u - t;
    }
    hide Earned;
  }

  lemma AvailCapped(cfg: Config, s: Table, k: Key, t: real)
    ensures Avail(cfg, s, k, t) <= cfg.burst as real
  {
  }

  // ----- runs

  /** How many queries of the prefix there are. */
  function Queries(es: seq<Event>, k: Key): (n: nat) {
    if es == [] then 0 else Queries(es[..|es| - 1], k) + if es[|es| - 1].key == k then 1 else 0
  }

  /** No query was refused for want of room in the table; from an empty table none ever is. */
  ghost predicate NoneFull(es: seq<Event>) {
    forall i :: 0 <= i < |es| ==> es[i].outcome != TableFull
  }

  lemma {:induction false} NeverFull(cfg: Config, s: Table, es: seq<Event>)
    requires s.buckets == map[] && History(cfg, s, es)
    ensures NoneFull(es)
    decreases |es|
  {
    hide Collected, Spend, Cap;
    if cfg.maxBuckets > 0 {
      EmptyUnderCap(cfg, s);
      TableBounded(cfg, s, es);
    } else if es != [] {
      NeverFull(cfg, s, es[..|es| - 1]);
      assert forall i :: 0 <= i < |es| - 1 ==> es[i] == es[..|es| - 1][i];
    }
  }

  lemma EmptyUnderCap(cfg: Config, s: Table)
    requires s.buckets == map[] && cfg.maxBuckets > 0
    ensures |s.buckets| <= Cap(cfg)
  {
  }

  /** The bucket is not collected after event `i`. */
  ghost predicate Unbroken(s: Table, es: seq<Event>, k: Key, i: nat) {
    forall m :: i < m < |es| ==> !Evicted(After(s, es[..m]), es[m], k)
  }

  /** A bucket's worth of queries since event `i`: what the rate and one burst pay for, less the queries made. */
  ghost function Left(cfg: Config, es: seq<Event>, k: Key, i: nat, t: real): (tokens: real)
    requires i < |es|
  {
    cfg.burst as real + Earned(cfg, t - es[i].now) - Queries(es[i..], k) as real
  }

  lemma QueriesNext(es: seq<Event>, last: Event, k: Key, i: nat)
    requires i <= |es|
    ensures Queries((es + [last])[i..], k) == Queries(es[i..], k) + if last.key == k then 1 else 0
    ensures AllowedFor((es + [last])[i..], k) == AllowedFor(es[i..], k) + if last.key == k && last.outcome == Allowed then 1 else 0
  {
    var all := (es + [last])[i..];
    assert all[..|all| - 1] == es[i..] && all[|all| - 1] == last;
  }

  lemma UnbrokenNext(s: Table, es: seq<Event>, last: Event, k: Key, i: nat)
    requires i < |es|
    ensures Unbroken(s, es + [last], k, i) <==> Unbroken(s, es, k, i) && !Evicted(After(s, es), last, k)
  {
    var all := es + [last];
    assert all[..|es|] == es && all[|es|] == last;
    forall m | 0 <= m < |es|
      ensures all[..m] == es[..m] && all[m] == es[m]
    {
    }
    hide Evicted;
    if Unbroken(s, all, k, i) {
      forall m | i < m < |es|
        ensures !Evicted(After(s, es[..m]), es[m], k)
      {
        assert all[..m] == es[..m] && all[m] == es[m];
      }
    }
    if Unbroken(s, es, k, i) && !Evicted(After(s, es), last, k) {
      forall m | i < m < |all|
        ensures !Evicted(After(s, all[..m]), all[m], k)
      {
        assert m < |es| ==> all[..m] == es[..m] && all[m] == es[m];
      }
    }
  }

  /** The bucket is full, or its level makes up for everything since some query after which it was never collected. */
  ghost predicate Backed(cfg: Config, s: Table, es: seq<Event>, k: Key, t: real) {
    Avail(cfg, After(s, es), k, t) >= cfg.burst as real ||
    exists i :: 0 <= i < |es| && es[i].key == k && Unbroken(s, es, k, i) &&
                Avail(cfg, After(s, es), k, t) >= Left(cfg, es, k, i, t)
  }

  lemma BackedLater(cfg: Config, s: Table, es: seq<Event>, k: Key, t: real, u: real)
    requires Sane(cfg) && Backed(cfg, s, es, k, t) && t <= u
    ensures Backed(cfg, s, es, k, u)
  {
    hide Avail, Earned, Unbroken;
    WaitAvail(cfg, After(s, es), k, t, u);
    AvailCapped(cfg, After(s, es), k, t);
    EarnedMore(cfg, 0.0, u - t);
    if i :| 0 <= i < |es| && es[i].key == k && Unbroken(s, es, k, i) &&
            Avail(cfg, After(s, es), k, t) >= Left(cfg, es, k, i, t) {
      EarnedMore(cfg, t - es[i].now, u - es[i].now);
      assert u - es[i].now - (t - es[i].now) == u - t;
    }
  }

  /** What is there for the prefix when event `e` comes: a burst if its bucket was just collected. */
  ghost function Offered(cfg: Config, s: Table, e: Event, k: Key): (tokens: real) {
    if Evicted(s, e, k) then cfg.burst as real else Avail(cfg, s, k, e.now)
  }

  ghost function Taken(e: Event, k: Key): (tokens: real) {
    if e.key == k && e.outcome == Allowed then 1.0 else 0.0
  }

  lemma StepAvail(cfg: Config, s: Table, e: Event, k: Key)
    requires Sane(cfg) && QueryStep(cfg, s, e) && Sound(cfg, s, e.now) && e.outcome != TableFull
    ensures e.key == k ==> (e.outcome == Allowed <==> Offered(cfg, s, e, k) >= 1.0)
    ensures Avail(cfg, e.after, k, e.now) == Offered(cfg, s, e, k) - Taken(e, k)
  {
    hide Avail, QueryStep, Sound, Evicted;
    CollectAvail(cfg, s, e, k);
    ServeAvail(cfg, s, e, k);
  }

  lemma BackedStep(cfg: Config, s: Table, es: seq<Event>, e: Event, k: Key)
    requires Sane(cfg) && QueryStep(cfg, After(s, es), e) && Sound(cfg, After(s, es), e.now) && e.outcome != TableFull
    requires Backed(cfg, s, es, k, e.now)
    ensures Backed(cfg, s, es + [e], k, e.now)
  {
    hide Avail, Earned, Unbroken, QueryStep, Sound, Left, Evicted, After;
    var before := After(s, es);
    StepAvail(cfg, before, e, k);
    AfterNext(s, es, e);
    AvailCapped(cfg, before, k, e.now);
    if Offered(cfg, before, e, k) >= cfg.burst as real {
      if e.key == k {
        NewWitness(cfg, s, es, e, k);
      }
    } else {
      var i :| 0 <= i < |es| && es[i].key == k && Unbroken(s, es, k, i) && Avail(cfg, before, k, e.now) >= Left(cfg, es, k, i, e.now);
      UnbrokenNext(s, es, e, k, i);
      LeftNext(cfg, es, e, k, i);
      assert (es + [e])[i] == es[i];
    }
  }

  lemma AfterNext(s: Table, es: seq<Event>, e: Event)
    ensures After(s, es + [e]) == e.after
  {
  }

  lemma LeftNext(cfg: Config, es: seq<Event>, e: Event, k: Key, i: nat)
    requires i < |es|
    ensures Left(cfg, es + [e], k, i, e.now) == Left(cfg, es, k, i, e.now) - if e.key == k then 1.0 else 0.0
  {
    hide Earned, Queries;
    QueriesNext(es, e, k, i);
    assert (es + [e])[i] == es[i];
  }

  /** A query that finds the bucket full starts the count anew. */
  lemma NewWitness(cfg: Config, s: Table, es: seq<Event>, e: Event, k: Key)
    requires e.key == k && Avail(cfg, e.after, k, e.now) >= cfg.burst as real - 1.0
    ensures Backed(cfg, s, es + [e], k, e.now)
  {
    var all := es + [e];
    assert all[|es|] == e && all[|es|..] == [e] && After(s, all) == e.after;
    assert Queries([e], k) == 1 by { assert [e][..0] == []; }
    EarnedIs(cfg, 0.0);
    hide Avail, Earned;
    assert Unbroken(s, all, k, |es|);
    assert Left(cfg, all, k, |es|, e.now) == cfg.burst as real - 1.0;
  }

  lemma {:induction false} RunBacked(cfg: Config, s: Table, es: seq<Event>, k: Key, t: real)
    requires Sane(cfg) && History(cfg, s, es) && NoneFull(es) && k !in s.buckets
    requires es != [] ==> Sound(cfg, s, es[0].now) && es[|es| - 1].now <= t
    ensures Backed(cfg, s, es, k, t)
    decreases |es|
  {
    hide QueryStep, Sound, Backed, Evicted;
    if es == [] {
      FullAtStart(cfg, s, k, t);
    } else {
      var init, last := es[..|es| - 1], es[|es| - 1];
      assert es == init + [last];
      RunBacked(cfg, s, init, k, last.now);
      SoundBefore(cfg, s, es);
      BackedStep(cfg, s, init, last, k);
      BackedLater(cfg, s, es, k, last.now, t);
    }
  }

  lemma FullAtStart(cfg: Config, s: Table, k: Key, t: real)
    requires k !in s.buckets
    ensures Backed(cfg, s, [], k, t)
  {
  }

  lemma SoundBefore(cfg: Config, s: Table, es: seq<Event>)
    requires Sane(cfg) && History(cfg, s, es) && es != [] && Sound(cfg, s, es[0].now)
    ensures Sound(cfg, After(s, es[..|es| - 1]), es[|es| - 1].now)
  {
    hide QueryStep, Sound;
    var init, last := es[..|es| - 1], es[|es| - 1];
    TimesRise(cfg, s, es);
    RunSound(cfg, s, init, es[0].now);
    SoundLater(cfg, After(s, init), if init == [] then es[0].now else init[|init| - 1].now, last.now);
  }

  /** Since a query after which it was not collected, a bucket has at most a burst and the rate, less what it gave. */
  lemma {:induction false} Spent(cfg: Config, s: Table, es: seq<Event>, k: Key, i: nat, t: real)
    requires Sane(cfg) && History(cfg, s, es) && NoneFull(es) && i < |es| && es[i].key == k && Unbroken(s, es, k, i)
    requires Sound(cfg, s, es[0].now) && es[|es| - 1].now <= t
    ensures k in After(s, es).buckets
    ensures Avail(cfg, After(s, es), k, t) <= cfg.burst as real + Earned(cfg, t - es[i].now) - AllowedFor(es[i..], k) as real
    decreases |es|
  {
    hide QueryStep, Sound, Avail, Earned, Unbroken, Evicted;
    var init, last := es[..|es| - 1], es[|es| - 1];
    assert es == init + [last];
    SoundBefore(cfg, s, es);
    CollectAvail(cfg, After(s, init), last, k);
    ServeAvail(cfg, After(s, init), last, k);
    QueriesNext(init, last, k, i);
    WaitAvail(cfg, last.after, k, last.now, t);
    EarnedMore(cfg, last.now - es[i].now, t - es[i].now) by { TimesOrdered(cfg, s, es, i); }
    assert t - es[i].now - (last.now - es[i].now) == t - last.now;
    if i < |init| {
      UnbrokenNext(s, init, last, k, i);
      Spent(cfg, s, init, k, i, last.now);
      NotEvicted(After(s, init), last, k);
    } else {
      AvailCapped(cfg, last.collected, k, last.now);
      EarnedIs(cfg, 0.0);
      assert init[i..] == [];
    }
  }

  lemma NotEvicted(s: Table, e: Event, k: Key)
    requires !Evicted(s, e, k) && k in s.buckets
    ensures k in e.collected.buckets
  {
  }

  lemma {:induction false} TimesOrdered(cfg: Config, s: Table, es: seq<Event>, i: nat)
    requires History(cfg, s, es) && i < |es|
    ensures es[i].now <= es[|es| - 1].now
    decreases |es|
  {
    hide QueryStep;
    if i < |es| - 1 {
      TimesOrdered(cfg, s, es[..|es| - 1], i);
    }
  }

  lemma {:induction false} AllCounted(es: seq<Event>, k: Key)
    requires forall m :: 0 <= m < |es| && es[m].key == k ==> es[m].outcome == Allowed
    ensures AllowedFor(es, k) == Queries(es, k)
    decreases |es|
  {
    if es != [] {
      AllCounted(es[..|es| - 1], k);
    }
  }

  /** More queries since event `i`, the last one included, than one burst and the rate pay for. */
  ghost predicate Overload(cfg: Config, es: seq<Event>, k: Key, i: nat)
    requires i < |es|
  {
    Queries(es[i..], k) as real > cfg.burst as real + cfg.rate * (es[|es| - 1].now - es[i].now)
  }

  /** The prefix has had every query allowed before the last one, which is its own. */
  ghost predicate LastOwn(es: seq<Event>, k: Key) {
    es != [] && es[|es| - 1].key == k && forall m :: 0 <= m < |es| - 1 && es[m].key == k ==> es[m].outcome == Allowed
  }

  /**
   The first refusal, exactly: of a prefix that was unknown at the start and has had every query allowed so far, the next
   one is refused if and only if, since some query of it after which its bucket was not collected, it has made more
   queries than one burst and the rate pay for. What other prefixes do makes no difference.
   */
  lemma FirstRefusal(cfg: Config, s: Table, es: seq<Event>, k: Key)
    requires Sane(cfg) && History(cfg, s, es) && NoneFull(es) && es != [] && LastOwn(es, k) && Sound(cfg, s, es[0].now) && k !in s.buckets
    ensures es[|es| - 1].outcome == Limited <==>
            exists i :: 0 <= i < |es| && es[i].key == k && Unbroken(s, es, k, i) && Overload(cfg, es, k, i)
  {
    hide *;
    hide LastOwn, Unbroken, Overload, NoneFull;
    var init, last := es[..|es| - 1], es[|es| - 1];
    LastStep(cfg, s, es, k);
    StepAvail(cfg, After(s, init), last, k);
    RunBacked(cfg, s, init, k, last.now);
    if last.outcome == Limited {
      var i := Overdrawn(cfg, s, init, last, k);
    }
    forall i | 0 <= i < |es| && es[i].key == k && Unbroken(s, es, k, i) && Overload(cfg, es, k, i)
      ensures last.outcome == Limited
    {
      Overspent(cfg, s, init, last, k, i);
    }
  }

  lemma LastStep(cfg: Config, s: Table, es: seq<Event>, k: Key)
    requires Sane(cfg) && History(cfg, s, es) && NoneFull(es) && es != [] && LastOwn(es, k) && Sound(cfg, s, es[0].now)
    ensures var init, last := es[..|es| - 1], es[|es| - 1];
      && es == init + [last] && History(cfg, s, init) && NoneFull(init) && AllAllowed(init, k)
      && QueryStep(cfg, After(s, init), last) && Sound(cfg, After(s, init), last.now)
      && last.outcome != TableFull && last.key == k
      && (init != [] ==> Sound(cfg, s, init[0].now) && init[|init| - 1].now <= last.now)
  {
    hide QueryStep, Sound;
    SoundBefore(cfg, s, es);
  }

  ghost predicate AllAllowed(es: seq<Event>, k: Key) {
    forall m :: 0 <= m < |es| && es[m].key == k ==> es[m].outcome == Allowed
  }

  /** A refusal of the prefix shows a query since which it has overdrawn. */
  lemma Overdrawn(cfg: Config, s: Table, init: seq<Event>, last: Event, k: Key) returns (i: nat)
    requires Sane(cfg) && Backed(cfg, s, init, k, last.now) && last.key == k
    requires last.outcome == Limited ==> Offered(cfg, After(s, init), last, k) < 1.0
    requires last.outcome == Limited
    ensures var es := init + [last];
      i < |es| && es[i].key == k && Unbroken(s, es, k, i) && Overload(cfg, es, k, i)
  {
    hide Avail, Unbroken, Earned, Evicted, After;
    var j :| 0 <= j < |init| && init[j].key == k && Unbroken(s, init, k, j) &&
             Avail(cfg, After(s, init), k, last.now) >= Left(cfg, init, k, j, last.now);
    i := j;
    UnbrokenNext(s, init, last, k, i);
    QueriesNext(init, last, k, i);
    EarnedIs(cfg, last.now - init[i].now);
    assert (init + [last])[i] == init[i];
  }

  /** A query past what one burst and the rate pay for is refused. */
  lemma Overspent(cfg: Config, s: Table, init: seq<Event>, last: Event, k: Key, i: nat)
    requires Sane(cfg) && History(cfg, s, init) && NoneFull(init) && AllAllowed(init, k)
    requires init != [] ==> Sound(cfg, s, init[0].now) && init[|init| - 1].now <= last.now
    requires last.key == k && last.outcome != TableFull && (last.outcome == Allowed <==> Offered(cfg, After(s, init), last, k) >= 1.0)
    requires i < |init + [last]| && (init + [last])[i].key == k && Unbroken(s, init + [last], k, i) && Overload(cfg, init + [last], k, i)
    ensures last.outcome == Limited
  {
    hide Avail, Unbroken, Earned, Evicted, After, Sound, History, Overload;
    OverloadIs(cfg, init, last, k, i);
    if i < |init| {
      assert (init + [last])[i] == init[i];
      UnbrokenNext(s, init, last, k, i);
      Spent(cfg, s, init, k, i, last.now);
      AllCounted(init[i..], k);
    }
  }

  lemma OverloadIs(cfg: Config, init: seq<Event>, last: Event, k: Key, i: nat)
    requires Sane(cfg) && i < |init + [last]| && (init + [last])[i].key == k && last.key == k
    ensures Overload(cfg, init + [last], k, i) ==> i < |init|
    ensures Overload(cfg, init + [last], k, i) <==>
            Queries(init[i..], k) as real + 1.0 > cfg.burst as real + Earned(cfg, last.now - (init + [last])[i].now)
  {
    QueriesNext(init, last, k, i);
    EarnedIs(cfg, last.now - (init + [last])[i].now);
    EarnedIs(cfg, 0.0);
    assert i == |init| ==> init[i..] == [] && Queries(init[i..], k) == 0;
    hide Earned, Queries;
  }

  /** The prefix keeps to one burst and the rate in every window of the run. */
  ghost predicate Keeps(cfg: Config, es: seq<Event>, k: Key) {
    forall n, i :: 0 <= i < n <= |es| && es[i].key == k && es[n - 1].key == k ==> !Overload(cfg, es[..n], k, i)
  }

  /** A prefix that keeps to its rate is never refused, whatever other prefixes do and whatever is collected. */
  lemma {:induction false} NeverRefused(cfg: Config, s: Table, es: seq<Event>, k: Key)
    requires Sane(cfg) && History(cfg, s, es) && NoneFull(es) && k !in s.buckets && Keeps(cfg, es, k)
    requires es != [] ==> Sound(cfg, s, es[0].now)
    ensures forall m :: 0 <= m < |es| && es[m].key == k ==> es[m].outcome == Allowed
    decreases |es|
  {
    hide QueryStep, Sound, Overload, Unbroken;
    if es != [] {
      var init, last := es[..|es| - 1], es[|es| - 1];
      forall n, i | 0 <= i < n <= |init| && init[i].key == k && init[n - 1].key == k
        ensures !Overload(cfg, init[..n], k, i)
      {
        assert init[..n] == es[..n] && init[i] == es[i] && init[n - 1] == es[n - 1];
      }
      NeverRefused(cfg, s, init, k);
      assert es[..|es|] == es;
      if last.key == k {
        assert LastOwn(es, k);
        FirstRefusal(cfg, s, es, k);
      }
      assert forall m :: 0 <= m < |init| ==> es[m] == init[m];
    }
  }

  // ----- refusals

  function RefusedFor(es: seq<Event>, k: Key): (n: nat) {
    if es == [] then 0
    else RefusedFor(es[..|es| - 1], k) + if es[|es| - 1].key == k && es[|es| - 1].outcome == Limited then 1 else 0
  }

  lemma StepDrops(cfg: Config, s: Table, e: Event, k: Key)
    requires QueryStep(cfg, s, e) && e.outcome != TableFull
    ensures e.key == k || k in e.collected.buckets ==> k in e.after.buckets
    ensures e.key == k && k !in e.collected.buckets ==>
      e.after.buckets[k].createdAt == e.now && e.after.buckets[k].drops == if e.outcome == Limited then 1 else 0
    ensures k in s.buckets && k in e.collected.buckets ==>
      && e.after.buckets[k].createdAt == s.buckets[k].createdAt
      && e.after.buckets[k].drops == s.buckets[k].drops + if e.key == k && e.outcome == Limited then 1 else 0
  {
    CollectedPart(cfg, s, e.now, e.collected);
    hide Collected, Earned, Min;
  }

  /** A bucket counts the refusals of its prefix since it was created, and keeps the time it was created at. */
  lemma {:induction false} DropsCounted(cfg: Config, s: Table, es: seq<Event>, k: Key, i: nat)
    requires History(cfg, s, es) && NoneFull(es) && i < |es| && es[i].key == k && k !in es[i].collected.buckets
    requires Unbroken(s, es, k, i)
    ensures k in After(s, es).buckets
    ensures After(s, es).buckets[k].drops == RefusedFor(es[i..], k) && After(s, es).buckets[k].createdAt == es[i].now
    decreases |es|
  {
    hide QueryStep, Unbroken, Evicted;
    var init, last := es[..|es| - 1], es[|es| - 1];
    assert es == init + [last];
    StepDrops(cfg, After(s, init), last, k);
    RefusedNext(init, last, k, i);
    if i < |init| {
      UnbrokenNext(s, init, last, k, i);
      DropsCounted(cfg, s, init, k, i);
      NotEvicted(After(s, init), last, k);
    } else {
      assert init[i..] == [];
    }
  }

  lemma RefusedNext(es: seq<Event>, last: Event, k: Key, i: nat)
    requires i <= |es|
    ensures RefusedFor((es + [last])[i..], k) == RefusedFor(es[i..], k) + if last.key == k && last.outcome == Limited then 1 else 0
  {
    var all := (es + [last])[i..];
    assert all[..|all| - 1] == es[i..] && all[|all| - 1] == last;
  }
}
