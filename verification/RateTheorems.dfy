/** Whole runs of the rate limiter: how much a prefix gets through, and how large the table grows. */
module RateTheorems {
  import opened Bytes
  import opened RateLimit

  /** The table after the events. */
  function After(s: Table, es: seq<Event>): (r: Table) {
    if es == [] then s else es[|es| - 1].after
  }

  /** Calls one at a time, with timestamps that never go back. */
  ghost predicate History(cfg: Config, s: Table, es: seq<Event>) {
    es == [] || (var init, last := es[..|es| - 1], es[|es| - 1];
                 History(cfg, s, init) && QueryStep(cfg, After(s, init), last) && (init != [] ==> init[|init| - 1].now <= last.now))
  }

  /** Buckets hold between zero tokens and the burst size, and were last filled by `t`. */
  ghost predicate Sound(cfg: Config, s: Table, t: real) {
    forall k :: k in s.buckets ==> 0.0 <= s.buckets[k].tokens <= cfg.burst as real && s.buckets[k].lastFill <= t
  }

  lemma EarnedMore(cfg: Config, a: real, b: real)
    requires Sane(cfg) && a <= b
    ensures Earned(cfg, a) <= Earned(cfg, b) && Earned(cfg, b) - Earned(cfg, a) == Earned(cfg, b - a) && Earned(cfg, 0.0) == 0.0
  {
  }

  /** What a bucket can give at time `t`. */
  function Level(cfg: Config, b: Bucket, t: real): (l: real) {
    Min(b.tokens + Earned(cfg, t - b.lastFill), cfg.burst as real)
  }

  function LevelOf(cfg: Config, s: Table, k: Key, t: real): (l: real) {
    if k in s.buckets then Level(cfg, s.buckets[k], t) else 0.0
  }

  function Has(s: Table, k: Key): (n: nat) {
    if k in s.buckets then 1 else 0
  }

  lemma ConsumeKeeps(cfg: Config, b: Bucket, now: real)
    requires Sane(cfg) && 0.0 <= b.tokens <= cfg.burst as real && b.lastFill <= now
    ensures var (after, ok) := Spend(cfg, b, now);
      && 0.0 <= after.tokens <= cfg.burst as real && after.lastFill == now
      && Level(cfg, after, now) == Level(cfg, b, now) - if ok then 1.0 else 0.0
  {
    EarnedMore(cfg, 0.0, now - b.lastFill);
    EarnedMore(cfg, 0.0, 0.0);
    hide Earned;
  }

  lemma PartSound(cfg: Config, m: Table, g: Table, t: real)
    requires Sound(cfg, m, t) && Part(g.buckets, m.buckets)
    ensures Sound(cfg, g, t)
  {
  }

  lemma CollectedPart(cfg: Config, s: Table, now: real, g: Table)
    requires Collected(cfg, s, now, g)
    ensures Part(g.buckets, s.buckets)
  {
  }

  lemma StepSound(cfg: Config, s: Table, e: Event)
    requires Sane(cfg) && Sound(cfg, s, e.now) && QueryStep(cfg, s, e)
    ensures Sound(cfg, e.after, e.now) && Sound(cfg, e.collected, e.now)
  {
    CollectedPart(cfg, s, e.now, e.collected);
    PartSound(cfg, s, e.collected, e.now);
    hide Collected;
    ConsumeKeeps(cfg, Found(cfg, e.collected, e.key, e.now), e.now);
    hide Spend;
  }

  lemma SoundLater(cfg: Config, s: Table, t: real, u: real)
    requires Sound(cfg, s, t) && t <= u
    ensures Sound(cfg, s, u)
  {
  }

  /** Tokens stay between zero and the burst size over every run. */
  lemma {:induction false} RunSound(cfg: Config, s: Table, es: seq<Event>, t: real)
    requires Sane(cfg) && History(cfg, s, es) && Sound(cfg, s, t)
    requires es != [] ==> t <= es[0].now
    ensures Sound(cfg, After(s, es), if es == [] then t else es[|es| - 1].now)
    decreases |es|
  {
    hide Sound, QueryStep;
    if es != [] {
      var init, last := es[..|es| - 1], es[|es| - 1];
      RunSound(cfg, s, init, t);
      SoundLater(cfg, After(s, init), if init == [] then t else init[|init| - 1].now, last.now);
      StepSound(cfg, After(s, init), last);
    }
  }

  // ----- the ledger of one prefix

  function AllowedFor(es: seq<Event>, k: Key): (n: nat) {
    if es == [] then 0
    else AllowedFor(es[..|es| - 1], k) + if es[|es| - 1].key == k && es[|es| - 1].outcome == Allowed then 1 else 0
  }

  /** How often the bucket of `k` was collected. */
  function Evictions(s: Table, es: seq<Event>, k: Key): (n: nat) {
    if es == [] then 0
    else
      var init, last := es[..|es| - 1], es[|es| - 1];
      Evictions(s, init, k) + if k in After(s, init).buckets && k !in last.collected.buckets then 1 else 0
  }

  /** Burst tokens for every bucket the prefix ever had. */
  function Granted(cfg: Config, n: nat): (t: real) {
    n as real * cfg.burst as real
  }

  lemma GrantedNext(cfg: Config, n: nat)
    ensures Granted(cfg, n + 1) == Granted(cfg, n) + cfg.burst as real
  {
  }

  /** Collection either leaves the bucket alone or takes it away whole. */
  lemma CollectLedger(cfg: Config, s: Table, now: real, g: Table, k: Key)
    requires Sane(cfg) && Collected(cfg, s, now, g) && Sound(cfg, s, now)
    ensures k in g.buckets ==> LevelOf(cfg, g, k, now) == LevelOf(cfg, s, k, now) && Has(s, k) == 1
    ensures k !in g.buckets ==> LevelOf(cfg, g, k, now) == 0.0 <= LevelOf(cfg, s, k, now)
  {
    hide Collected, Earned;
    CollectedPart(cfg, s, now, g);
    if k in s.buckets {
      EarnedMore(cfg, 0.0, now - s.buckets[k].lastFill);
    }
  }

  /** A query takes from its bucket what it gets; a new bucket brings one burst. */
  lemma ServeLedger(cfg: Config, g: Table, e: Event, k: Key)
    requires Sane(cfg) && Served(cfg, g, e.key, e.now, e.after, e.outcome) && Sound(cfg, g, e.now)
    ensures LevelOf(cfg, e.after, k, e.now) + (if e.key == k && e.outcome == Allowed then 1.0 else 0.0) ==
            LevelOf(cfg, g, k, e.now) + if Has(e.after, k) > Has(g, k) then cfg.burst as real else 0.0
    ensures Has(e.after, k) >= Has(g, k)
  {
    if e.key == k && !Full(cfg, g, k) {
      var b := Found(cfg, g, k, e.now);
      ConsumeKeeps(cfg, b, e.now);
      EarnedMore(cfg, 0.0, 0.0);
      var after := e.after.buckets[k];
      assert Level(cfg, after, e.now) == Level(cfg, Spend(cfg, b, e.now).0, e.now);
      hide Spend, Earned;
      if k !in g.buckets {
        assert Level(cfg, b, e.now) == cfg.burst as real;
      }
    }
  }

  /** Waiting raises a level by no more than the rate. */
  lemma WaitLedger(cfg: Config, s: Table, k: Key, t: real, u: real)
    requires Sane(cfg) && t <= u
    ensures LevelOf(cfg, s, k, u) <= LevelOf(cfg, s, k, t) + Earned(cfg, u - t)
  {
    EarnedMore(cfg, 0.0, u - t);
    if k in s.buckets {
      EarnedMore(cfg, t - s.buckets[k].lastFill, u - s.buckets[k].lastFill);
      assert u - s.buckets[k].lastFill - (t - s.buckets[k].lastFill) == u - t;
    }
    hide Earned;
  }

  lemma {:induction false} Ledger(cfg: Config, s: Table, es: seq<Event>, k: Key, t0: real, t: real)
    requires Sane(cfg) && History(cfg, s, es) && Sound(cfg, s, t0) && t0 <= t
    requires es != [] ==> t0 <= es[0].now && es[|es| - 1].now <= t
    ensures AllowedFor(es, k) as real + LevelOf(cfg, After(s, es), k, t) <=
            Granted(cfg, Evictions(s, es, k) + Has(After(s, es), k)) + Earned(cfg, t - t0)
    decreases |es|
  {
    hide QueryStep, Sound, Earned, Granted, LevelOf, Has;
    if es == [] {
      WaitLedger(cfg, s, k, t0, t);
      LevelCapped(cfg, s, k, t0);
    } else {
      var init, last := es[..|es| - 1], es[|es| - 1];
      var before := After(s, init);
      TimesRise(cfg, s, es);
      Ledger(cfg, s, init, k, t0, last.now);
      RunSound(cfg, s, init, t0);
      SoundLater(cfg, before, if init == [] then t0 else init[|init| - 1].now, last.now);
      LedgerStep(cfg, before, last, k, AllowedFor(init, k), Evictions(s, init, k), t0, t);
    }
  }

  lemma LevelCapped(cfg: Config, s: Table, k: Key, t: real)
    ensures LevelOf(cfg, s, k, t) <= Granted(cfg, Has(s, k))
  {
    GrantedNext(cfg, 0);
  }

  lemma TimesRise(cfg: Config, s: Table, es: seq<Event>)
    requires History(cfg, s, es) && es != []
    ensures es[0].now <= es[|es| - 1].now
    decreases |es|
  {
    hide QueryStep;
    if |es| > 1 {
      TimesRise(cfg, s, es[..|es| - 1]);
    }
  }

  lemma LedgerStep(cfg: Config, before: Table, e: Event, k: Key, allowed: nat, evictions: nat, t0: real, t: real)
    requires Sane(cfg) && QueryStep(cfg, before, e) && Sound(cfg, before, e.now) && t0 <= e.now <= t
    requires allowed as real + LevelOf(cfg, before, k, e.now) <= Granted(cfg, evictions + Has(before, k)) + Earned(cfg, e.now - t0)
    ensures var a := allowed + if e.key == k && e.outcome == Allowed then 1 else 0;
      var ev := evictions + if k in before.buckets && k !in e.collected.buckets then 1 else 0;
      a as real + LevelOf(cfg, e.after, k, t) <= Granted(cfg, ev + Has(e.after, k)) + Earned(cfg, t - t0)
  {
    hide Collected, Served, Sound, Earned, Granted, LevelOf;
    StepSound(cfg, before, e);
    CollectLedger(cfg, before, e.now, e.collected, k);
    ServeLedger(cfg, e.collected, e, k);
    WaitLedger(cfg, e.after, k, e.now, t);
    EarnedMore(cfg, e.now - t0, t - t0);
    assert t - t0 - (e.now - t0) == t - e.now;
    GrantedNext(cfg, evictions);
    GrantedNext(cfg, evictions + 1);
  }

  /**
   Over any run: the queries of one prefix that get through are at most one burst more than its evictions pay for,
   plus the rate times the length of the run.
   */
  lemma AllowedBound(cfg: Config, s: Table, es: seq<Event>, k: Key)
    requires Sane(cfg) && History(cfg, s, es) && es != [] && Sound(cfg, s, es[0].now)
    ensures AllowedFor(es, k) as real <=
            (Evictions(s, es, k) + 1) as real * cfg.burst as real + cfg.rate * (es[|es| - 1].now - es[0].now)
  {
    hide *;
    var t0, t := es[0].now, es[|es| - 1].now;
    TimesRise(cfg, s, es);
    Ledger(cfg, s, es, k, t0, t);
    RunSound(cfg, s, es, t0);
    LevelPositive(cfg, After(s, es), k, t);
    AtMostOneMore(cfg, Evictions(s, es, k), Has(After(s, es), k));
    SpelledOut(cfg, Evictions(s, es, k), t - t0);
    assert Has(After(s, es), k) <= 1 by { OneBucket(After(s, es), k); }
  }

  lemma OneBucket(s: Table, k: Key)
    ensures Has(s, k) <= 1
  {
  }

  lemma AtMostOneMore(cfg: Config, n: nat, has: nat)
    requires Sane(cfg)
    ensures has <= 1 ==> Granted(cfg, n + has) <= Granted(cfg, n + 1)
  {
    GrantedNext(cfg, n);
  }

  lemma SpelledOut(cfg: Config, n: nat, elapsed: real)
    ensures Granted(cfg, n + 1) == (n + 1) as real * cfg.burst as real && Earned(cfg, elapsed) == cfg.rate * elapsed
  {
  }

  lemma LevelPositive(cfg: Config, s: Table, k: Key, t: real)
    requires Sane(cfg) && Sound(cfg, s, t)
    ensures LevelOf(cfg, s, k, t) >= 0.0
  {
    if k in s.buckets {
      EarnedMore(cfg, 0.0, t - s.buckets[k].lastFill);
    }
    hide Earned;
  }

  // ----- the table

  /** Three quarters of the capacity, rounded up. */
  function Cap(cfg: Config): (n: int) {
    (3 * cfg.maxBuckets + 3) / 4
  }

  lemma PartSmaller(g: map<Key, Bucket>, m: map<Key, Bucket>)
    requires Part(g, m)
    ensures |g| <= |m|
  {
    SubsetSize(g.Keys, m.Keys);
    assert |g| == |g.Keys| && |m| == |m.Keys|;
  }

  /** Collection leaves room for one more bucket under the cap. */
  lemma CollectMakesRoom(cfg: Config, s: Table, now: real, g: Table)
    requires cfg.maxBuckets > 0 && |s.buckets| <= Cap(cfg) && Collected(cfg, s, now, g)
    ensures |g.buckets| < Cap(cfg) <= cfg.maxBuckets
  {
    CollectedPart(cfg, s, now, g);
    PartSmaller(g.buckets, s.buckets);
  }

  lemma ServeAddsOne(cfg: Config, g: Table, e: Event)
    requires Served(cfg, g, e.key, e.now, e.after, e.outcome)
    ensures |e.after.buckets| <= |g.buckets| + 1
  {
    hide Spend;
    if !Full(cfg, g, e.key) {
      assert e.after.buckets.Keys == g.buckets.Keys + {e.key};
      assert |e.after.buckets| == |e.after.buckets.Keys| && |g.buckets| == |g.buckets.Keys|;
    }
  }

  lemma TableStep(cfg: Config, s: Table, e: Event)
    requires cfg.maxBuckets > 0 && |s.buckets| <= Cap(cfg) && QueryStep(cfg, s, e)
    ensures |e.after.buckets| <= Cap(cfg) && e.outcome != TableFull
  {
    CollectMakesRoom(cfg, s, e.now, e.collected);
    ServeAddsOne(cfg, e.collected, e);
    hide Collected, Spend;
  }

  /** From an empty table, a capped table never exceeds the cap and no query is refused for want of room. */
  lemma {:induction false} TableBounded(cfg: Config, s: Table, es: seq<Event>)
    requires cfg.maxBuckets > 0 && |s.buckets| <= Cap(cfg) && History(cfg, s, es)
    ensures |After(s, es).buckets| <= Cap(cfg)
    ensures forall i :: 0 <= i < |es| ==> es[i].outcome != TableFull && |es[i].after.buckets| <= Cap(cfg)
    decreases |es|
  {
    hide QueryStep, Cap;
    if es != [] {
      var init, last := es[..|es| - 1], es[|es| - 1];
      TableBounded(cfg, s, init);
      TableStep(cfg, After(s, init), last);
      forall i | 0 <= i < |es|
        ensures es[i].outcome != TableFull && |es[i].after.buckets| <= Cap(cfg)
      {
        assert i < |init| ==> es[i] == init[i];
      }
    }
  }
}
