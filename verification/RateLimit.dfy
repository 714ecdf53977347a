/**
 The rate limiter: one token bucket per source prefix, refilled when it is looked at, in a table with two kinds of
 garbage collection. Times are seconds and tokens are reals, so that rounding plays no part.
 */
module RateLimit {
  import opened Bytes

  /** A source prefix, and an address as a number. */
  type Key = string
  type Address = nat

  const GC_INTERVAL: real := 60.0

  datatype Config = Config(burst: int, rate: real, slipRatio: int, maxBuckets: int, maxAge: real)

  datatype Bucket = Bucket(tokens: real, lastFill: real, createdAt: real, drops: nat)

  datatype Table = Table(buckets: map<Key, Bucket>, lastGC: real)

  datatype Fate = Allowed | Limited | TableFull

  datatype Decision = Allow | Slip | Drop

  /** `NewLimiter` replaces settings that are not positive. */
  function Defaults(cfg: Config): (c: Config)
    ensures Sane(c)
  {
    cfg.(burst := if cfg.burst <= 0 then 200 else cfg.burst,
         rate := if cfg.rate <= 0.0 then 50.0 else cfg.rate,
         maxAge := if cfg.maxAge <= 0.0 then 300.0 else cfg.maxAge)
  }

  predicate Sane(cfg: Config) {
    cfg.burst > 0 && cfg.rate > 0.0 && cfg.maxAge > 0.0
  }

  /** The tokens that come in over a time. */
  function Earned(cfg: Config, elapsed: real): (t: real) {
    elapsed * cfg.rate
  }

  function Min(a: real, b: real): (m: real) {
    if a < b then a else b
  }

  // ----- what the operations do, as relations between tables

  /** `consume`: refill for the time elapsed, up to the burst size, then take one token if there is one. */
  function Spend(cfg: Config, b: Bucket, now: real): (r: (Bucket, bool)) {
    var elapsed := now - b.lastFill;
    var filled :=
      if elapsed > 0.0 then b.(tokens := Min(b.tokens + Earned(cfg, elapsed), cfg.burst as real), lastFill := now) else b;
    if filled.tokens >= 1.0 then (filled.(tokens := filled.tokens - 1.0), true) else (filled, false)
  }

  /** The table is at least three quarters full. */
  predicate Crowded(cfg: Config, buckets: map<Key, Bucket>) {
    cfg.maxBuckets > 0 && 4 * |buckets| >= 3 * cfg.maxBuckets
  }

  /** `g` is part of `m`. */
  predicate Part(g: map<Key, Bucket>, m: map<Key, Bucket>) {
    g.Keys <= m.Keys && forall k :: k in g ==> g[k] == m[k]
  }

  predicate NormalCollected(cfg: Config, m: map<Key, Bucket>, now: real, g: map<Key, Bucket>) {
    Part(g, m) && forall k :: k in m ==> (k in g <==> now - m[k].createdAt <= cfg.maxAge)
  }

  function ToEvict(n: nat): (k: nat) {
    if n / 4 > 1 then n / 4 else 1
  }

  /** A quarter of the table is gone, at least one bucket, and no survivor is older than anything evicted. */
  predicate ForceCollected(m: map<Key, Bucket>, g: map<Key, Bucket>) {
    && Part(g, m) && |g| == |m| - ToEvict(|m|)
    && forall s, e :: s in g && e in m && e !in g ==> m[s].createdAt >= m[e].createdAt
  }

  /** The collection at the start of a lookup. */
  predicate Collected(cfg: Config, s: Table, now: real, g: Table) {
    if Crowded(cfg, s.buckets) then ForceCollected(s.buckets, g.buckets) && g.lastGC == now
    else if now - s.lastGC < GC_INTERVAL then g == s
    else NormalCollected(cfg, s.buckets, now, g.buckets) && g.lastGC == now
  }

  function Found(cfg: Config, g: Table, key: Key, now: real): (b: Bucket) {
    if key in g.buckets then g.buckets[key] else Bucket(cfg.burst as real, now, now, 0)
  }

  predicate Full(cfg: Config, g: Table, key: Key) {
    key !in g.buckets && cfg.maxBuckets > 0 && |g.buckets| >= cfg.maxBuckets
  }

  /** Lookup or creation, and consumption. */
  predicate Served(cfg: Config, g: Table, key: Key, now: real, after: Table, outcome: Fate) {
    if Full(cfg, g, key) then after == g && outcome == TableFull
    else
      var (b, ok) := Spend(cfg, Found(cfg, g, key, now), now);
      && outcome == (if ok then Allowed else Limited)
      && after == g.(buckets := g.buckets[key := if ok then b else b.(drops := b.drops + 1)])
  }

  /** One query of a prefix: the table after collection, the table after the query, and what became of it. */
  datatype Event = Event(key: Key, now: real, collected: Table, after: Table, outcome: Fate)

  predicate QueryStep(cfg: Config, s: Table, e: Event) {
    Collected(cfg, s, e.now, e.collected) && Served(cfg, e.collected, e.key, e.now, e.after, e.outcome)
  }

  // ----- the limiter

  datatype Entry = Entry(key: Key, createdAt: real)

  class Limiter {
    const cfg: Config
    const listed: Address -> bool
    const prefixKey: Address -> Key
    var buckets: map<Key, Bucket>
    var lastGC: real

    ghost function Now(): (s: Table)
      reads this
    {
      Table(buckets, lastGC)
    }

    /** `NewLimiter` at time `now`. */
    constructor (config: Config, listed: Address -> bool, prefixKey: Address -> Key, now: real)
      ensures cfg == Defaults(config) && Sane(cfg) && Now() == Table(map[], now) && this.listed == listed && this.prefixKey == prefixKey
    {
      cfg := Defaults(config);
      this.listed := listed;
      this.prefixKey := prefixKey;
      buckets := map[];
      lastGC := now;
    }

    /** `normalGC`. */
    method NormalGC(now: real)
      modifies this`buckets
      ensures NormalCollected(cfg, old(buckets), now, buckets)
    {
      ghost var m := buckets;
      var todo := buckets.Keys;
      while todo != {}
        invariant todo <= m.Keys && Part(buckets, m) && todo <= buckets.Keys
        invariant forall k :: k in m && k !in todo ==> (k in buckets <==> now - m[k].createdAt <= cfg.maxAge)
        decreases |todo|
      {
        var key :| key in todo;
        todo := todo - {key};
        if now - buckets[key].createdAt > cfg.maxAge {
          buckets := buckets - {key};
        }
      }
    }

    /** `forceGC`. */
    method ForceGC()
      requires |buckets| > 0
      modifies this`buckets
      ensures ForceCollected(old(buckets), buckets)
    {
      var entries := ListEntries(buckets);
      var sorted := SortByAge(entries);
      SortedLists(buckets, entries);
      EvictOldest(buckets, sorted);
      hide EntryKeys, Lists, SortByAge, ByAge, ForceCollected;
      var toEvict := if |sorted| / 4 > 1 then |sorted| / 4 else 1;
      Evict(sorted, toEvict);
    }

    /** The deletion loop of `forceGC`. */
    method Evict(sorted: seq<Entry>, toEvict: nat)
      requires toEvict <= |sorted|
      modifies this`buckets
      ensures buckets == old(buckets) - EntryKeys(sorted[..toEvict])
    {
      ghost var m := buckets;
      hide EntryKeys;
      NoEntries();
      assert sorted[..0] == [];
      var i := 0;
      while i < toEvict
        invariant 0 <= i <= toEvict && buckets == m - EntryKeys(sorted[..i])
      {
        assert sorted[..i + 1] == sorted[..i] + [sorted[i]];
        KeysAppend(sorted[..i], sorted[i]);
        buckets := buckets - {sorted[i].key};
        i := i + 1;
      }
    }

    /** `runGC`. */
    method RunGC(now: real)
      modifies this
      ensures lastGC == now
      ensures if Crowded(cfg, old(buckets)) then ForceCollected(old(buckets), buckets)
              else NormalCollected(cfg, old(buckets), now, buckets)
    {
      lastGC := now;
      if cfg.maxBuckets > 0 && 4 * |buckets| >= 3 * cfg.maxBuckets {
        ForceGC();
      } else {
        NormalGC(now);
      }
    }

    /** `maybeGC`. */
    method MaybeGC(now: real)
      modifies this
      ensures if now - old(lastGC) < GC_INTERVAL then Now() == old(Now())
              else lastGC == now && if Crowded(cfg, old(buckets)) then ForceCollected(old(buckets), buckets)
                                    else NormalCollected(cfg, old(buckets), now, buckets)
    {
      if now - lastGC < GC_INTERVAL {
        return;
      }
      RunGC(now);
    }

    /** `getOrCreate`: collect, then look up, then make room or refuse. */
    method GetOrCreate(key: Key, now: real) returns (b: Option<Bucket>, ghost collected: Table)
      modifies this
      ensures Collected(cfg, old(Now()), now, collected) && lastGC == collected.lastGC
      ensures if Full(cfg, collected, key) then b == None && Now() == collected
              else b == Some(Found(cfg, collected, key, now)) && buckets == collected.buckets[key := b.value]
    {
      if cfg.maxBuckets > 0 && 4 * |buckets| >= 3 * cfg.maxBuckets {
        RunGC(now);
      } else {
        MaybeGC(now);
      }
      collected := Now();
      if key in buckets {
        assert buckets == buckets[key := buckets[key]];
        return Some(buckets[key]), collected;
      }
      if cfg.maxBuckets > 0 && |buckets| >= cfg.maxBuckets {
        return None, collected;
      }
      b := Some(Bucket(cfg.burst as real, now, now, 0));
      buckets := buckets[key := b.value];
    }

    /** `consume` on the bucket of `key`, which is `b`. */
    method ConsumeAt(key: Key, b: Bucket, now: real) returns (ok: bool, filled: Bucket)
      modifies this`buckets
      ensures (filled, ok) == Spend(cfg, b, now) && buckets == old(buckets)[key := filled]
    {
      filled := b;
      var elapsed := now - b.lastFill;
      if elapsed > 0.0 {
        filled := filled.(tokens := filled.tokens + Earned(cfg, elapsed));
        if filled.tokens > cfg.burst as real {
          filled := filled.(tokens := cfg.burst as real);
        }
        filled := filled.(lastFill := now);
      }
      ok := filled.tokens >= 1.0;
      if ok {
        filled := filled.(tokens := filled.tokens - 1.0);
      }
      buckets := buckets[key := filled];
    }

    /** `allowAt`: a query from an address of the allowlist changes nothing; any other is one step of its prefix. */
    method AllowAt(ip: Address, now: real) returns (r: Fate, ghost e: Option<Event>)
      modifies this
      ensures listed(ip) ==> r == Allowed && e == None && Now() == old(Now())
      ensures !listed(ip) ==> e.Some? && e.value.key == prefixKey(ip) && e.value.now == now && e.value.after == Now() &&
                              e.value.outcome == r && QueryStep(cfg, old(Now()), e.value)
    {
      if listed(ip) {
        return Allowed, None;
      }
      var key := prefixKey(ip);
      var b;
      ghost var collected;
      b, collected := GetOrCreate(key, now);
      if b.None? {
        return TableFull, Some(Event(key, now, collected, Now(), TableFull));
      }
      ghost var found := Found(cfg, collected, key, now);
      var ok, filled := ConsumeAt(key, b.value, now);
      assert buckets == collected.buckets[key := filled];
      if ok {
        return Allowed, Some(Event(key, now, collected, Now(), Allowed));
      }
      buckets := buckets[key := filled.(drops := filled.drops + 1)];
      assert buckets == collected.buckets[key := filled.(drops := filled.drops + 1)];
      r := Limited;
      e := Some(Event(key, now, collected, Now(), Limited));
    }

    /** `checkAt`: as `allowAt`, with every `slipRatio`-th refusal of a bucket turned into a truncated reply. */
    method CheckAt(udp: bool, ip: Address, now: real) returns (d: Decision, ghost e: Option<Event>)
      modifies this
      ensures !udp || listed(ip) ==> d == Allow && e == None && Now() == old(Now())
      ensures udp && !listed(ip) ==> e.Some? && e.value.key == prefixKey(ip) && e.value.now == now && e.value.after == Now() &&
                                     QueryStep(cfg, old(Now()), e.value) && (d == Allow <==> e.value.outcome == Allowed)
      ensures udp && !listed(ip) && e.value.outcome == Limited ==> prefixKey(ip) in buckets
      ensures udp && !listed(ip) ==>
        (d == Slip <==> e.value.outcome == Limited && cfg.slipRatio > 0 && buckets[prefixKey(ip)].drops % cfg.slipRatio == 0)
    {
      if !udp || listed(ip) {
        return Allow, None;
      }
      var r;
      r, e := AllowAt(ip, now);
      match r
      case TableFull => d := Drop;
      case Allowed => d := Allow;
      case Limited =>
        var key := prefixKey(ip);
        assert key in e.value.after.buckets;
        if cfg.slipRatio > 0 && buckets[key].drops % cfg.slipRatio == 0 {
          d := Slip;
        } else {
          d := Drop;
        }
    }
  }

  // ----- sorting by age

  function EntryKeys(s: seq<Entry>): (ks: set<Key>) {
    set e | e in s :: e.key
  }

  /** No key twice. */
  predicate Distinct(s: seq<Entry>) {
    s == [] || (s[|s| - 1].key !in EntryKeys(s[..|s| - 1]) && Distinct(s[..|s| - 1]))
  }

  /** The entries list the table, each bucket once. */
  ghost predicate Lists(m: map<Key, Bucket>, s: seq<Entry>) {
    Distinct(s) && EntryKeys(s) == m.Keys && forall e :: e in s ==> e.key in m && e.createdAt == m[e.key].createdAt
  }

  predicate ByAge(s: seq<Entry>) {
    forall i, j :: 0 <= i < j < |s| ==> s[i].createdAt <= s[j].createdAt
  }

  method ListEntries(m: map<Key, Bucket>) returns (entries: seq<Entry>)
    ensures Lists(m, entries)
  {
    hide EntryKeys, Distinct;
    NoEntries();
    entries := [];
    var todo := m.Keys;
    while todo != {}
      invariant todo <= m.Keys && Distinct(entries) && EntryKeys(entries) == m.Keys - todo
      invariant forall e :: e in entries ==> e.key in m && e.createdAt == m[e.key].createdAt
      decreases |todo|
    {
      var key :| key in todo;
      todo := todo - {key};
      KeysAppend(entries, Entry(key, m[key].createdAt));
      entries := entries + [Entry(key, m[key].createdAt)];
    }
  }

  lemma NoEntries()
    ensures EntryKeys([]) == {} && Distinct([])
  {
  }

  lemma KeysAppend(s: seq<Entry>, e: Entry)
    ensures EntryKeys(s + [e]) == EntryKeys(s) + {e.key}
    ensures Distinct(s + [e]) <==> Distinct(s) && e.key !in EntryKeys(s)
  {
    assert (s + [e])[..|s|] == s;
  }

  /** Behind every entry that is not younger. */
  function InsertByAge(e: Entry, s: seq<Entry>): (r: seq<Entry>) {
    if s == [] || s[|s| - 1].createdAt <= e.createdAt then s + [e]
    else InsertByAge(e, s[..|s| - 1]) + [s[|s| - 1]]
  }

  /** `sort.Slice` by creation time. */
  function SortByAge(s: seq<Entry>): (r: seq<Entry>) {
    if s == [] then [] else InsertByAge(s[|s| - 1], SortByAge(s[..|s| - 1]))
  }

  lemma {:induction false} InsertKeeps(e: Entry, s: seq<Entry>)
    requires Distinct(s) && e.key !in EntryKeys(s)
    ensures EntryKeys(InsertByAge(e, s)) == EntryKeys(s) + {e.key} && Distinct(InsertByAge(e, s))
    ensures forall x :: x in InsertByAge(e, s) <==> x in s || x == e
    decreases |s|
  {
    hide EntryKeys, Distinct;
    if s == [] || s[|s| - 1].createdAt <= e.createdAt {
      KeysAppend(s, e);
    } else {
      var init, last := s[..|s| - 1], s[|s| - 1];
      assert s == init + [last];
      KeysAppend(init, last);
      InsertKeeps(e, init);
      KeysAppend(InsertByAge(e, init), last);
    }
  }

  lemma {:induction false} InsertAscends(e: Entry, s: seq<Entry>)
    requires ByAge(s) && Distinct(s) && e.key !in EntryKeys(s)
    ensures ByAge(InsertByAge(e, s))
    decreases |s|
  {
    hide EntryKeys, Distinct;
    if s != [] && s[|s| - 1].createdAt > e.createdAt {
      var init, last := s[..|s| - 1], s[|s| - 1];
      assert s == init + [last];
      KeysAppend(init, last);
      InsertAscends(e, init);
      InsertKeeps(e, init);
      var r := InsertByAge(e, init);
      forall i | 0 <= i < |r|
        ensures r[i].createdAt <= last.createdAt
      {
        assert r[i] in r;
      }
    }
  }

  lemma {:induction false} SortKeepsEntries(s: seq<Entry>)
    requires Distinct(s)
    ensures EntryKeys(SortByAge(s)) == EntryKeys(s) && Distinct(SortByAge(s))
    ensures forall x :: x in SortByAge(s) <==> x in s
    decreases |s|
  {
    hide EntryKeys, Distinct;
    if s == [] {
      NoEntries();
    } else {
      var init, last := s[..|s| - 1], s[|s| - 1];
      assert s == init + [last];
      KeysAppend(init, last);
      SortKeepsEntries(init);
      InsertKeeps(last, SortByAge(init));
    }
  }

  lemma {:induction false} SortKeepsOrder(s: seq<Entry>)
    requires Distinct(s)
    ensures ByAge(SortByAge(s))
    decreases |s|
  {
    hide EntryKeys, Distinct;
    if s != [] {
      var init, last := s[..|s| - 1], s[|s| - 1];
      assert s == init + [last];
      KeysAppend(init, last);
      SortKeepsEntries(init);
      SortKeepsOrder(init);
      InsertAscends(last, SortByAge(init));
    }
  }

  lemma SortedLists(m: map<Key, Bucket>, s: seq<Entry>)
    requires Lists(m, s)
    ensures Lists(m, SortByAge(s)) && ByAge(SortByAge(s))
  {
    hide EntryKeys, Distinct, SortByAge, ByAge;
    SortKeepsEntries(s);
    SortKeepsOrder(s);
  }

  lemma {:induction false} KeysCount(s: seq<Entry>)
    requires Distinct(s)
    ensures |EntryKeys(s)| == |s|
    decreases |s|
  {
    hide EntryKeys, Distinct;
    NoEntries();
    if s != [] {
      var init, last := s[..|s| - 1], s[|s| - 1];
      assert s == init + [last];
      KeysAppend(init, last);
      KeysCount(init);
    }
  }

  lemma EntriesCount(m: map<Key, Bucket>, s: seq<Entry>)
    requires Lists(m, s)
    ensures |s| == |m|
  {
    KeysCount(s);
    assert |m| == |m.Keys|;
  }

  lemma {:induction false} DistinctPrefix(s: seq<Entry>, n: nat)
    requires Distinct(s) && n <= |s|
    ensures Distinct(s[..n]) && forall i, j :: 0 <= i < n <= j < |s| ==> s[i].key != s[j].key
    decreases |s|
  {
    if n < |s| {
      var init := s[..|s| - 1];
      DistinctPrefix(init, n);
      assert init[..n] == s[..n];
      assert forall i :: 0 <= i < |init| ==> init[i] in init && init[i] == s[i];
    } else {
      assert s[..n] == s;
    }
  }

  lemma OlderGoes(m: map<Key, Bucket>, s: seq<Entry>, n: nat, x: Key, e: Key)
    requires Lists(m, s) && ByAge(s) && n <= |s| && x in m && x !in EntryKeys(s[..n]) && e in EntryKeys(s[..n])
    ensures e in m && m[x].createdAt >= m[e].createdAt
  {
    var i := EntryAt(s, x);
    var j := EntryAt(s[..n], e);
    assert s[i] in s && s[j] in s;
  }

  lemma PrefixKeys(s: seq<Entry>, n: nat)
    requires n <= |s|
    ensures EntryKeys(s[..n]) <= EntryKeys(s)
  {
    assert forall e :: e in s[..n] ==> e in s;
  }

  lemma EvictCount(m: map<Key, Bucket>, s: seq<Entry>, n: nat)
    requires Lists(m, s) && n <= |s|
    ensures EntryKeys(s[..n]) <= m.Keys && |m - EntryKeys(s[..n])| == |m| - n
  {
    DistinctPrefix(s, n);
    KeysCount(s[..n]);
    PrefixKeys(s, n);
    assert EntryKeys(s) == m.Keys;
    hide EntryKeys, Distinct, Lists;
    RemovedCount(m, EntryKeys(s[..n]));
  }

  lemma RemovedCount(m: map<Key, Bucket>, gone: set<Key>)
    requires gone <= m.Keys
    ensures |m - gone| == |m| - |gone|
  {
    var g := m - gone;
    assert g.Keys == m.Keys - gone;
    assert |g| == |g.Keys| && |m| == |m.Keys|;
  }

  /** Dropping the head of the sorted list leaves the younger buckets. */
  lemma EvictOldest(m: map<Key, Bucket>, s: seq<Entry>)
    requires Lists(m, s) && ByAge(s) && |m| > 0
    ensures |s| == |m| && ToEvict(|m|) <= |m| && ForceCollected(m, m - EntryKeys(s[..ToEvict(|m|)]))
  {
    hide EntryKeys, ByAge, Lists;
    EntriesCount(m, s);
    var n := ToEvict(|m|);
    EvictCount(m, s, n);
    var g := m - EntryKeys(s[..n]);
    forall x, e | x in g && e in m && e !in g
      ensures m[x].createdAt >= m[e].createdAt
    {
      OlderGoes(m, s, n, x, e);
    }
  }

  lemma EntryAt(s: seq<Entry>, k: Key) returns (i: nat)
    requires k in EntryKeys(s)
    ensures i < |s| && s[i].key == k
  {
    var e :| e in s && e.key == k;
    i :| 0 <= i < |s| && s[i] == e;
  }
}
