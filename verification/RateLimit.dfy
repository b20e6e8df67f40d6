/** The token-bucket limiter: one bucket per key, refilled by elapsed time, with idle
    buckets swept away.

    Times are seconds on a monotonic clock and token levels are reals. The functions
    below say what one call does to the table of buckets; the class performs it. */
module RateLimit {
  const CAPACITY: real := 60.0
  const REFILL_PER_SEC: real := 1.0
  const META_REFILL_PER_SEC: real := 0.5
  const IDLE_EVICT_SECS: nat := 600
  const U64_MAX: nat := 0xFFFF_FFFF_FFFF_FFFF

  datatype Bucket = Bucket(tokens: real, last: real)
  datatype Decision = Allow | Deny(retryAfterSecs: nat)
  datatype Params = Params(capacity: real, refill: real)

  type Table = map<string, Bucket>

  // ── one call ──────────────────────────────────────────────────────────────

  function Min(a: real, b: real): real {
    if a < b then a else b
  }

  /** Tokens gained between two times. */
  function Gain(rate: real, from: real, to: real): real {
    rate * (to - from)
  }

  /** Never negative: a clock reading before `from` counts as no time at all. */
  function Elapsed(from: real, to: real): real {
    if to < from then 0.0 else to - from
  }

  function Refilled(b: Bucket, now: real, p: Params): real {
    Min(b.tokens + p.refill * Elapsed(b.last, now), p.capacity)
  }

  function Ceil(x: real): int {
    -((-x).Floor)
  }

  /** A float cast to u64 saturates at both ends; dividing by zero gives infinity. */
  function WholeSeconds(deficit: real, rate: real): nat {
    if rate == 0.0 then U64_MAX
    else
      var secs := Ceil(deficit / rate);
      if secs < 0 then 0 else if secs > U64_MAX then U64_MAX else secs
  }

  function Charge(tokens: real, now: real, p: Params): (Bucket, Decision) {
    if tokens >= 1.0 then (Bucket(tokens - 1.0, now), Allow)
    else
      var secs := WholeSeconds(1.0 - tokens, p.refill);
      (Bucket(tokens, now), Deny(if secs < 1 then 1 else secs))
  }

  /** A key seen for the first time starts with a full bucket. */
  function Lookup(t: Table, key: string, now: real, p: Params): Bucket {
    if key in t then t[key] else Bucket(p.capacity, now)
  }

  function Check(t: Table, key: string, now: real, p: Params): (Table, Decision) {
    var (b, d) := Charge(Refilled(Lookup(t, key, now, p), now, p), now, p);
    (t[key := b], d)
  }

  predicate Idle(b: Bucket, now: real) {
    Elapsed(b.last, now).Floor >= IDLE_EVICT_SECS
  }

  function Swept(t: Table, now: real): Table {
    map k | k in t && !Idle(t[k], now) :: t[k]
  }

  /** One call: the key's bucket, full if it is new, refills for the time since its last
      touch, if any has passed; with a whole token in it, the call is allowed and takes it. */
  ghost predicate Charges(t: Table, key: string, now: real, p: Params, after: Table, d: Decision) {
    var b := if key in t then t[key] else Bucket(p.capacity, now);
    var refilled := b.tokens + p.refill * (if b.last < now then now - b.last else 0.0);
    var level := if refilled < p.capacity then refilled else p.capacity;
    && d.Allow? == (level >= 1.0)
    && after == t[key := Bucket(if level >= 1.0 then level - 1.0 else level, now)]
  }

  lemma CheckCharges(t: Table, key: string, now: real, p: Params)
    ensures Charges(t, key, now, p, Check(t, key, now, p).0, Check(t, key, now, p).1)
  {}

  class RateLimiter {
    const params: Params
    var buckets: Table

    constructor WithParams(capacity: real, refillPerSec: real)
      ensures params == Params(capacity, refillPerSec) && buckets == map[]
    {
      params := Params(capacity, refillPerSec);
      buckets := map[];
    }

    constructor New()
      ensures params == Params(60.0, 1.0) && buckets == map[]
    {
      params := Params(CAPACITY, REFILL_PER_SEC);
      buckets := map[];
    }

    method CheckAt(key: string, now: real) returns (d: Decision)
      modifies this`buckets
      ensures (buckets, d) == Check(old(buckets), key, now, params)
      ensures Charges(old(buckets), key, now, params, buckets, d)
    {
      if key !in buckets {
        buckets := buckets[key := Bucket(params.capacity, now)];
      }
      var entry := buckets[key];
      assert entry == Lookup(old(buckets), key, now, params);
      var elapsed := if now < entry.last then 0.0 else now - entry.last;
      assert elapsed == Elapsed(entry.last, now);
      entry := entry.(tokens := Min(entry.tokens + params.refill * elapsed, params.capacity));
      assert entry.tokens == Refilled(Lookup(old(buckets), key, now, params), now, params);
      entry := entry.(last := now);
      if entry.tokens >= 1.0 {
        entry := entry.(tokens := entry.tokens - 1.0);
        d := Allow;
      } else {
        var deficit := 1.0 - entry.tokens;
        var secs := WholeSeconds(deficit, params.refill);
        d := Deny(if secs < 1 then 1 else secs);
      }
      buckets := buckets[key := entry];
      assert buckets == old(buckets)[key := entry];
      CheckCharges(old(buckets), key, now, params);
    }

    method Sweep(now: real)
      modifies this`buckets
      ensures buckets == Swept(old(buckets), now)
      ensures forall k :: k in buckets <==> k in old(buckets) && now - old(buckets)[k].last < 600.0
      ensures forall k | k in buckets :: buckets[k] == old(buckets)[k]
    {
      buckets := map k | k in buckets && Elapsed(buckets[k].last, now).Floor < IDLE_EVICT_SECS :: buckets[k];
    }
  }

  // ── runs ──────────────────────────────────────────────────────────────────

  datatype Event = Call(key: string, at: real) | SweepAt(at: real)

  function Step(t: Table, e: Event, p: Params): Table {
    match e
    case Call(key, at) => Check(t, key, at, p).0
    case SweepAt(at) => Swept(t, at)
  }

  /** The decisions of a run, in order. */
  function Run(t: Table, events: seq<Event>, p: Params): seq<Decision>
    decreases |events|
  {
    if events == [] then []
    else
      var rest := Run(Step(t, events[0], p), events[1..], p);
      match events[0]
      case Call(key, at) => [Check(t, key, at, p).1] + rest
      case SweepAt(_) => rest
  }

  function WithoutSweeps(events: seq<Event>): seq<Event> {
    if events == [] then []
    else if events[0].SweepAt? then WithoutSweeps(events[1..])
    else [events[0]] + WithoutSweeps(events[1..])
  }

  /** Times never go back, and none precedes `now`. */
  ghost predicate Timed(events: seq<Event>, now: real) {
    events == [] || (now <= events[0].at && Timed(events[1..], events[0].at))
  }

  /** Buckets hold between zero and a full load and were last touched by `now`. */
  ghost predicate ValidTable(t: Table, now: real, p: Params) {
    forall k | k in t :: 0.0 <= t[k].tokens <= p.capacity && t[k].last <= now
  }

  lemma GainAdds(rate: real, a: real, b: real, c: real)
    ensures Gain(rate, a, b) + Gain(rate, b, c) == Gain(rate, a, c)
  {}

  lemma GainGrows(rate: real, a: real, b: real)
    requires rate >= 0.0 && a <= b
    ensures Gain(rate, a, b) >= 0.0
  {}

  /** A stronger rate, or a longer wait, gains more. */
  lemma GainGrowsWithTime(rate: real, a: real, b: real, c: real)
    requires rate >= 0.0 && b <= c
    ensures Gain(rate, a, b) <= Gain(rate, a, c)
  {
    GainAdds(rate, a, b, c);
    GainGrows(rate, b, c);
  }

  // ── the bound ─────────────────────────────────────────────────────────────

  /** How often `key` is allowed with a time in [from, to]. */
  function Allowed(t: Table, events: seq<Event>, key: string, from: real, to: real, p: Params): nat
    decreases |events|
  {
    if events == [] then 0
    else
      var e := events[0];
      (if e.Call? && e.key == key && from <= e.at <= to && Check(t, key, e.at, p).1.Allow? then 1 else 0)
      + Allowed(Step(t, e, p), events[1..], key, from, to, p)
  }

  /** The level the key would find at `at`. */
  function Level(t: Table, key: string, at: real, p: Params): real {
    Refilled(Lookup(t, key, at, p), at, p)
  }

  lemma LevelGrowsSlowly(t: Table, key: string, now: real, later: real, p: Params)
    requires ValidTable(t, now, p) && now <= later && p.refill >= 0.0
    ensures Level(t, key, later, p) <= Level(t, key, now, p) + Gain(p.refill, now, later)
    ensures Level(t, key, now, p) <= p.capacity
  {
    GainGrows(p.refill, now, later);
    if key in t {
      GainAdds(p.refill, t[key].last, now, later);
    }
  }

  lemma SweepKeepsLevel(t: Table, key: string, now: real, p: Params)
    requires ValidTable(t, now, p) && p.refill >= 0.0
    requires p.capacity <= p.refill * IDLE_EVICT_SECS as real
    ensures Level(Swept(t, now), key, now, p) == Level(t, key, now, p)
  {
    if key in t && Idle(t[key], now) {
      GainGrowsWithTime(p.refill, 0.0, IDLE_EVICT_SECS as real, now - t[key].last);
      assert p.refill * (now - t[key].last) >= p.capacity;
    }
  }

  lemma StepKeepsTable(t: Table, e: Event, now: real, p: Params)
    requires ValidTable(t, now, p) && now <= e.at && p.capacity >= 0.0 && p.refill >= 0.0
    ensures ValidTable(Step(t, e, p), e.at, p)
  {
    match e
    case Call(key, at) =>
      var b := Lookup(t, key, at, p);
      GainGrows(p.refill, b.last, at);
      assert 0.0 <= Refilled(b, at, p) <= p.capacity;
    case SweepAt(at) =>
  }

  lemma {:induction false} NoneAllowedAfter(t: Table, events: seq<Event>, key: string, now: real,
                                            from: real, to: real, p: Params)
    requires Timed(events, now) && to < now
    ensures Allowed(t, events, key, from, to, p) == 0
    decreases |events|
  {
    if events != [] {
      NoneAllowedAfter(Step(t, events[0], p), events[1..], key, events[0].at, from, to, p);
    }
  }

  /** From `now` inside the interval on: what is left in the bucket plus what can still
      drip in bounds what is still allowed. */
  lemma {:induction false} AllowedFromHere(t: Table, events: seq<Event>, key: string, now: real,
                                           from: real, to: real, p: Params)
    requires ValidTable(t, now, p) && Timed(events, now) && from <= now <= to
    requires p.capacity >= 0.0 && p.refill >= 0.0
    requires p.capacity <= p.refill * IDLE_EVICT_SECS as real || forall e | e in events :: e.Call?
    ensures Allowed(t, events, key, from, to, p) as real <= Level(t, key, now, p) + Gain(p.refill, now, to)
    decreases |events|
  {
    GainGrows(p.refill, now, to);
    if events == [] {
      LevelIsNonNegative(t, key, now, p);
    } else {
      var e := events[0];
      var next := Step(t, e, p);
      if to < e.at {
        NoneAllowedAfter(next, events[1..], key, e.at, from, to, p);
        LevelIsNonNegative(t, key, now, p);
      } else {
        StepKeepsTable(t, e, now, p);
        AllowedFromHere(next, events[1..], key, e.at, from, to, p);
        GainAdds(p.refill, now, e.at, to);
        LevelGrowsSlowly(t, key, now, e.at, p);
        StepCost(t, e, key, now, p);
      }
    }
  }

  lemma LevelIsNonNegative(t: Table, key: string, now: real, p: Params)
    requires ValidTable(t, now, p) && p.capacity >= 0.0 && p.refill >= 0.0
    ensures Level(t, key, now, p) >= 0.0
  {
    GainGrows(p.refill, Lookup(t, key, now, p).last, now);
  }

  /** One event takes a whole token when it allows the key, and nothing otherwise. */
  lemma StepCost(t: Table, e: Event, key: string, now: real, p: Params)
    requires ValidTable(t, now, p) && now <= e.at && p.capacity >= 0.0 && p.refill >= 0.0
    requires p.capacity <= p.refill * IDLE_EVICT_SECS as real || e.Call?
    ensures var charged := e.Call? && e.key == key && Check(t, key, e.at, p).1.Allow?;
            Level(Step(t, e, p), key, e.at, p) == Level(t, key, e.at, p) - (if charged then 1.0 else 0.0)
  {
    match e
    case Call(k, at) =>
      if k == key {
        LevelGrowsSlowly(t, key, now, at, p);
      }
    case SweepAt(at) =>
      SweepKeepsLevel(t, key, at, p);
  }

  /** In any interval of any run a key is allowed at most a full bucket plus what drips
      in meanwhile, whatever other keys do, and with sweeps anywhere provided an idle
      bucket has refilled by the time it can be swept. */
  lemma {:induction false} AllowedInInterval(t: Table, events: seq<Event>, key: string, now: real,
                                             from: real, to: real, p: Params)
    requires ValidTable(t, now, p) && Timed(events, now) && from <= to
    requires p.capacity >= 0.0 && p.refill >= 0.0
    requires p.capacity <= p.refill * IDLE_EVICT_SECS as real || forall e | e in events :: e.Call?
    ensures Allowed(t, events, key, from, to, p) as real <= p.capacity + Gain(p.refill, from, to)
    decreases |events|
  {
    GainGrows(p.refill, from, to);
    if now >= from {
      if now <= to {
        AllowedFromHere(t, events, key, now, from, to, p);
        GainAdds(p.refill, from, now, to);
        GainGrows(p.refill, from, now);
      } else {
        NoneAllowedAfter(t, events, key, now, from, to, p);
      }
    } else if events != [] {
      var e := events[0];
      StepKeepsTable(t, e, now, p);
      if e.at < from {
        AllowedInInterval(Step(t, e, p), events[1..], key, e.at, from, to, p);
      } else if e.at <= to {
        ValidLater(t, now, e.at, p);
        AllowedFromHere(t, events, key, e.at, from, to, p);
        LevelGrowsSlowly(t, key, e.at, e.at, p);
        GainAdds(p.refill, from, e.at, to);
        GainGrows(p.refill, from, e.at);
      } else {
        NoneAllowedAfter(t, events, key, e.at, from, to, p);
      }
    }
  }

  lemma ValidLater(t: Table, now: real, later: real, p: Params)
    requires ValidTable(t, now, p) && now <= later
    ensures ValidTable(t, later, p)
  {}

  // ── sweeping cannot be seen ───────────────────────────────────────────────

  /** The swept table misses only buckets that are full again by `now`. */
  ghost predicate Alike(swept: Table, whole: Table, now: real, p: Params) {
    && (forall k | k in swept :: k in whole && swept[k] == whole[k])
    && (forall k | k in whole && k !in swept :: Refilled(whole[k], now, p) == p.capacity)
    && (forall k | k in whole :: whole[k].last <= now)
  }

  lemma FullStaysFull(b: Bucket, now: real, later: real, p: Params)
    requires b.last <= now <= later && p.refill >= 0.0 && Refilled(b, now, p) == p.capacity
    ensures Refilled(b, later, p) == p.capacity
  {
    GainAdds(p.refill, b.last, now, later);
    GainGrows(p.refill, now, later);
  }

  lemma AlikeLater(swept: Table, whole: Table, now: real, later: real, p: Params)
    requires Alike(swept, whole, now, p) && now <= later && p.refill >= 0.0
    ensures Alike(swept, whole, later, p)
  {
    forall k | k in whole && k !in swept ensures Refilled(whole[k], later, p) == p.capacity {
      FullStaysFull(whole[k], now, later, p);
    }
  }

  lemma AlikeAfterCall(swept: Table, whole: Table, key: string, now: real, p: Params)
    requires Alike(swept, whole, now, p) && p.refill >= 0.0
    ensures Check(swept, key, now, p).1 == Check(whole, key, now, p).1
    ensures Alike(Check(swept, key, now, p).0, Check(whole, key, now, p).0, now, p)
  {
    assert Level(swept, key, now, p) == Level(whole, key, now, p);
  }

  lemma AlikeAfterSweep(swept: Table, whole: Table, now: real, p: Params)
    requires Alike(swept, whole, now, p) && p.refill >= 0.0
    requires forall k | k in whole :: whole[k].tokens >= 0.0
    requires p.capacity <= p.refill * IDLE_EVICT_SECS as real
    ensures Alike(Swept(swept, now), whole, now, p)
  {
    forall k | k in swept && Idle(swept[k], now) ensures Refilled(whole[k], now, p) == p.capacity {
      GainGrowsWithTime(p.refill, 0.0, IDLE_EVICT_SECS as real, now - whole[k].last);
    }
  }

  lemma CallKeepsSign(t: Table, key: string, now: real, p: Params)
    requires forall k | k in t :: t[k].tokens >= 0.0
    requires p.capacity >= 0.0 && p.refill >= 0.0
    ensures var next := Check(t, key, now, p).0; forall k | k in next :: next[k].tokens >= 0.0
  {
    var b := Lookup(t, key, now, p);
    if b.last <= now {
      GainGrows(p.refill, b.last, now);
    }
  }

  lemma RunCall(t: Table, e: Event, rest: seq<Event>, p: Params)
    requires e.Call?
    ensures Run(t, [e] + rest, p) == [Check(t, e.key, e.at, p).1] + Run(Step(t, e, p), rest, p)
  {
    assert ([e] + rest)[1..] == rest;
  }

  lemma {:induction false} SweptRunsAgree(swept: Table, whole: Table, events: seq<Event>, now: real, p: Params)
    requires Alike(swept, whole, now, p) && Timed(events, now)
    requires forall k | k in whole :: whole[k].tokens >= 0.0
    requires p.capacity >= 0.0 && p.refill >= 0.0 && p.capacity <= p.refill * IDLE_EVICT_SECS as real
    ensures Run(swept, events, p) == Run(whole, WithoutSweeps(events), p)
    decreases |events|
  {
    if events != [] {
      var e := events[0];
      AlikeLater(swept, whole, now, e.at, p);
      match e
      case Call(key, at) =>
        AlikeAfterCall(swept, whole, key, at, p);
        CallKeepsSign(whole, key, at, p);
        SweptRunsAgree(Step(swept, e, p), Step(whole, e, p), events[1..], at, p);
        RunCall(whole, e, WithoutSweeps(events[1..]), p);
      case SweepAt(at) =>
        AlikeAfterSweep(swept, whole, at, p);
        SweptRunsAgree(Step(swept, e, p), whole, events[1..], at, p);
    }
  }

  /** No caller can tell whether idle buckets are swept: every run from an empty table
      answers as if it had no sweeps, retry hints included. */
  ghost predicate SweepInvisible(p: Params) {
    forall events: seq<Event>, now: real ::
      Timed(events, now) ==> Run(map[], events, p) == Run(map[], WithoutSweeps(events), p)
  }

  // ── exactly when sweeping is invisible ────────────────────────────────────

  /** Every bucket is as full as the capacity lets it be. */
  ghost predicate AllFull(t: Table, now: real, p: Params) {
    forall k | k in t :: t[k].tokens == p.capacity && t[k].last <= now
  }

  lemma FullCall(t: Table, key: string, now: real, at: real, p: Params)
    requires p.capacity < 1.0 && p.refill >= 0.0 && AllFull(t, now, p) && now <= at
    ensures AllFull(Check(t, key, at, p).0, at, p)
    ensures Check(t, key, at, p).1 == Charge(p.capacity, at, p).1
  {
    GainGrows(p.refill, Lookup(t, key, at, p).last, at);
    assert Refilled(Lookup(t, key, at, p), at, p) == p.capacity;
  }

  /** Below one token of capacity nothing is ever allowed and every bucket stays full. */
  lemma {:induction false} TinyRunsAgree(t: Table, u: Table, events: seq<Event>, now: real, p: Params)
    requires p.capacity < 1.0 && p.refill >= 0.0 && Timed(events, now)
    requires AllFull(t, now, p) && AllFull(u, now, p)
    ensures Run(t, events, p) == Run(u, WithoutSweeps(events), p)
    decreases |events|
  {
    if events != [] {
      var e := events[0];
      match e
      case Call(key, at) =>
        FullCall(t, key, now, at, p);
        FullCall(u, key, now, at, p);
        TinyRunsAgree(Step(t, e, p), Step(u, e, p), events[1..], at, p);
        RunCall(u, e, WithoutSweeps(events[1..]), p);
      case SweepAt(at) =>
        TinyRunsAgree(Step(t, e, p), u, events[1..], at, p);
    }
  }

  function After(t: Table, events: seq<Event>, p: Params): Table
    decreases |events|
  {
    if events == [] then t else After(Step(t, events[0], p), events[1..], p)
  }

  lemma {:induction false} RunSplit(t: Table, a: seq<Event>, b: seq<Event>, p: Params)
    ensures Run(t, a + b, p) == Run(t, a, p) + Run(After(t, a, p), b, p)
    ensures After(t, a + b, p) == After(After(t, a, p), b, p)
    decreases |a|
  {
    if a == [] {
      assert a + b == b;
    } else {
      assert (a + b)[1..] == a[1..] + b;
      RunSplit(Step(t, a[0], p), a[1..], b, p);
    }
  }

  lemma {:induction false} WithoutSweepsSplit(a: seq<Event>, b: seq<Event>)
    requires forall e | e in a :: e.Call?
    ensures WithoutSweeps(a + b) == a + WithoutSweeps(b)
  {
    if a == [] {
      assert a + b == b;
    } else {
      assert (a + b)[1..] == a[1..] + b;
      WithoutSweepsSplit(a[1..], b);
      assert (a + b)[0] == a[0] && a[0] in a;
      assert [a[0]] + (a[1..] + WithoutSweeps(b)) == a + WithoutSweeps(b);
    }
  }

  const KEY := "k"

  /** `n` calls at one instant. */
  function Burst(n: nat, at: real): (r: seq<Event>)
    ensures |r| == n && forall e | e in r :: e == Call(KEY, at)
  {
    if n == 0 then [] else [Call(KEY, at)] + Burst(n - 1, at)
  }

  function AllAllow(n: nat): (r: seq<Decision>)
    ensures |r| == n
  {
    if n == 0 then [] else [Allow] + AllAllow(n - 1)
  }

  lemma {:induction false} CallsAnswered(t: Table, events: seq<Event>, p: Params)
    requires forall e | e in events :: e.Call?
    ensures |Run(t, events, p)| == |events|
    decreases |events|
  {
    if events != [] {
      CallsAnswered(Step(t, events[0], p), events[1..], p);
    }
  }

  lemma {:induction false} TimedBurst(n: nat, at: real, rest: seq<Event>, now: real)
    requires now <= at && Timed(rest, at)
    ensures Timed(Burst(n, at) + rest, now)
    decreases n
  {
    if n == 0 {
      assert Burst(n, at) + rest == rest;
      assert Timed(rest, now);
    } else {
      TimedBurst(n - 1, at, rest, at);
      assert (Burst(n, at) + rest)[1..] == Burst(n - 1, at) + rest;
    }
  }

  lemma CallTakesToken(t: Table, x: real, at: real, p: Params)
    requires x == Level(t, KEY, at, p) && 0.0 <= x
    ensures var next := Step(t, Call(KEY, at), p);
            if x >= 1.0
            then Check(t, KEY, at, p).1 == Allow && next == t[KEY := Bucket(x - 1.0, at)]
                 && Level(next, KEY, at, p) == x - 1.0
            else Check(t, KEY, at, p).1.Deny?
  {}

  /** `n` calls at one instant are all allowed exactly when there are `n` tokens. */
  lemma {:induction false} BurstNeedsTokens(t: Table, x: real, n: nat, at: real, p: Params)
    requires x == Level(t, KEY, at, p) && 0.0 <= x
    ensures n as real <= x <==> Run(t, Burst(n, at), p) == AllAllow(n)
    ensures 0 < n && n as real <= x ==> After(t, Burst(n, at), p) == t[KEY := Bucket(x - n as real, at)]
    decreases n
  {
    if n > 0 {
      var call := Call(KEY, at);
      assert Burst(n, at)[1..] == Burst(n - 1, at);
      RunCall(t, call, Burst(n - 1, at), p);
      CallTakesToken(t, x, at, p);
      if x >= 1.0 {
        var next := Step(t, call, p);
        BurstNeedsTokens(next, x - 1.0, n - 1, at, p);
        var rest := Run(next, Burst(n - 1, at), p);
        assert ([Allow] + rest)[1..] == rest && AllAllow(n)[1..] == AllAllow(n - 1);
      } else {
        assert Run(t, Burst(n, at), p)[0] == Check(t, KEY, at, p).1 && AllAllow(n)[0] == Allow;
      }
    }
  }

  /** A burst and, after waiting for the missing fraction of a token, one more call. */
  function Probe(n: nat, at: real, wait: real): seq<Event> {
    Burst(n, at) + [Call(KEY, at + wait)]
  }

  lemma OneCall(t: Table, at: real, p: Params)
    ensures Run(t, [Call(KEY, at)], p) == [Check(t, KEY, at, p).1]
    ensures After(t, [Call(KEY, at)], p) == Check(t, KEY, at, p).0
  {
    assert [Call(KEY, at)][1..] == [];
  }

  lemma LastOfProbe(x: real, n: nat, at: real, wait: real, t: Table, p: Params)
    requires p.capacity >= 1.0 && wait > 0.0 && n == p.capacity.Floor
    requires Gain(p.refill, at, at + wait) == 1.0 - (p.capacity - n as real)
    requires t == t[KEY := Bucket(x - n as real, at)] && x <= p.capacity
    ensures Run(t, [Call(KEY, at + wait)], p) == [Allow] <==> x == p.capacity
  {
    OneCall(t, at + wait, p);
    assert t[KEY] == Bucket(x - n as real, at);
    assert Elapsed(at, at + wait) == wait && Gain(p.refill, at, at + wait) == p.refill * wait;
    assert Level(t, KEY, at + wait, p) == x - n as real + p.refill * wait;
  }

  /** Only a full bucket lets the whole probe through. */
  lemma ProbeNeedsAFullBucket(t: Table, n: nat, at: real, wait: real, p: Params)
    requires p.capacity >= 1.0 && p.refill > 0.0 && wait > 0.0 && n == p.capacity.Floor
    requires Gain(p.refill, at, at + wait) == 1.0 - (p.capacity - n as real)
    requires 0.0 <= Level(t, KEY, at, p)
    ensures Run(t, Probe(n, at, wait), p) == AllAllow(n) + [Allow] <==> Level(t, KEY, at, p) == p.capacity
  {
    var x, burst, last := Level(t, KEY, at, p), Burst(n, at), [Call(KEY, at + wait)];
    RunSplit(t, burst, last, p);
    BurstNeedsTokens(t, x, n, at, p);
    CallsAnswered(t, burst, p);
    var head, tail := Run(t, burst, p), Run(After(t, burst, p), last, p);
    assert (head + tail)[..n] == head && (AllAllow(n) + [Allow])[..n] == AllAllow(n);
    assert (head + tail)[n..] == tail && (AllAllow(n) + [Allow])[n..] == [Allow];
    if n as real <= x {
      LastOfProbe(x, n, at, wait, After(t, burst, p), p);
    }
  }

  lemma ScenarioIsTimed(n: nat, wait: real, idle: real)
    requires 0.0 < wait <= idle
    ensures Timed(Burst(n, 0.0) + [Call(KEY, wait)] + ([SweepAt(idle)] + Probe(n, idle, wait)), 0.0)
  {
    var probe := Probe(n, idle, wait);
    assert [Call(KEY, idle + wait)][1..] == [];
    TimedBurst(n, idle, [Call(KEY, idle + wait)], idle);
    var swept := [SweepAt(idle)] + probe;
    assert swept[1..] == probe;
    var tail := [Call(KEY, wait)] + swept;
    assert tail[1..] == swept;
    TimedBurst(n, 0.0, tail, 0.0);
    assert Burst(n, 0.0) + [Call(KEY, wait)] + swept == Burst(n, 0.0) + tail;
  }

  lemma SweepDropsOut(a: seq<Event>, at: real, b: seq<Event>)
    requires forall e | e in a :: e.Call?
    requires forall e | e in b :: e.Call?
    ensures WithoutSweeps(a + ([SweepAt(at)] + b)) == a + b
  {
    WithoutSweepsSplit(a, [SweepAt(at)] + b);
    assert ([SweepAt(at)] + b)[1..] == b;
    WithoutSweepsSplit(b, []);
    assert b + [] == b;
  }

  lemma ProbeTells(n: nat, wait: real, idle: real, p: Params)
    requires p.capacity >= 1.0 && p.refill > 0.0 && wait > 0.0 && n == p.capacity.Floor
    requires p.refill * wait == 1.0 - (p.capacity - n as real)
    requires p.capacity > p.refill * IDLE_EVICT_SECS as real && idle == wait + IDLE_EVICT_SECS as real
    ensures Run(map[], Probe(n, idle, wait), p) != Run(map[KEY := Bucket(0.0, wait)], Probe(n, idle, wait), p)
  {
    var t: Table := map[KEY := Bucket(0.0, wait)];
    assert Gain(p.refill, idle, idle + wait) == p.refill * wait;
    assert Elapsed(wait, idle) == IDLE_EVICT_SECS as real;
    assert Level(t, KEY, idle, p) == p.refill * IDLE_EVICT_SECS as real;
    ProbeNeedsAFullBucket(map[], n, idle, wait, p);
    ProbeNeedsAFullBucket(t, n, idle, wait, p);
  }

  /** A limiter whose buckets take longer than the idle limit to refill shows its
      sweeps: drain a bucket, let it be swept, and the next burst tells. */
  lemma SlowRefillShows(p: Params)
    requires p.capacity >= 1.0 && p.refill > 0.0
    requires p.capacity > p.refill * IDLE_EVICT_SECS as real
    ensures !SweepInvisible(p)
  {
    var n := p.capacity.Floor;
    var wait := (1.0 - (p.capacity - n as real)) / p.refill;
    Quotient(1.0 - (p.capacity - n as real), p.refill);
    var idle := wait + IDLE_EVICT_SECS as real;
    var drain, probe := Burst(n, 0.0) + [Call(KEY, wait)], Probe(n, idle, wait);
    var events := drain + ([SweepAt(idle)] + probe);
    DrainEmpties(n, wait, p);
    ScenarioIsTimed(n, wait, idle);
    SweepDropsOut(drain, idle, probe);
    SweepMatters(drain, Bucket(0.0, wait), idle, probe, p);
    ProbeTells(n, wait, idle, p);
    assert Timed(events, 0.0) && Run(map[], events, p) != Run(map[], WithoutSweeps(events), p);
  }

  lemma SweepMatters(drain: seq<Event>, b: Bucket, idle: real, probe: seq<Event>, p: Params)
    requires After(map[], drain, p) == map[KEY := b] && idle >= b.last + IDLE_EVICT_SECS as real
    ensures Run(map[], drain + ([SweepAt(idle)] + probe), p) == Run(map[], drain + probe, p)
       <==> Run(map[], probe, p) == Run(map[KEY := b], probe, p)
  {
    var t: Table := map[KEY := b];
    var head, swept, whole := Run(map[], drain, p), Run(map[], probe, p), Run(t, probe, p);
    RunSplit(map[], drain, [SweepAt(idle)] + probe, p);
    RunSplit(map[], drain, probe, p);
    assert ([SweepAt(idle)] + probe)[1..] == probe;
    assert Swept(t, idle) == map[];
    assert (head + swept)[|head|..] == swept && (head + whole)[|head|..] == whole;
  }

  /** So does one whose buckets never refill: once swept, a spent bucket is full again. */
  lemma NoRefillShows(p: Params)
    requires p.capacity >= 1.0 && p.refill == 0.0
    ensures !SweepInvisible(p)
  {
    var n, idle := p.capacity.Floor, IDLE_EVICT_SECS as real;
    var drain, probe := Burst(n, 0.0), [Call(KEY, idle)];
    var b := Bucket(p.capacity - n as real, 0.0);
    BurstNeedsTokens(map[], p.capacity, n, 0.0, p);
    SweepMatters(drain, b, idle, probe, p);
    OneCall(map[], idle, p);
    OneCall(map[KEY := b], idle, p);
    SweepDropsOut(drain, idle, probe);
    assert ([SweepAt(idle)] + probe)[1..] == probe && probe[1..] == [];
    TimedBurst(n, 0.0, [SweepAt(idle)] + probe, 0.0);
    var events := drain + ([SweepAt(idle)] + probe);
    assert Timed(events, 0.0) && Run(map[], events, p) != Run(map[], WithoutSweeps(events), p);
  }

  lemma Quotient(x: real, y: real)
    requires y > 0.0
    ensures x / y * y == x
    ensures x > 0.0 ==> x / y > 0.0
  {}

  lemma DrainEmpties(n: nat, wait: real, p: Params)
    requires p.capacity >= 1.0 && p.refill > 0.0 && wait > 0.0
    requires n == p.capacity.Floor && wait * p.refill == 1.0 - (p.capacity - n as real)
    ensures After(map[], Burst(n, 0.0) + [Call(KEY, wait)], p) == map[KEY := Bucket(0.0, wait)]
  {
    var full: Table := map[];
    BurstNeedsTokens(full, p.capacity, n, 0.0, p);
    RunSplit(full, Burst(n, 0.0), [Call(KEY, wait)], p);
    var t := After(full, Burst(n, 0.0), p);
    assert t == map[KEY := Bucket(p.capacity - n as real, 0.0)];
    assert Level(t, KEY, wait, p) == 1.0;
    assert [Call(KEY, wait)][1..] == [];
  }

  /** Sweeping is invisible exactly when an idle bucket is sure to have refilled, or
      when no call is ever allowed anyway. */
  lemma SweepInvisibleIff(p: Params)
    requires p.capacity >= 0.0 && p.refill >= 0.0
    ensures SweepInvisible(p) <==> p.capacity < 1.0 || p.capacity <= p.refill * IDLE_EVICT_SECS as real
  {
    if p.capacity < 1.0 {
      forall events: seq<Event>, now: real | Timed(events, now)
        ensures Run(map[], events, p) == Run(map[], WithoutSweeps(events), p)
      {
        TinyRunsAgree(map[], map[], events, now, p);
      }
    } else if p.capacity <= p.refill * IDLE_EVICT_SECS as real {
      forall events: seq<Event>, now: real | Timed(events, now)
        ensures Run(map[], events, p) == Run(map[], WithoutSweeps(events), p)
      {
        SweptRunsAgree(map[], map[], events, now, p);
      }
    } else if p.refill > 0.0 {
      SlowRefillShows(p);
    } else {
      NoRefillShows(p);
    }
  }

  // ── exactly when the bound holds ──────────────────────────────────────────

  /** From an empty table on, whatever is called and swept, no key is allowed more in any
      interval than a full bucket plus what drips in. */
  ghost predicate BoundHolds(p: Params) {
    forall events: seq<Event>, now: real, key: string, from: real, to: real | Timed(events, now) && from <= to ::
      Allowed(map[], events, key, from, to, p) as real <= p.capacity + Gain(p.refill, from, to)
  }

  lemma {:induction false} TinyNeverAllows(t: Table, events: seq<Event>, key: string, now: real, from: real, to: real,
                                           p: Params)
    requires p.capacity < 1.0 && p.refill >= 0.0 && Timed(events, now) && AllFull(t, now, p)
    ensures Allowed(t, events, key, from, to, p) == 0
    decreases |events|
  {
    if events != [] {
      var e := events[0];
      if e.Call? {
        FullCall(t, e.key, now, e.at, p);
      }
      TinyNeverAllows(Step(t, e, p), events[1..], key, e.at, from, to, p);
    }
  }

  lemma {:induction false} AllowedSplit(t: Table, a: seq<Event>, b: seq<Event>, key: string, from: real, to: real,
                                        p: Params)
    ensures Allowed(t, a + b, key, from, to, p)
         == Allowed(t, a, key, from, to, p) + Allowed(After(t, a, p), b, key, from, to, p)
    decreases |a|
  {
    if a == [] {
      assert a + b == b;
    } else {
      assert (a + b)[1..] == a[1..] + b;
      AllowedSplit(Step(t, a[0], p), a[1..], b, key, from, to, p);
    }
  }

  /** Calls that are all allowed, all in the interval, count one each. */
  lemma {:induction false} AllowedCounts(t: Table, calls: seq<Event>, from: real, to: real, p: Params)
    requires forall e | e in calls :: e.Call? && e.key == KEY && from <= e.at <= to
    requires Run(t, calls, p) == AllAllow(|calls|)
    ensures Allowed(t, calls, KEY, from, to, p) == |calls|
    decreases |calls|
  {
    if calls != [] {
      assert calls[0] in calls && forall e | e in calls[1..] :: e in calls;
      assert Run(t, calls, p)[1..] == AllAllow(|calls|)[1..];
      AllowedCounts(Step(t, calls[0], p), calls[1..], from, to, p);
    }
  }

  lemma {:induction false} OneMoreAllow(n: nat)
    ensures AllAllow(n) + [Allow] == AllAllow(n + 1)
  {
    if n > 0 {
      OneMoreAllow(n - 1);
    }
  }

  /** A probe of a full bucket is allowed to the last call. */
  lemma ProbeCounts(t: Table, n: nat, at: real, wait: real, from: real, to: real, p: Params)
    requires p.capacity >= 1.0 && p.refill > 0.0 && wait > 0.0 && n == p.capacity.Floor
    requires Gain(p.refill, at, at + wait) == 1.0 - (p.capacity - n as real)
    requires Level(t, KEY, at, p) == p.capacity && from <= at && at + wait <= to
    ensures Allowed(t, Probe(n, at, wait), KEY, from, to, p) == n + 1
  {
    ProbeNeedsAFullBucket(t, n, at, wait, p);
    OneMoreAllow(n);
    AllowedCounts(t, Probe(n, at, wait), from, to, p);
  }

  /** Emptied, swept and emptied again, a bucket that refills too slowly gives too much. */
  lemma SlowRefillExceeds(p: Params)
    requires p.capacity >= 1.0 && p.refill > 0.0 && p.capacity > p.refill * IDLE_EVICT_SECS as real
    ensures !BoundHolds(p)
  {
    var n := p.capacity.Floor;
    var wait := (1.0 - (p.capacity - n as real)) / p.refill;
    Quotient(1.0 - (p.capacity - n as real), p.refill);
    var idle := wait + IDLE_EVICT_SECS as real;
    var events := Probe(n, 0.0, wait) + ([SweepAt(idle)] + Probe(n, idle, wait));
    assert Probe(n, 0.0, wait) == Burst(n, 0.0) + [Call(KEY, wait)];
    ScenarioIsTimed(n, wait, idle);
    TwoRoundsCount(n, wait, idle, p);
    TwoRoundsExceed(n, wait, idle, p);
    assert Timed(events, 0.0) && Allowed(map[], events, KEY, 0.0, idle + wait, p) == 2 * n + 2;
  }

  lemma TwoRoundsCount(n: nat, wait: real, idle: real, p: Params)
    requires p.capacity >= 1.0 && p.refill > 0.0 && wait > 0.0 && n == p.capacity.Floor
    requires wait * p.refill == 1.0 - (p.capacity - n as real) && idle == wait + IDLE_EVICT_SECS as real
    ensures Allowed(map[], Probe(n, 0.0, wait) + ([SweepAt(idle)] + Probe(n, idle, wait)), KEY, 0.0, idle + wait, p)
         == 2 * n + 2
  {
    var end, first, second := idle + wait, Probe(n, 0.0, wait), Probe(n, idle, wait);
    GainOver(p.refill, 0.0, wait);
    GainOver(p.refill, idle, wait);
    DrainEmpties(n, wait, p);
    assert first == Burst(n, 0.0) + [Call(KEY, wait)];
    ProbeCounts(map[], n, 0.0, wait, 0.0, end, p);
    ProbeCounts(map[], n, idle, wait, 0.0, end, p);
    AllowedSplit(map[], first, [SweepAt(idle)] + second, KEY, 0.0, end, p);
    SweptAway(Bucket(0.0, wait), idle, second, 0.0, end, p);
  }

  /** A sweep that takes the only bucket. */
  lemma SweptAway(b: Bucket, idle: real, rest: seq<Event>, from: real, to: real, p: Params)
    requires idle >= b.last + IDLE_EVICT_SECS as real
    ensures Allowed(map[KEY := b], [SweepAt(idle)] + rest, KEY, from, to, p) == Allowed(map[], rest, KEY, from, to, p)
  {
    assert ([SweepAt(idle)] + rest)[1..] == rest;
    assert Swept(map[KEY := b], idle) == map[];
  }

  lemma TwoRoundsExceed(n: nat, wait: real, idle: real, p: Params)
    requires p.capacity > p.refill * IDLE_EVICT_SECS as real
    requires wait * p.refill == 1.0 - (p.capacity - n as real) && idle == wait + IDLE_EVICT_SECS as real
    ensures (2 * n + 2) as real > p.capacity + Gain(p.refill, 0.0, idle + wait)
  {
    GainAdds(p.refill, 0.0, wait, idle + wait);
    GainAdds(p.refill, wait, idle, idle + wait);
    GainOver(p.refill, 0.0, wait);
    GainOver(p.refill, wait, IDLE_EVICT_SECS as real);
    GainOver(p.refill, idle, wait);
  }

  lemma NoRefillExceeds(p: Params)
    requires p.capacity >= 1.0 && p.refill == 0.0
    ensures !BoundHolds(p)
  {
    var n, idle := p.capacity.Floor, IDLE_EVICT_SECS as real;
    var first, second, b := Burst(n, 0.0), Burst(n, idle), Bucket(p.capacity - n as real, 0.0);
    var events := first + ([SweepAt(idle)] + second);
    BurstNeedsTokens(map[], p.capacity, n, 0.0, p);
    BurstNeedsTokens(map[], p.capacity, n, idle, p);
    AllowedCounts(map[], first, 0.0, idle, p);
    AllowedCounts(map[], second, 0.0, idle, p);
    AllowedSplit(map[], first, [SweepAt(idle)] + second, KEY, 0.0, idle, p);
    SweptAway(b, idle, second, 0.0, idle, p);
    assert second + [] == second;
    TimedBurst(n, idle, [], idle);
    assert ([SweepAt(idle)] + second)[1..] == second;
    TimedBurst(n, 0.0, [SweepAt(idle)] + second, 0.0);
    GainOver(p.refill, 0.0, idle);
    SameProduct(idle, p.refill, 0.0);
    assert Timed(events, 0.0) && Allowed(map[], events, KEY, 0.0, idle, p) == 2 * n;
  }

  /** The bound holds exactly when a bucket refills before it is idle, or when no call is
      ever allowed: precisely when sweeping is invisible. */
  lemma BoundHoldsIff(p: Params)
    requires p.capacity >= 0.0 && p.refill >= 0.0
    ensures BoundHolds(p) <==> p.capacity < 1.0 || p.capacity <= p.refill * IDLE_EVICT_SECS as real
    ensures BoundHolds(p) <==> SweepInvisible(p)
  {
    SweepInvisibleIff(p);
    if p.capacity < 1.0 || p.capacity <= p.refill * IDLE_EVICT_SECS as real {
      forall events: seq<Event>, now: real, key: string, from: real, to: real | Timed(events, now) && from <= to
        ensures Allowed(map[], events, key, from, to, p) as real <= p.capacity + Gain(p.refill, from, to)
      {
        GainGrows(p.refill, from, to);
        if p.capacity < 1.0 {
          TinyNeverAllows(map[], events, key, now, from, to, p);
        } else {
          AllowedInInterval(map[], events, key, now, from, to, p);
        }
      }
    } else if p.refill > 0.0 {
      SlowRefillExceeds(p);
    } else {
      NoRefillExceeds(p);
    }
  }

  // ── the retry hint ────────────────────────────────────────────────────────

  /** Every call for `key` in the run is denied. */
  ghost predicate Denied(t: Table, events: seq<Event>, key: string, p: Params)
    decreases |events|
  {
    events == [] ||
      var e := events[0];
      && (e.Call? && e.key == key ==> Check(t, key, e.at, p).1.Deny?)
      && Denied(Step(t, e, p), events[1..], key, p)
  }

  ghost predicate Until(events: seq<Event>, end: real) {
    forall e | e in events :: e.at <= end
  }

  /** Sweeps cannot change the key's level here: a bucket refills before it counts as idle,
      none is made, or none comes late enough to take the key's bucket. */
  ghost predicate SweepsHarmless(t: Table, events: seq<Event>, key: string, p: Params) {
    || p.capacity <= p.refill * IDLE_EVICT_SECS as real
    || (forall e | e in events :: e.Call?)
    || (key in t && forall e | e in events :: e.at < t[key].last + IDLE_EVICT_SECS as real)
  }

  lemma HarmlessStep(t: Table, events: seq<Event>, key: string, now: real, p: Params)
    requires ValidTable(t, now, p) && p.capacity >= 0.0 && p.refill >= 0.0
    requires events != [] && Timed(events, now) && SweepsHarmless(t, events, key, p)
    ensures var e := events[0]; var next := Step(t, e, p);
            && SweepsHarmless(next, events[1..], key, p)
            && Level(next, key, e.at, p) == Level(t, key, e.at, p)
                 - (if e.Call? && e.key == key && Check(t, key, e.at, p).1.Allow? then 1.0 else 0.0)
  {
    var e := events[0];
    assert e in events && forall f | f in events[1..] :: f in events;
    if p.capacity <= p.refill * IDLE_EVICT_SECS as real || e.Call? {
      StepCost(t, e, key, now, p);
    }
    if key in t && e.at < t[key].last + IDLE_EVICT_SECS as real {
      KeptBySweep(t, e, key, now, p);
    }
  }

  lemma KeptBySweep(t: Table, e: Event, key: string, now: real, p: Params)
    requires ValidTable(t, now, p) && now <= e.at
    requires key in t && e.at < t[key].last + IDLE_EVICT_SECS as real
    ensures key in Step(t, e, p) && Step(t, e, p)[key].last >= t[key].last
    ensures e.SweepAt? ==> Step(t, e, p)[key] == t[key]
  {}

  /** The level between events: what was there plus what drips in, up to the capacity. */
  lemma LevelAdvances(t: Table, key: string, now: real, later: real, p: Params)
    requires ValidTable(t, now, p) && now <= later && p.refill >= 0.0
    ensures Level(t, key, later, p) == Min(Level(t, key, now, p) + Gain(p.refill, now, later), p.capacity)
  {
    GainGrows(p.refill, now, later);
    if key in t {
      GainAdds(p.refill, t[key].last, now, later);
    }
  }

  lemma DeniedIffLow(t: Table, key: string, now: real, p: Params)
    ensures Check(t, key, now, p).1.Deny? <==> Level(t, key, now, p) < 1.0
  {}

  /** Denied calls, other keys' calls and harmless sweeps leave the key's later level as
      if they had not happened. */
  lemma {:induction false} DeniedPollsAreFree(t: Table, events: seq<Event>, key: string, now: real, later: real,
                                              p: Params)
    requires ValidTable(t, now, p) && Timed(events, now) && now <= later && Until(events, later)
    requires p.capacity >= 0.0 && p.refill >= 0.0 && SweepsHarmless(t, events, key, p)
    requires Denied(t, events, key, p)
    ensures Level(After(t, events, p), key, later, p) == Level(t, key, later, p)
    decreases |events|
  {
    if events != [] {
      var e := events[0];
      var next := Step(t, e, p);
      assert e in events && forall f | f in events[1..] :: f in events;
      StepKeepsTable(t, e, now, p);
      HarmlessStep(t, events, key, now, p);
      ValidLater(t, now, e.at, p);
      LevelAdvances(t, key, e.at, later, p);
      LevelAdvances(next, key, e.at, later, p);
      DeniedPollsAreFree(next, events[1..], key, e.at, later, p);
    }
  }

  /** As long as the level cannot reach one token, every call for the key is denied. */
  lemma {:induction false} LowLevelDenies(t: Table, events: seq<Event>, key: string, now: real, end: real, p: Params)
    requires ValidTable(t, now, p) && Timed(events, now) && Until(events, end)
    requires p.capacity >= 0.0 && p.refill >= 0.0 && SweepsHarmless(t, events, key, p)
    requires Level(t, key, now, p) + Gain(p.refill, now, end) < 1.0
    ensures Denied(t, events, key, p)
    decreases |events|
  {
    if events != [] {
      var e := events[0];
      assert e in events && forall f | f in events[1..] :: f in events;
      StepKeepsTable(t, e, now, p);
      LevelGrowsSlowly(t, key, now, e.at, p);
      GainAdds(p.refill, now, e.at, end);
      GainGrows(p.refill, e.at, end);
      DeniedIffLow(t, key, e.at, p);
      HarmlessStep(t, events, key, now, p);
      LowLevelDenies(Step(t, e, p), events[1..], key, e.at, end, p);
    }
  }

  lemma Scale(k: real, a: real, b: real)
    requires k > 0.0 && a < b
    ensures k * a < k * b
  {
    GainGrows(k, a, b);
    assert k * (b - a) > 0.0;
  }

  lemma SameProduct(k: real, x: real, y: real)
    requires x == y
    ensures k * x == k * y
  {}

  lemma ScaledBounds(deficit: real, rate: real, x: real, r: int)
    requires rate > 0.0 && x * rate == deficit && r as real - 1.0 < x <= r as real
    ensures rate * (r as real - 1.0) < deficit <= rate * r as real
  {
    Scale(rate, r as real - 1.0, x);
    if x < r as real { Scale(rate, x, r as real); }
  }

  lemma TooManySeconds(deficit: real, rate: real, x: real, most: real)
    requires rate > 0.0 && x * rate == deficit && x > most
    ensures rate * (most - 1.0) < deficit && rate * most < deficit
  {
    Scale(rate, most, x);
    Scale(rate, most - 1.0, x);
  }

  /** The whole seconds a deficit takes, if they fit in 64 bits, and otherwise too few. */
  lemma SecondsAreExact(deficit: real, rate: real)
    requires rate > 0.0 && 0.0 < deficit
    ensures var r := WholeSeconds(deficit, rate);
            1 <= r && rate * (r as real - 1.0) < deficit
            && (deficit <= rate * r as real <==> deficit <= rate * U64_MAX as real)
  {
    var x := deficit / rate;
    Quotient(deficit, rate);
    if x > U64_MAX as real {
      assert WholeSeconds(deficit, rate) == U64_MAX;
      TooManySeconds(deficit, rate, x, U64_MAX as real);
    } else {
      ScaledBounds(deficit, rate, x, Ceil(x));
      if x < U64_MAX as real { Scale(rate, x, U64_MAX as real); }
    }
  }

  /** The hint is the least whole number of seconds whose refill covers the deficit, as
      long as that number fits in 64 bits. */
  lemma HintIsTheDeficit(t: Table, key: string, now: real, p: Params)
    requires p.refill >= 0.0 && Check(t, key, now, p).1.Deny?
    ensures var deficit, r := 1.0 - Level(t, key, now, p), Check(t, key, now, p).1.retryAfterSecs;
            && 1 <= r && p.refill * (r as real - 1.0) < deficit
            && (deficit <= p.refill * r as real <==> deficit <= p.refill * U64_MAX as real)
            && (deficit > p.refill * U64_MAX as real ==> r == 0xFFFF_FFFF_FFFF_FFFF)
  {
    if p.refill > 0.0 {
      SecondsAreExact(1.0 - Level(t, key, now, p), p.refill);
    }
  }

  lemma GainOver(rate: real, now: real, wait: real)
    ensures Gain(rate, now, now + wait) == rate * wait
  {
    SameProduct(rate, now + wait - now, wait);
  }

  /** After a denial the level is still what it was. */
  lemma DenialKeepsLevel(t: Table, key: string, now: real, p: Params)
    requires ValidTable(t, now, p) && p.capacity >= 0.0 && p.refill >= 0.0 && Check(t, key, now, p).1.Deny?
    ensures ValidTable(Check(t, key, now, p).0, now, p)
    ensures Level(Check(t, key, now, p).0, key, now, p) == Level(t, key, now, p)
  {
    StepKeepsTable(t, Call(key, now), now, p);
    StepCost(t, Call(key, now), key, now, p);
  }

  /** The time a hint points to. */
  function HintedTime(d: Decision, now: real): real
    requires d.Deny?
  {
    now + d.retryAfterSecs as real
  }

  /** A second before the hinted time the level is still short of a token. */
  lemma HintNotYet(t: Table, key: string, now: real, p: Params)
    requires p.refill > 0.0 && Check(t, key, now, p).1.Deny?
    ensures var end := HintedTime(Check(t, key, now, p).1, now) - 1.0;
            now <= end && Level(t, key, now, p) + Gain(p.refill, now, end) < 1.0
  {
    HintIsTheDeficit(t, key, now, p);
    GainOver(p.refill, now, Check(t, key, now, p).1.retryAfterSecs as real - 1.0);
  }

  /** Retrying no later than a second before the hint never succeeds, whatever else the
      limiter does meanwhile. */
  lemma DeniedBeforeHint(t: Table, key: string, now: real, between: seq<Event>, end: real, p: Params)
    requires ValidTable(t, now, p) && p.capacity >= 1.0 && p.refill > 0.0 && Check(t, key, now, p).1.Deny?
    requires end == HintedTime(Check(t, key, now, p).1, now) - 1.0
    requires Timed(between, now) && Until(between, end)
    requires SweepsHarmless(Check(t, key, now, p).0, between, key, p)
    ensures Denied(Check(t, key, now, p).0, between, key, p)
  {
    HintNotYet(t, key, now, p);
    DenialKeepsLevel(t, key, now, p);
    LowLevelDenies(Check(t, key, now, p).0, between, key, now, end, p);
  }

  /** What the key finds later on, its retries meanwhile all denied. */
  lemma LevelAfterDenials(t: Table, key: string, now: real, between: seq<Event>, later: real, p: Params)
    requires ValidTable(t, now, p) && p.capacity >= 0.0 && p.refill >= 0.0
    requires now <= later && Timed(between, now) && SweepsHarmless(t, between, key, p) && Until(between, later)
    requires Denied(t, between, key, p)
    ensures Level(After(t, between, p), key, later, p)
         == Min(Level(t, key, now, p) + Gain(p.refill, now, later), p.capacity)
  {
    DeniedPollsAreFree(t, between, key, now, later, p);
    LevelAdvances(t, key, now, later, p);
  }

  lemma AllowedIffCovered(t: Table, key: string, now: real, between: seq<Event>, later: real, p: Params)
    requires ValidTable(t, now, p) && p.capacity >= 1.0 && p.refill >= 0.0
    requires now <= later && Timed(between, now) && SweepsHarmless(t, between, key, p) && Until(between, later)
    requires Denied(t, between, key, p)
    ensures Check(After(t, between, p), key, later, p).1.Allow?
       <==> 1.0 - Level(t, key, now, p) <= Gain(p.refill, now, later)
  {
    LevelAfterDenials(t, key, now, between, later, p);
    DeniedIffLow(After(t, between, p), key, later, p);
  }

  lemma HintCovers(t: Table, key: string, now: real, p: Params)
    requires p.refill > 0.0 && Check(t, key, now, p).1.Deny?
    ensures var deficit, later := 1.0 - Level(t, key, now, p), HintedTime(Check(t, key, now, p).1, now);
            && now <= later
            && (deficit <= Gain(p.refill, now, later) <==> deficit <= p.refill * U64_MAX as real)
  {
    HintIsTheDeficit(t, key, now, p);
    GainOver(p.refill, now, Check(t, key, now, p).1.retryAfterSecs as real);
  }

  /** Retrying exactly at the hint succeeds, when the deficit's seconds fit in 64 bits. */
  lemma AllowedAtHint(t: Table, key: string, now: real, between: seq<Event>, later: real, p: Params)
    requires ValidTable(t, now, p) && p.capacity >= 1.0 && p.refill > 0.0 && Check(t, key, now, p).1.Deny?
    requires later == HintedTime(Check(t, key, now, p).1, now)
    requires Timed(between, now) && Until(between, later)
    requires SweepsHarmless(Check(t, key, now, p).0, between, key, p)
    requires Denied(Check(t, key, now, p).0, between, key, p)
    ensures Check(After(Check(t, key, now, p).0, between, p), key, later, p).1.Allow?
       <==> 1.0 - Level(t, key, now, p) <= p.refill * U64_MAX as real
  {
    HintCovers(t, key, now, p);
    DenialKeepsLevel(t, key, now, p);
    AllowedIffCovered(Check(t, key, now, p).0, key, now, between, later, p);
  }

  /** Sweeps at most raise a key's level: denied calls, other keys' calls and any sweeps
      leave the later level no lower than if they had not happened. */
  lemma {:induction false} SweepsOnlyRaise(t: Table, events: seq<Event>, key: string, now: real, later: real, p: Params)
    requires ValidTable(t, now, p) && Timed(events, now) && now <= later && Until(events, later)
    requires p.capacity >= 0.0 && p.refill >= 0.0 && Denied(t, events, key, p)
    ensures Level(After(t, events, p), key, later, p) >= Level(t, key, later, p)
    decreases |events|
  {
    if events != [] {
      var e := events[0];
      var next := Step(t, e, p);
      assert e in events && forall f | f in events[1..] :: f in events;
      StepKeepsTable(t, e, now, p);
      LevelGrowsSlowly(t, key, now, e.at, p);
      ValidLater(t, now, e.at, p);
      if e.Call? {
        StepCost(t, e, key, now, p);
      } else {
        SweepRaises(t, key, e.at, p);
      }
      LevelAdvances(t, key, e.at, later, p);
      LevelAdvances(next, key, e.at, later, p);
      SweepsOnlyRaise(next, events[1..], key, e.at, later, p);
    }
  }

  lemma SweepRaises(t: Table, key: string, at: real, p: Params)
    ensures Level(Swept(t, at), key, at, p) >= Level(t, key, at, p)
  {}

  /** Retrying at the hint succeeds whatever was swept, when the wait fits in 64 bits. */
  lemma SweptOrNotAllowedAtHint(t: Table, key: string, now: real, between: seq<Event>, later: real, p: Params)
    requires ValidTable(t, now, p) && p.capacity >= 1.0 && p.refill > 0.0 && Check(t, key, now, p).1.Deny?
    requires later == HintedTime(Check(t, key, now, p).1, now) && Timed(between, now) && Until(between, later)
    requires Denied(Check(t, key, now, p).0, between, key, p)
    requires 1.0 - Level(t, key, now, p) <= p.refill * U64_MAX as real
    ensures Check(After(Check(t, key, now, p).0, between, p), key, later, p).1.Allow?
  {
    var t1 := Check(t, key, now, p).0;
    HintCovers(t, key, now, p);
    DenialKeepsLevel(t, key, now, p);
    LevelReaches(t1, key, now, later, p);
    SweepsOnlyRaise(t1, between, key, now, later, p);
    DeniedIffLow(After(t1, between, p), key, later, p);
  }

  lemma LevelReaches(t: Table, key: string, now: real, later: real, p: Params)
    requires ValidTable(t, now, p) && now <= later && p.capacity >= 1.0 && p.refill >= 0.0
    requires 1.0 - Level(t, key, now, p) <= Gain(p.refill, now, later)
    ensures Level(t, key, later, p) >= 1.0
  {
    LevelAdvances(t, key, now, later, p);
  }

  /** No sweep reaches the denied key's bucket a second or more before a hint of at most
      600 seconds. */
  lemma ShortHintIsHarmless(t: Table, key: string, now: real, between: seq<Event>, p: Params)
    requires Check(t, key, now, p).1.Deny? && Check(t, key, now, p).1.retryAfterSecs <= IDLE_EVICT_SECS
    requires Until(between, HintedTime(Check(t, key, now, p).1, now) - 1.0)
    ensures SweepsHarmless(Check(t, key, now, p).0, between, key, p)
  {
    var t1 := Check(t, key, now, p).0;
    assert key in t1 && t1[key].last == now;
    forall e | e in between ensures e.at < now + IDLE_EVICT_SECS as real {}
  }

  /** The hint is the least whole number of seconds worth waiting. Whatever the limiter
      does in between for this key or others, every retry a second or more before a hint
      that sweeps cannot undercut is denied; and if all retries in between were denied, the
      one exactly at the hint is allowed, unless the wait saturated the hint's 64 bits. */
  lemma RetryHintIsExact(t: Table, key: string, now: real, between: seq<Event>, p: Params)
    requires ValidTable(t, now, p) && p.capacity >= 1.0 && p.refill > 0.0 && Check(t, key, now, p).1.Deny?
    requires Timed(between, now)
    ensures var t1, d := Check(t, key, now, p).0, Check(t, key, now, p).1;
            var later, fits := HintedTime(d, now), 1.0 - Level(t, key, now, p) <= p.refill * U64_MAX as real;
            && (Until(between, later - 1.0)
                && (d.retryAfterSecs <= IDLE_EVICT_SECS || SweepsHarmless(t1, between, key, p))
                ==> Denied(t1, between, key, p))
            && (Until(between, later) && Denied(t1, between, key, p) && fits ==>
                  Check(After(t1, between, p), key, later, p).1.Allow?)
            && (Until(between, later) && Denied(t1, between, key, p) && SweepsHarmless(t1, between, key, p) ==>
                  (Check(After(t1, between, p), key, later, p).1.Allow? <==> fits))
  {
    var t1, d := Check(t, key, now, p).0, Check(t, key, now, p).1;
    var later := HintedTime(d, now);
    if Until(between, later - 1.0) {
      if d.retryAfterSecs <= IDLE_EVICT_SECS {
        ShortHintIsHarmless(t, key, now, between, p);
      }
      if SweepsHarmless(t1, between, key, p) {
        DeniedBeforeHint(t, key, now, between, later - 1.0, p);
      }
    }
    if Until(between, later) && Denied(t1, between, key, p) {
      if 1.0 - Level(t, key, now, p) <= p.refill * U64_MAX as real {
        SweptOrNotAllowedAtHint(t, key, now, between, later, p);
      }
      if SweepsHarmless(t1, between, key, p) {
        AllowedAtHint(t, key, now, between, later, p);
      }
    }
  }

  /** No retry gets through early, whatever is swept, exactly when the hint is at most the
      idle limit: beyond it the bucket can be swept and starts out full again. */
  lemma NoEarlyRetryIff(t: Table, key: string, now: real, p: Params)
    requires ValidTable(t, now, p) && p.capacity >= 1.0 && p.refill > 0.0 && Check(t, key, now, p).1.Deny?
    ensures (forall between | Timed(between, now) && Until(between, HintedTime(Check(t, key, now, p).1, now) - 1.0) ::
               Denied(Check(t, key, now, p).0, between, key, p))
       <==> Check(t, key, now, p).1.retryAfterSecs <= IDLE_EVICT_SECS
  {
    var t1, d := Check(t, key, now, p).0, Check(t, key, now, p).1;
    if d.retryAfterSecs <= IDLE_EVICT_SECS {
      forall between | Timed(between, now) && Until(between, HintedTime(d, now) - 1.0)
        ensures Denied(t1, between, key, p)
      {
        RetryHintIsExact(t, key, now, between, p);
      }
    } else {
      var at := now + IDLE_EVICT_SECS as real;
      var between := [SweepAt(at), Call(key, at)];
      SweptKeyGetsIn(t1, key, now, at, p);
      assert Timed(between, now) && Until(between, HintedTime(d, now) - 1.0);
    }
  }

  lemma SweptKeyGetsIn(t: Table, key: string, now: real, at: real, p: Params)
    requires p.capacity >= 1.0 && key in t && t[key].last == now && at == now + IDLE_EVICT_SECS as real
    ensures Timed([SweepAt(at), Call(key, at)], now) && !Denied(t, [SweepAt(at), Call(key, at)], key, p)
  {
    assert [SweepAt(at), Call(key, at)][1..] == [Call(key, at)] && [Call(key, at)][1..] == [];
    assert key !in Swept(t, at);
    assert Check(Swept(t, at), key, at, p).1.Allow?;
  }

  /** When a bucket refills before it is idle, as the program's limiters do, every sweep is
      harmless and no wait saturates, and the hint is exact without proviso. */
  lemma ProgramHintIsExact(t: Table, key: string, now: real, between: seq<Event>, p: Params)
    requires 1.0 <= p.capacity <= p.refill * IDLE_EVICT_SECS as real
    requires ValidTable(t, now, p) && Check(t, key, now, p).1.Deny?
    requires Timed(between, now)
    ensures var t1, later := Check(t, key, now, p).0, HintedTime(Check(t, key, now, p).1, now);
            && (Until(between, later - 1.0) ==> Denied(t1, between, key, p))
            && (Until(between, later) && Denied(t1, between, key, p) ==>
                  Check(After(t1, between, p), key, later, p).1.Allow?)
  {
    RefillIsBig(p.refill);
    LevelIsNonNegative(t, key, now, p);
    RetryHintIsExact(t, key, now, between, p);
  }

  lemma RefillIsBig(refill: real)
    requires 1.0 <= refill * IDLE_EVICT_SECS as real
    ensures refill > 0.0 && 1.0 <= refill * U64_MAX as real
  {
    if refill <= 0.0 {
      GainGrows(IDLE_EVICT_SECS as real, refill, 0.0);
      assert false;
    }
    Scale(refill, IDLE_EVICT_SECS as real, U64_MAX as real);
  }

  /** Both limiters of the program are of that kind. */
  lemma ProgramSettings()
    ensures forall p | p in {Params(CAPACITY, REFILL_PER_SEC), Params(CAPACITY, META_REFILL_PER_SEC)} ::
              1.0 <= p.capacity <= p.refill * IDLE_EVICT_SECS as real
  {}
}
