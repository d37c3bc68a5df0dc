/**
 * The keyed token bucket. The clock is a parameter of every call and may step back; times are real seconds and the
 * tokens are reals. `Next` is what one call may do to the bucket map, capacity eviction included; the theorems are
 * about whole runs of calls by any number of keys.
 */
module TokenBucket {
  type Key = string

  datatype Bucket = Bucket(tokens: real, last: real, rpm: int)

  /** `retryAfter` is in whole seconds. */
  datatype Verdict = Verdict(ok: bool, retryAfter: int)

  datatype Call = Call(key: Key, rpm: int, now: real)

  /** Neither limit applies when it is not positive. */
  datatype Limits = Limits(maxIdle: real, maxBuckets: int)

  type Buckets = map<Key, Bucket>

  function Rate(rpm: int): real {
    rpm as real / 60.0
  }

  /** What a bucket regains in `seconds`. */
  function Gain(rpm: int, seconds: real): real {
    seconds * Rate(rpm)
  }

  function Ceil(x: real): int {
    -((-x).Floor)
  }

  function RetryAfter(b: Bucket): int {
    if b.tokens >= 1.0 || b.rpm <= 0 then 0
    else
      var wait := Ceil((1.0 - b.tokens) / Rate(b.rpm));
      if wait < 1 then 1 else wait
  }

  function Refill(b: Bucket, now: real): Bucket {
    if now <= b.last then b
    else
      var tokens := b.tokens + Gain(b.rpm, now - b.last);
      Bucket(if tokens > b.rpm as real then b.rpm as real else tokens, now, b.rpm)
  }

  /** The bucket a call finds: its own, refilled, or a full one when it has none for this rate. */
  function Found(m: Buckets, c: Call): Bucket {
    if c.key in m && m[c.key].rpm == c.rpm then Refill(m[c.key], c.now) else Bucket(c.rpm as real, c.now, c.rpm)
  }

  function Spend(b: Bucket): Bucket {
    if b.tokens < 1.0 then b else b.(tokens := b.tokens - 1.0)
  }

  function Judge(b: Bucket): Verdict {
    if b.tokens < 1.0 then Verdict(false, RetryAfter(b)) else Verdict(true, 0)
  }

  // ---- Eviction ----

  predicate Idle(b: Bucket, now: real, limits: Limits) {
    limits.maxIdle > 0.0 && now - b.last > limits.maxIdle
  }

  function Live(m: Buckets, now: real, limits: Limits): Buckets {
    map k | k in m && !Idle(m[k], now, limits) :: m[k]
  }

  /** `e` is `m` without some buckets, none of them newer than one that is left. */
  ghost predicate OldestFirst(m: Buckets, e: Buckets) {
    && (forall k :: k in e ==> k in m && e[k] == m[k])
    && (forall k, j :: k in m && k !in e && j in e ==> m[k].last <= e[j].last)
  }

  /** Nothing goes while there is room; at the cap the oldest go until one place is free. */
  ghost predicate OldestGone(m: Buckets, e: Buckets, maxBuckets: int) {
    if maxBuckets <= 0 || |m| < maxBuckets then e == m else |e| == maxBuckets - 1 && OldestFirst(m, e)
  }

  lemma DropOldest(m: Buckets, e: Buckets, oldestKey: Key)
    requires OldestFirst(m, e) && oldestKey in e && forall k :: k in e ==> e[oldestKey].last <= e[k].last
    ensures OldestFirst(m, e - {oldestKey}) && |e - {oldestKey}| == |e| - 1
  {
    assert (e - {oldestKey}).Keys == e.Keys - {oldestKey};
  }

  ghost predicate Evicted(m: Buckets, e: Buckets, now: real, limits: Limits) {
    OldestGone(Live(m, now, limits), e, limits.maxBuckets)
  }

  /** One call: from `m` to `n` with verdict `v`. Only a call that has no bucket evicts. */
  ghost predicate Next(m: Buckets, c: Call, n: Buckets, v: Verdict, limits: Limits) {
    if c.rpm <= 0 then n == m && v == Verdict(true, 0)
    else
      && v == Judge(Found(m, c))
      && c.key in n && n[c.key] == Spend(Found(m, c))
      && (if c.key in m then n - {c.key} == m - {c.key} else Evicted(m, n - {c.key}, c.now, limits))
  }

  class Limiter {
    var buckets: Buckets
    const limits: Limits

    constructor (limits: Limits)
      ensures buckets == map[] && this.limits == limits
    {
      this.buckets := map[];
      this.limits := limits;
    }

    method EvictIdle(now: real)
      modifies this
      ensures buckets == Live(old(buckets), now, limits)
    {
      if limits.maxIdle <= 0.0 { return; }
      var left := buckets.Keys;
      while left != {}
        invariant left <= old(buckets).Keys
        invariant buckets == map k | k in old(buckets) && (k in left || !Idle(old(buckets)[k], now, limits)) :: old(buckets)[k]
        decreases |left|
      {
        var k :| k in left;
        left := left - {k};
        if now - buckets[k].last > limits.maxIdle {
          buckets := buckets - {k};
        }
      }
    }

    method Oldest() returns (oldestKey: Key)
      requires buckets != map[]
      ensures oldestKey in buckets && forall k :: k in buckets ==> buckets[oldestKey].last <= buckets[k].last
    {
      var left := buckets.Keys;
      var first, oldest := true, 0.0;
      oldestKey := "";
      while left != {}
        invariant left <= buckets.Keys && (first ==> left == buckets.Keys)
        invariant !first ==> oldestKey in buckets && oldest == buckets[oldestKey].last
        invariant !first ==> forall k :: k in buckets && k !in left ==> oldest <= buckets[k].last
        decreases |left|
      {
        var k :| k in left;
        left := left - {k};
        if first || buckets[k].last < oldest {
          oldestKey, oldest, first := k, buckets[k].last, false;
        }
      }
    }

    method MakeRoom()
      modifies this
      ensures OldestGone(old(buckets), buckets, limits.maxBuckets)
    {
      while limits.maxBuckets > 0 && |buckets| >= limits.maxBuckets
        invariant OldestFirst(old(buckets), buckets)
        invariant buckets == old(buckets) || (limits.maxBuckets > 0 && |old(buckets)| >= limits.maxBuckets && |buckets| >= limits.maxBuckets - 1)
        decreases |buckets|
      {
        var oldestKey := Oldest();
        ghost var before := buckets;
        buckets := buckets - {oldestKey};
        DropOldest(old(buckets), before, oldestKey);
      }
    }

    method EvictLocked(now: real)
      modifies this
      ensures Evicted(old(buckets), buckets, now, limits)
    {
      EvictIdle(now);
      MakeRoom();
    }

    method Consume(key: Key, rpm: int, now: real) returns (v: Verdict)
      modifies this
      ensures Next(old(buckets), Call(key, rpm, now), buckets, v, limits)
    {
      hide Evicted, Live, RetryAfter;
      if rpm <= 0 { return Verdict(true, 0); }
      var b;
      if key !in buckets || buckets[key].rpm != rpm {
        if key !in buckets {
          EvictLocked(now);
        }
        b := Bucket(rpm as real, now, rpm);
      } else {
        b := buckets[key];
        var elapsed := now - b.last;
        if elapsed > 0.0 {
          b := b.(tokens := b.tokens + Gain(rpm, elapsed));
          if b.tokens > rpm as real {
            b := b.(tokens := rpm as real);
          }
          b := b.(last := now);
        }
      }
      assert b == Found(old(buckets), Call(key, rpm, now));
      hide Found;
      ghost var kept := buckets;
      if b.tokens < 1.0 {
        buckets := buckets[key := b];
        v := Verdict(false, RetryAfter(b));
      } else {
        buckets := buckets[key := b.(tokens := b.tokens - 1.0)];
        v := Verdict(true, 0);
      }
      assert buckets - {key} == kept - {key};
      assert key !in old(buckets) ==> kept - {key} == kept by {
        if key !in old(buckets) { EvictedStays(old(buckets), kept, now, limits, key); }
      }
    }
  }

  lemma EvictedStays(m: Buckets, e: Buckets, now: real, limits: Limits, key: Key)
    requires Evicted(m, e, now, limits) && key !in m
    ensures key !in e
  {
  }

  /** A key without a limit is never refused and never counted. */
  lemma UnlimitedKeys(m: Buckets, c: Call, n: Buckets, v: Verdict, limits: Limits)
    requires Next(m, c, n, v, limits) && c.rpm <= 0
    ensures v == Verdict(true, 0) && n == m
  {
  }

  /** With no cap, a new key's call leaves of the other keys exactly those whose last call is at most `maxIdle` ago. */
  lemma OnlyTheIdleGoExactly(m: Buckets, c: Call, n: Buckets, v: Verdict, limits: Limits, k: Key)
    requires Next(m, c, n, v, limits) && c.rpm > 0 && c.key !in m && k != c.key && limits.maxBuckets <= 0
    ensures k in n <==> k in m && (limits.maxIdle <= 0.0 || c.now - m[k].last <= limits.maxIdle)
    ensures k in n ==> n[k] == m[k]
  {
    hide Found, Spend, Judge;
    assert k in n <==> k in n - {c.key};
    assert k in n ==> (n - {c.key})[k] == n[k];
  }

  // ---- Runs ----

  /** A run: `ms` are the bucket maps between the calls, `vs` the verdicts. */
  ghost predicate IsRun(ms: seq<Buckets>, calls: seq<Call>, vs: seq<Verdict>, limits: Limits) {
    && |ms| == |calls| + 1 && |vs| == |calls| && ms[0] == map[]
    && forall i :: 0 <= i < |calls| ==> Next(ms[i], calls[i], ms[i + 1], vs[i], limits)
  }

  ghost predicate ClockNeverSteps(calls: seq<Call>) {
    forall i, j :: 0 <= i <= j < |calls| ==> calls[i].now <= calls[j].now
  }

  /** In every run, whatever the clock does, the map stays within the cap. */
  lemma {:induction false} MapStaysWithinCap(ms: seq<Buckets>, calls: seq<Call>, vs: seq<Verdict>, limits: Limits, i: nat)
    requires IsRun(ms, calls, vs, limits) && limits.maxBuckets > 0 && i < |ms|
    ensures |ms[i]| <= limits.maxBuckets
  {
    if i > 0 {
      MapStaysWithinCap(ms, calls, vs, limits, i - 1);
      hide Next;
      NextStaysWithinCap(ms[i - 1], calls[i - 1], ms[i], vs[i - 1], limits);
    }
  }

  lemma NextStaysWithinCap(m: Buckets, c: Call, n: Buckets, v: Verdict, limits: Limits)
    requires Next(m, c, n, v, limits) && limits.maxBuckets > 0 && |m| <= limits.maxBuckets
    ensures |n| <= limits.maxBuckets
  {
    hide Found, Spend, Judge, Live;
    if c.rpm > 0 {
      var n' := n - {c.key};
      assert n.Keys == n'.Keys + {c.key};
      if c.key in m {
        assert m.Keys == (m - {c.key}).Keys + {c.key};
      }
    }
  }

  // ---- Idle eviction is invisible ----

  /** The limiter that never forgets a key. */
  function Keep(m: Buckets, c: Call): Buckets {
    if c.rpm <= 0 then m else m[c.key := Spend(Found(m, c))]
  }

  function Kept(calls: seq<Call>): Buckets {
    if calls == [] then map[] else Keep(Kept(calls[..|calls| - 1]), calls[|calls| - 1])
  }

  function KeptVerdict(calls: seq<Call>, i: nat): Verdict
    requires i < |calls|
  {
    if calls[i].rpm <= 0 then Verdict(true, 0) else Judge(Found(Kept(calls[..i]), calls[i]))
  }

  /** No bucket is in debt, and none has been refilled by a later clock than `now`. */
  ghost predicate Sane(m: Buckets, now: real) {
    forall k :: k in m ==> m[k].tokens >= 0.0 && m[k].rpm > 0 && m[k].last <= now
  }

  /** What the forgetful limiter lacks is at least a minute old. */
  ghost predicate Forgot(m: Buckets, kept: Buckets, now: real) {
    && (forall k :: k in m ==> k in kept && m[k] == kept[k])
    && (forall k :: k in kept && k !in m ==> now - kept[k].last > 60.0)
  }

  lemma GainInAMinute(rpm: int)
    ensures Gain(rpm, 60.0) == rpm as real && Gain(rpm, 0.0) == 0.0
  {
  }

  lemma GainGrows(rpm: int, a: real, b: real)
    requires rpm > 0
    ensures a < b ==> Gain(rpm, a) < Gain(rpm, b)
  {
    var rate := Rate(rpm);
    assert rate > 0.0;
    hide Rate;
    Scale(a, b, rate);
  }

  lemma Scale(a: real, b: real, rate: real)
    requires rate > 0.0
    ensures a < b ==> a * rate < b * rate
  {
  }

  lemma GainAdds(rpm: int, a: real, b: real)
    ensures Gain(rpm, a) + Gain(rpm, b) == Gain(rpm, a + b)
  {
    hide Rate;
  }

  lemma GainOf(rpm: int, tokens: real)
    requires rpm > 0
    ensures Rate(rpm) > 0.0 && Gain(rpm, tokens / Rate(rpm)) == tokens
  {
  }

  /** After a minute any bucket is full again, so forgetting it changes nothing. */
  lemma FullAfterAMinute(b: Bucket, now: real)
    requires b.tokens >= 0.0 && b.rpm > 0 && now - b.last > 60.0
    ensures Refill(b, now) == Bucket(b.rpm as real, now, b.rpm)
  {
    hide Gain;
    GainInAMinute(b.rpm);
    GainGrows(b.rpm, 60.0, now - b.last);
  }

  lemma RefillAdds(b: Bucket, now: real)
    requires b.rpm > 0 && b.tokens >= 0.0
    ensures Refill(b, now).tokens >= 0.0
  {
    hide Gain;
    GainInAMinute(b.rpm);
    GainGrows(b.rpm, 0.0, now - b.last);
  }

  lemma SpendStaysSane(m: Buckets, c: Call, now: real)
    requires Sane(m, now) && c.rpm > 0 && now <= c.now
    ensures Spend(Found(m, c)).tokens >= 0.0 && Spend(Found(m, c)).rpm > 0 && Spend(Found(m, c)).last == c.now
  {
    if c.key in m && c.now > m[c.key].last {
      RefillAdds(m[c.key], c.now);
    }
  }

  lemma FoundTheSame(m: Buckets, kept: Buckets, c: Call, now: real)
    requires Forgot(m, kept, now) && Sane(kept, now) && now <= c.now && c.rpm > 0
    ensures Found(m, c) == Found(kept, c)
  {
    if c.key in kept && c.key !in m {
      FullAfterAMinute(kept[c.key], c.now);
    }
  }

  /** The cap is never what evicts: at each call that adds a key, the live buckets leave room. */
  ghost predicate CapNeverReached(ms: seq<Buckets>, calls: seq<Call>, limits: Limits)
    requires |ms| == |calls| + 1
  {
    limits.maxBuckets <= 0 ||
    forall i :: 0 <= i < |calls| && calls[i].rpm > 0 && calls[i].key !in ms[i] ==>
      |Live(ms[i], calls[i].now, limits)| < limits.maxBuckets
  }

  lemma ForgetStep(m: Buckets, kept: Buckets, c: Call, n: Buckets, v: Verdict, limits: Limits, now: real)
    requires Forgot(m, kept, now) && Sane(kept, now) && now <= c.now
    requires Next(m, c, n, v, limits) && (limits.maxIdle <= 0.0 || limits.maxIdle >= 60.0)
    requires c.rpm > 0 && c.key !in m && limits.maxBuckets > 0 ==> |Live(m, c.now, limits)| < limits.maxBuckets
    ensures v == if c.rpm <= 0 then Verdict(true, 0) else Judge(Found(kept, c))
    ensures Forgot(n, Keep(kept, c), c.now) && Sane(Keep(kept, c), c.now)
  {
    if c.rpm > 0 {
      FoundTheSame(m, kept, c, now);
      SpendStaysSane(kept, c, now);
      hide Found, Spend, Judge;
      forall k | k != c.key
        ensures k in n ==> k in m && n[k] == m[k]
        ensures k in m && k !in n ==> c.now - m[k].last > 60.0
      {
        OnlyTheIdleGo(m, c, n, v, limits, k);
        hide *;
      }
      hide Next;
    }
  }

  lemma OnlyTheIdleGo(m: Buckets, c: Call, n: Buckets, v: Verdict, limits: Limits, k: Key)
    requires Next(m, c, n, v, limits) && c.rpm > 0 && k != c.key && (limits.maxIdle <= 0.0 || limits.maxIdle >= 60.0)
    requires c.key !in m && limits.maxBuckets > 0 ==> |Live(m, c.now, limits)| < limits.maxBuckets
    ensures k in n ==> k in m && n[k] == m[k]
    ensures k in m && k !in n ==> c.now - m[k].last > 60.0
  {
    hide Found, Spend, Judge;
    var n', m' := n - {c.key}, m - {c.key};
    assert k in n ==> k in n' && n'[k] == n[k];
    assert k in m ==> k in m' && m'[k] == m[k];
    assert k !in n ==> k !in n';
  }

  lemma {:induction false} ForgetRun(ms: seq<Buckets>, calls: seq<Call>, vs: seq<Verdict>, limits: Limits, i: nat)
    requires IsRun(ms, calls, vs, limits) && ClockNeverSteps(calls) && CapNeverReached(ms, calls, limits)
    requires limits.maxIdle <= 0.0 || limits.maxIdle >= 60.0
    requires i < |calls|
    ensures Forgot(ms[i], Kept(calls[..i]), calls[i].now) && Sane(Kept(calls[..i]), calls[i].now)
  {
    if i > 0 {
      ForgetRun(ms, calls, vs, limits, i - 1);
      hide Next, Forgot, Sane, Keep, Live;
      assert Next(ms[i - 1], calls[i - 1], ms[i], vs[i - 1], limits);
      ForgetStep(ms[i - 1], Kept(calls[..i - 1]), calls[i - 1], ms[i], vs[i - 1], limits, calls[i - 1].now);
      assert calls[..i][..i - 1] == calls[..i - 1];
    }
  }

  /**
   * Idle eviction is invisible: while the cap is never reached and the clock does not step back, every call gets the
   * verdict and the wait it would get from a limiter that never forgets a key.
   */
  lemma IdleEvictionIsInvisible(ms: seq<Buckets>, calls: seq<Call>, vs: seq<Verdict>, limits: Limits, i: nat)
    requires IsRun(ms, calls, vs, limits) && ClockNeverSteps(calls) && CapNeverReached(ms, calls, limits)
    requires limits.maxIdle <= 0.0 || limits.maxIdle >= 60.0
    requires i < |calls|
    ensures vs[i] == KeptVerdict(calls, i)
  {
    ForgetRun(ms, calls, vs, limits, i);
    ForgetStep(ms[i], Kept(calls[..i]), calls[i], ms[i + 1], vs[i], limits, calls[i].now);
  }

  /** A key spends its one token, another key's call comes after the idle limit, and the first key calls again. */
  function EarlyReturn(late: real): seq<Call> {
    [Call("a", 1, 0.0), Call("b", 1, late), Call("a", 1, late)]
  }

  lemma EarlyReturnIsRefused(late: real)
    requires 0.0 < late < 60.0
    ensures !KeptVerdict(EarlyReturn(late), 2).ok
  {
    var calls := EarlyReturn(late);
    var m1: Buckets := map["a" := Bucket(0.0, 0.0, 1)];
    assert calls[..2][..1] == [calls[0]] && [calls[0]][..0] == [];
    assert Kept([]) == map[];
    assert Kept([calls[0]]) == m1;
    assert Kept(calls[..2]) == m1["b" := Bucket(0.0, late, 1)];
  }

  /** A shorter idle limit shows: a spent key that is forgotten early is admitted when it should wait. */
  lemma AMinuteIsNeeded(maxIdle: real, late: real)
    requires 0.0 < maxIdle < late < 60.0
    ensures !KeptVerdict(EarlyReturn(late), 2).ok
    ensures exists ms: seq<Buckets>, vs: seq<Verdict> ::
              IsRun(ms, EarlyReturn(late), vs, Limits(maxIdle, 0)) && vs[2].ok
  {
    EarlyReturnIsRefused(late);
    hide Kept, KeptVerdict;
    var limits := Limits(maxIdle, 0);
    var a, b := Bucket(0.0, 0.0, 1), Bucket(0.0, late, 1);
    var m0: Buckets, m1: Buckets, m2: Buckets := map[], map["a" := a], map["b" := b];
    var m3: Buckets := map["a" := b, "b" := b];
    assert m1 - {"a"} == Live(m0, 0.0, limits);
    assert m2 - {"b"} == Live(m1, late, limits);
    assert m3 - {"a"} == Live(m2, late, limits);
    var calls, yes := EarlyReturn(late), Verdict(true, 0);
    assert Next(m0, calls[0], m1, yes, limits);
    assert Next(m1, calls[1], m2, yes, limits);
    assert Next(m2, calls[2], m3, yes, limits);
    hide Next;
    assert IsRun([m0, m1, m2, m3], calls, [yes, yes, yes], limits);
  }

  /** Capacity eviction shows as well: with room for one bucket the second key drops the first, which is then full again. */
  lemma CapacityEvictionShows(late: real)
    requires 0.0 < late < 60.0
    ensures !KeptVerdict(EarlyReturn(late), 2).ok
    ensures exists ms: seq<Buckets>, vs: seq<Verdict> :: IsRun(ms, EarlyReturn(late), vs, Limits(0.0, 1)) && vs[2].ok
  {
    EarlyReturnIsRefused(late);
    hide Kept, KeptVerdict;
    var limits, calls, yes := Limits(0.0, 1), EarlyReturn(late), Verdict(true, 0);
    var none: Buckets := map[];
    var m1, m2, m3 := OneBucket(calls[0]), OneBucket(calls[1]), OneBucket(calls[2]);
    OneTakesTheRoom(none, calls[0]);
    OneTakesTheRoom(m1, calls[1]);
    OneTakesTheRoom(m2, calls[2]);
    hide Next, OneBucket;
    assert IsRun([none, m1, m2, m3], calls, [yes, yes, yes], limits);
  }

  function OneBucket(c: Call): Buckets {
    map[c.key := Bucket(0.0, c.now, 1)]
  }

  lemma OneTakesTheRoom(m: Buckets, c: Call)
    requires |m| <= 1 && c.key !in m && c.rpm == 1
    ensures Next(m, c, OneBucket(c), Verdict(true, 0), Limits(0.0, 1))
  {
    assert Live(m, c.now, Limits(0.0, 1)) == m;
    hide Live;
    assert OneBucket(c) - {c.key} == map[];
    if |m| == 0 { assert m == map[]; }
  }

  // ---- The bound ----

  /** How many calls of `key` were admitted. */
  function Admissions(calls: seq<Call>, vs: seq<Verdict>, key: Key): nat
    requires |vs| == |calls|
  {
    if calls == [] then 0
    else
      var n := |calls| - 1;
      Admissions(calls[..n], vs[..n], key) + if calls[n].key == key && vs[n].ok then 1 else 0
  }

  /** The latest reading the clock gave to a call of `key`, from `first` on. */
  function Latest(calls: seq<Call>, key: Key, first: real): real {
    if calls == [] then first
    else
      var n := |calls| - 1;
      var before := Latest(calls[..n], key, first);
      if calls[n].key == key && calls[n].now > before then calls[n].now else before
  }

  /** Call `f` gives `key` a new bucket; from then on the key keeps it and calls at `rpm`. What came before is open. */
  ghost predicate Steady(ms: seq<Buckets>, calls: seq<Call>, key: Key, rpm: int, f: nat)
    requires |ms| == |calls| + 1
  {
    && rpm > 0 && f < |calls| && calls[f].key == key && (key in ms[f] ==> ms[f][key].rpm != rpm)
    && (forall i :: f <= i < |calls| && calls[i].key == key ==> calls[i].rpm == rpm)
    && (forall i :: f < i < |ms| ==> key in ms[i])
  }

  /** One served call trades at most the refill for a token. */
  lemma Trade(b: Bucket, now: real, spent: real, first: real)
    requires b.rpm > 0 && spent + b.tokens <= b.rpm as real + Gain(b.rpm, b.last - first)
    ensures spent + Refill(b, now).tokens <= b.rpm as real + Gain(b.rpm, Refill(b, now).last - first)
  {
    hide Gain;
    GainAdds(b.rpm, b.last - first, now - b.last);
    assert b.last - first + (now - b.last) == now - first;
  }

  /** The potential of `key`: tokens spent and left never exceed a full bucket plus the refill since `first`. */
  ghost predicate Within(b: Bucket, rpm: int, admitted: nat, first: real) {
    b.rpm == rpm && b.tokens >= 0.0 && admitted as real + b.tokens <= rpm as real + Gain(rpm, b.last - first)
  }

  lemma {:induction false} Potential(ms: seq<Buckets>, calls: seq<Call>, vs: seq<Verdict>, limits: Limits, key: Key, rpm: int, f: nat, i: nat)
    requires IsRun(ms, calls, vs, limits) && Steady(ms, calls, key, rpm, f) && f < i < |ms|
    ensures ms[i][key].last == Latest(calls[f..i], key, calls[f].now)
    ensures Within(ms[i][key], rpm, Admissions(calls[f..i], vs[f..i], key), calls[f].now)
  {
    hide Within, Found, Next;
    var first, n := calls[f].now, i - 1 - f;
    assert calls[f..i][..n] == calls[f..i - 1] && vs[f..i][..n] == vs[f..i - 1];
    assert calls[f..i][n] == calls[i - 1] && vs[f..i][n] == vs[i - 1];
    assert Next(ms[i - 1], calls[i - 1], ms[i], vs[i - 1], limits);
    if i == f + 1 {
      assert calls[f..f] == [];
      FirstCall(ms[f], calls[f], ms[i], vs[f], limits);
    } else {
      Potential(ms, calls, vs, limits, key, rpm, f, i - 1);
      if calls[i - 1].key == key {
        PotentialStep(ms[i - 1], calls[i - 1], ms[i], vs[i - 1], limits, Admissions(calls[f..i - 1], vs[f..i - 1], key), first);
      } else {
        OthersKeepTheBucket(ms[i - 1], calls[i - 1], ms[i], vs[i - 1], limits, key);
      }
    }
  }

  lemma FirstCall(m: Buckets, c: Call, n: Buckets, v: Verdict, limits: Limits)
    requires Next(m, c, n, v, limits) && c.rpm > 0 && (c.key in m ==> m[c.key].rpm != c.rpm)
    ensures c.key in n && n[c.key].last == c.now && v.ok && Within(n[c.key], c.rpm, 1, c.now)
  {
    hide Evicted;
    GainInAMinute(c.rpm);
    hide Gain;
  }

  lemma PotentialStep(m: Buckets, c: Call, n: Buckets, v: Verdict, limits: Limits, admitted: nat, first: real)
    requires Next(m, c, n, v, limits) && c.rpm > 0 && c.key in m && Within(m[c.key], c.rpm, admitted, first)
    ensures var b := m[c.key];
            && n[c.key].last == (if c.now > b.last then c.now else b.last)
            && Within(n[c.key], c.rpm, admitted + if v.ok then 1 else 0, first)
  {
    hide Evicted;
    Trade(m[c.key], c.now, admitted as real, first);
    RefillAdds(m[c.key], c.now);
    hide Gain;
  }

  lemma OthersKeepTheBucket(m: Buckets, c: Call, n: Buckets, v: Verdict, limits: Limits, key: Key)
    requires Next(m, c, n, v, limits) && c.key != key && key in n
    ensures key in m && n[key] == m[key]
  {
    if c.rpm > 0 {
      assert key in n - {c.key} && (n - {c.key})[key] == n[key];
    }
  }

  /**
   * The token-bucket bound, from any call that gives a key a new bucket and while it keeps it at one rate: never more
   * than a full bucket plus the refill between the first reading and the latest one, even when the clock steps back and
   * whatever the other keys did before and since.
   */
  lemma AdmissionsAreBounded(ms: seq<Buckets>, calls: seq<Call>, vs: seq<Verdict>, limits: Limits, key: Key, rpm: int, f: nat)
    requires IsRun(ms, calls, vs, limits) && Steady(ms, calls, key, rpm, f)
    ensures var span := Latest(calls[f..], key, calls[f].now) - calls[f].now;
            Admissions(calls[f..], vs[f..], key) as real <= rpm as real + Gain(rpm, span)
  {
    hide Next, Gain, Admissions, Latest;
    Potential(ms, calls, vs, limits, key, rpm, f, |calls|);
    assert calls[f..|calls|] == calls[f..] && vs[f..|calls|] == vs[f..];
  }

  // ---- The wait ----

  lemma CeilCovers(x: real)
    ensures Ceil(x) as real >= x && Ceil(x) as real < x + 1.0
  {
  }

  /** After the wait the bucket holds a whole token; a second sooner, when the wait is longer than one, it does not. */
  lemma WaitIsEnoughAndTight(b: Bucket)
    requires b.rpm > 0 && b.tokens < 1.0
    ensures RetryAfter(b) >= 1
    ensures b.tokens + Gain(b.rpm, RetryAfter(b) as real) >= 1.0
    ensures RetryAfter(b) > 1 ==> b.tokens + Gain(b.rpm, (RetryAfter(b) - 1) as real) < 1.0
  {
    GainOf(b.rpm, 1.0 - b.tokens);
    hide Rate, Gain;
    var sec := (1.0 - b.tokens) / Rate(b.rpm);
    CeilCovers(sec);
    hide Ceil;
    GainGrows(b.rpm, sec, RetryAfter(b) as real);
    GainGrows(b.rpm, (RetryAfter(b) - 1) as real, sec);
  }

  /** Nothing in the map can refuse `key` at `rpm` from time `due` on. */
  ghost predicate Promised(m: Buckets, key: Key, rpm: int, due: real) {
    key in m && m[key].rpm == rpm ==> m[key].tokens + Gain(rpm, due - m[key].last) >= 1.0
  }

  lemma RefillKeepsThePromise(m: Buckets, c: Call, due: real)
    requires c.rpm > 0 && Promised(m, c.key, c.rpm, due)
    ensures Judge(Found(m, c)).ok || Found(m, c).tokens + Gain(c.rpm, due - Found(m, c).last) >= 1.0
  {
    if c.key in m && m[c.key].rpm == c.rpm && c.now > m[c.key].last {
      var b := m[c.key];
      hide Gain;
      GainAdds(c.rpm, c.now - b.last, due - c.now);
      assert c.now - b.last + (due - c.now) == due - b.last;
    }
  }

  lemma {:induction false} PromiseRun(ms: seq<Buckets>, calls: seq<Call>, vs: seq<Verdict>, limits: Limits, i: nat, j: nat)
    requires IsRun(ms, calls, vs, limits) && i < j < |ms| && calls[i].rpm > 0 && !vs[i].ok
    requires forall k :: i < k < j && calls[k].key == calls[i].key && calls[k].rpm > 0 ==> !vs[k].ok
    requires ClockNeverSteps(calls)
    ensures Promised(ms[j], calls[i].key, calls[i].rpm, calls[i].now + vs[i].retryAfter as real)
    decreases j
  {
    var key, rpm, due := calls[i].key, calls[i].rpm, calls[i].now + vs[i].retryAfter as real;
    hide Next, Promised, Found;
    assert Next(ms[j - 1], calls[j - 1], ms[j], vs[j - 1], limits);
    if j == i + 1 {
      LastIsNow(ms, calls, vs, limits, i);
      PromiseMade(ms[i], calls[i], ms[j], vs[i], limits);
    } else {
      PromiseRun(ms, calls, vs, limits, i, j - 1);
      PromiseKept(ms[j - 1], calls[j - 1], ms[j], vs[j - 1], limits, key, rpm, due);
    }
  }

  lemma PromiseMade(m: Buckets, c: Call, n: Buckets, v: Verdict, limits: Limits)
    requires Next(m, c, n, v, limits) && c.rpm > 0 && !v.ok && Found(m, c).last == c.now
    ensures Promised(n, c.key, c.rpm, c.now + v.retryAfter as real)
  {
    hide Gain, Evicted;
    WaitIsEnoughAndTight(Found(m, c));
  }

  lemma PromiseKept(m: Buckets, c: Call, n: Buckets, v: Verdict, limits: Limits, key: Key, rpm: int, due: real)
    requires Next(m, c, n, v, limits) && Promised(m, key, rpm, due) && rpm > 0
    requires c.key == key && c.rpm > 0 ==> !v.ok
    ensures Promised(n, key, rpm, due)
  {
    hide Gain, Evicted;
    if c.key != key {
      if key in n { OthersKeepTheBucket(m, c, n, v, limits, key); }
    } else if c.rpm == rpm {
      RefillKeepsThePromise(m, c, due);
      hide Found;
    }
  }

  /** With a clock that does not step back, a call leaves its bucket refilled to its own reading. */
  lemma LastIsNow(ms: seq<Buckets>, calls: seq<Call>, vs: seq<Verdict>, limits: Limits, i: nat)
    requires IsRun(ms, calls, vs, limits) && ClockNeverSteps(calls) && i < |calls| && calls[i].rpm > 0
    ensures Found(ms[i], calls[i]).last == calls[i].now
  {
    LastNotAhead(ms, calls, vs, limits, i, calls[i].key);
  }

  lemma {:induction false} LastNotAhead(ms: seq<Buckets>, calls: seq<Call>, vs: seq<Verdict>, limits: Limits, i: nat, key: Key)
    requires IsRun(ms, calls, vs, limits) && ClockNeverSteps(calls) && i < |calls|
    ensures key in ms[i] ==> ms[i][key].last <= calls[i].now
  {
    if i > 0 && key in ms[i] {
      var c := calls[i - 1];
      LastNotAhead(ms, calls, vs, limits, i - 1, key);
      assert Next(ms[i - 1], c, ms[i], vs[i - 1], limits);
      if c.key != key { OthersKeepTheBucket(ms[i - 1], c, ms[i], vs[i - 1], limits, key); }
    }
  }

  /**
   * Retry soundness: a caller that waits `retryAfter` after a refusal is admitted, whatever the other keys did and
   * whatever was evicted meanwhile, unless an admission of its own key came between.
   */
  lemma RetryIsSound(ms: seq<Buckets>, calls: seq<Call>, vs: seq<Verdict>, limits: Limits, i: nat, j: nat)
    requires IsRun(ms, calls, vs, limits) && ClockNeverSteps(calls) && i < j < |calls|
    requires calls[i].rpm > 0 && !vs[i].ok && calls[j].key == calls[i].key && calls[j].rpm == calls[i].rpm
    requires forall k :: i < k < j && calls[k].key == calls[i].key && calls[k].rpm > 0 ==> !vs[k].ok
    requires calls[j].now >= calls[i].now + vs[i].retryAfter as real
    ensures vs[j].ok
  {
    var due := calls[i].now + vs[i].retryAfter as real;
    PromiseRun(ms, calls, vs, limits, i, j);
    RefillKeepsThePromise(ms[j], calls[j], due);
    LastIsNow(ms, calls, vs, limits, j);
    assert Next(ms[j], calls[j], ms[j + 1], vs[j], limits);
    var b := Found(ms[j], calls[j]);
    GainInAMinute(calls[j].rpm);
    GainGrows(calls[j].rpm, due - b.last, 0.0);
    hide Gain, Found, Next, Promised;
  }
}
