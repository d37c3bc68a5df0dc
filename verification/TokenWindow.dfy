/**
 * What the token bucket admits, said of calls alone: a call is refused exactly when the admissions since some earlier
 * call of its key have used up a full bucket and what has come back since. No bucket appears in the law.
 */
module TokenWindow {
  import opened TokenBucket

  /** From call `w` on, `key` has been admitted so often that call `j` finds less than one token left. */
  ghost predicate Crowded(calls: seq<Call>, vs: seq<Verdict>, key: Key, rpm: int, w: nat, j: nat)
    requires |vs| == |calls| && w <= j < |calls|
  {
    Admissions(calls[w..j], vs[w..j], key) as real > rpm as real - 1.0 + Gain(rpm, calls[j].now - calls[w].now)
  }

  /** What a bucket that was full at call `w` holds at `now`, had it never been full since. */
  function Level(calls: seq<Call>, vs: seq<Verdict>, key: Key, rpm: int, w: nat, i: nat, now: real): real
    requires |vs| == |calls| && w <= i <= |calls| && w < |calls|
  {
    rpm as real + Gain(rpm, now - calls[w].now) - Admissions(calls[w..i], vs[w..i], key) as real
  }

  lemma OneMoreCall(calls: seq<Call>, vs: seq<Verdict>, key: Key, w: nat, i: nat)
    requires |vs| == |calls| && w <= i < |calls|
    ensures Admissions(calls[w..i + 1], vs[w..i + 1], key) ==
            Admissions(calls[w..i], vs[w..i], key) + if calls[i].key == key && vs[i].ok then 1 else 0
  {
    var n := i - w;
    assert calls[w..i + 1][..n] == calls[w..i] && vs[w..i + 1][..n] == vs[w..i];
    assert calls[w..i + 1][n] == calls[i] && vs[w..i + 1][n] == vs[i];
  }

  lemma NoCalls(calls: seq<Call>, vs: seq<Verdict>, key: Key, w: nat)
    requires |vs| == |calls| && w <= |calls|
    ensures Admissions(calls[w..w], vs[w..w], key) == 0
  {
  }

  /** A bucket never holds more than any window allows, and holds just what the window since it was last full allows. */
  ghost predicate Tracks(b: Bucket, calls: seq<Call>, vs: seq<Verdict>, key: Key, rpm: int, f: nat, i: nat, full: nat)
    requires |vs| == |calls| && i <= |calls|
  {
    && f <= full < i && calls[full].key == key
    && b.rpm == rpm && b.tokens == Level(calls, vs, key, rpm, full, i, b.last)
    && forall w :: f <= w < i && calls[w].key == key ==> b.tokens <= Level(calls, vs, key, rpm, w, i, b.last)
  }

  lemma LevelLater(calls: seq<Call>, vs: seq<Verdict>, key: Key, rpm: int, w: nat, i: nat, last: real, now: real)
    requires |vs| == |calls| && w <= i <= |calls| && w < |calls|
    ensures Level(calls, vs, key, rpm, w, i, now) == Level(calls, vs, key, rpm, w, i, last) + Gain(rpm, now - last)
  {
    var a := calls[w].now;
    GainAdds(rpm, last - a, now - last);
    assert last - a + (now - last) == now - a;
    hide Gain, Admissions;
  }

  /** What call `i` finds, when it is not refilled to the brim. */
  lemma FoundLevel(b: Bucket, calls: seq<Call>, vs: seq<Verdict>, key: Key, rpm: int, f: nat, i: nat, full: nat)
    requires |vs| == |calls| && i < |calls| && rpm > 0 && calls[i].now >= b.last
    requires Tracks(b, calls, vs, key, rpm, f, i, full) && b.tokens <= rpm as real
    ensures var found, now := Refill(b, calls[i].now), calls[i].now;
            && found.tokens <= rpm as real && found.last == now && found.rpm == rpm
            && (found.tokens < rpm as real ==> found.tokens == Level(calls, vs, key, rpm, full, i, now))
            && forall w :: f <= w < i && calls[w].key == key ==> found.tokens <= Level(calls, vs, key, rpm, w, i, now)
  {
    var now := calls[i].now;
    GainInAMinute(rpm);
    LevelLater(calls, vs, key, rpm, full, i, b.last, now);
    forall w | f <= w < i && calls[w].key == key ensures Refill(b, now).tokens <= Level(calls, vs, key, rpm, w, i, now) {
      LevelLater(calls, vs, key, rpm, w, i, b.last, now);
      GainGrows(rpm, 0.0, now - b.last);
      hide Level, Gain;
    }
    hide Level, Gain;
  }

  /** A call that finds its bucket takes one token of what it finds, or is refused. */
  lemma CallSpends(m: Buckets, c: Call, n: Buckets, v: Verdict, limits: Limits)
    requires Next(m, c, n, v, limits) && c.rpm > 0 && c.key in m && m[c.key].rpm == c.rpm
    ensures var found := Refill(m[c.key], c.now);
            && c.key in n && (v.ok <==> found.tokens >= 1.0)
            && n[c.key] == if v.ok then found.(tokens := found.tokens - 1.0) else found
  {
    hide Refill, Evicted;
  }

  /** Taking a token keeps the account, from the call the bucket was full at: an earlier one or this one. */
  lemma SpendTracks(found: Bucket, calls: seq<Call>, vs: seq<Verdict>, key: Key, rpm: int, f: nat, i: nat, full: nat) returns (next: nat)
    requires |vs| == |calls| && f <= full < i < |calls| && rpm > 0 && calls[i].key == key && calls[full].key == key
    requires found.rpm == rpm && found.last == calls[i].now && found.tokens <= rpm as real && (vs[i].ok <==> found.tokens >= 1.0)
    requires found.tokens < rpm as real ==> found.tokens == Level(calls, vs, key, rpm, full, i, calls[i].now)
    requires forall w :: f <= w < i && calls[w].key == key ==> found.tokens <= Level(calls, vs, key, rpm, w, i, calls[i].now)
    ensures Tracks(if vs[i].ok then found.(tokens := found.tokens - 1.0) else found, calls, vs, key, rpm, f, i + 1, next)
  {
    var now := calls[i].now;
    next := if found.tokens < rpm as real then full else i;
    NoCalls(calls, vs, key, i);
    GainInAMinute(rpm);
    hide Gain, Admissions;
    OneMoreCall(calls, vs, key, next, i);
    forall w | f <= w < i + 1 && calls[w].key == key
      ensures (if vs[i].ok then found.tokens - 1.0 else found.tokens) <= Level(calls, vs, key, rpm, w, i + 1, now)
    {
      OneMoreCall(calls, vs, key, w, i);
    }
  }

  /** One call of `key`: what is left of the bucket is tracked, and the verdict is what the tracked level says. */
  lemma CallTracks(m: Buckets, n: Buckets, calls: seq<Call>, vs: seq<Verdict>, limits: Limits, key: Key, rpm: int, f: nat, i: nat, full: nat)
      returns (next: nat)
    requires |vs| == |calls| && i < |calls| && rpm > 0 && calls[i].key == key && calls[i].rpm == rpm
    requires key in m && calls[i].now >= m[key].last && m[key].tokens <= rpm as real
    requires Tracks(m[key], calls, vs, key, rpm, f, i, full) && Next(m, calls[i], n, vs[i], limits)
    ensures key in n && n[key].last == calls[i].now && n[key].tokens <= rpm as real
    ensures Tracks(n[key], calls, vs, key, rpm, f, i + 1, next)
    ensures !vs[i].ok <==> exists w :: f <= w < i && calls[w].key == key && Crowded(calls, vs, key, rpm, w, i)
  {
    var found := Refill(m[key], calls[i].now);
    FoundLevel(m[key], calls, vs, key, rpm, f, i, full);
    CallSpends(m, calls[i], n, vs[i], limits);
    hide Refill, Next, Gain, Admissions;
    next := SpendTracks(found, calls, vs, key, rpm, f, i, full);
    CrowdedIsLow(calls, vs, key, rpm, f, i);
    hide Tracks, Level, Crowded;
    assert found.tokens < 1.0 ==> Level(calls, vs, key, rpm, full, i, calls[i].now) < 1.0;
  }

  lemma CrowdedIsLow(calls: seq<Call>, vs: seq<Verdict>, key: Key, rpm: int, f: nat, i: nat)
    requires |vs| == |calls| && i < |calls|
    ensures forall w :: f <= w < i ==> (Crowded(calls, vs, key, rpm, w, i) <==> Level(calls, vs, key, rpm, w, i, calls[i].now) < 1.0)
  {
    hide Gain, Admissions;
  }

  lemma OtherTracks(b: Bucket, calls: seq<Call>, vs: seq<Verdict>, key: Key, rpm: int, f: nat, i: nat, full: nat)
    requires |vs| == |calls| && i < |calls| && calls[i].key != key && Tracks(b, calls, vs, key, rpm, f, i, full)
    ensures Tracks(b, calls, vs, key, rpm, f, i + 1, full)
  {
    OneMoreCall(calls, vs, key, full, i);
    forall w | f <= w < i + 1 && calls[w].key == key ensures b.tokens <= Level(calls, vs, key, rpm, w, i + 1, b.last) {
      OneMoreCall(calls, vs, key, w, i);
    }
    hide Gain, Admissions;
  }

  lemma FirstTracks(m: Buckets, n: Buckets, calls: seq<Call>, vs: seq<Verdict>, limits: Limits, key: Key, rpm: int, f: nat)
    requires |vs| == |calls| && f < |calls| && rpm > 0 && calls[f].key == key && calls[f].rpm == rpm
    requires (key in m ==> m[key].rpm != rpm) && Next(m, calls[f], n, vs[f], limits)
    ensures key in n && n[key].last == calls[f].now && n[key].tokens <= rpm as real && Tracks(n[key], calls, vs, key, rpm, f, f + 1, f)
    ensures vs[f].ok
  {
    hide Evicted;
    NoCalls(calls, vs, key, f);
    OneMoreCall(calls, vs, key, f, f);
    GainInAMinute(rpm);
    hide Gain, Admissions;
  }

  lemma {:induction false} RunTracks(ms: seq<Buckets>, calls: seq<Call>, vs: seq<Verdict>, limits: Limits, key: Key, rpm: int, f: nat, i: nat)
      returns (full: nat)
    requires IsRun(ms, calls, vs, limits) && ClockNeverSteps(calls) && Steady(ms, calls, key, rpm, f) && f < i <= |calls|
    ensures ms[i][key].tokens <= rpm as real && (i < |calls| ==> ms[i][key].last <= calls[i].now)
    ensures Tracks(ms[i][key], calls, vs, key, rpm, f, i, full)
  {
    hide Next, Tracks;
    assert Next(ms[i - 1], calls[i - 1], ms[i], vs[i - 1], limits);
    if i < |calls| { LastNotAhead(ms, calls, vs, limits, i, key); }
    if i == f + 1 {
      FirstTracks(ms[f], ms[i], calls, vs, limits, key, rpm, f);
      full := f;
    } else {
      full := RunTracks(ms, calls, vs, limits, key, rpm, f, i - 1);
      if calls[i - 1].key == key {
        full := CallTracks(ms[i - 1], ms[i], calls, vs, limits, key, rpm, f, i - 1, full);
      } else {
        OthersKeepTheBucket(ms[i - 1], calls[i - 1], ms[i], vs[i - 1], limits, key);
        OtherTracks(ms[i - 1][key], calls, vs, key, rpm, f, i - 1, full);
      }
    }
  }

  /**
   * Refused exactly: with a clock that does not step back, a call of a key that keeps its bucket and rate since call `f`
   * is refused if and only if the admissions from some call of the key up to it exceed a full bucket less one plus the
   * refill over that time. The first call is always admitted.
   */
  lemma RefusedExactly(ms: seq<Buckets>, calls: seq<Call>, vs: seq<Verdict>, limits: Limits, key: Key, rpm: int, f: nat, j: nat)
    requires IsRun(ms, calls, vs, limits) && ClockNeverSteps(calls) && Steady(ms, calls, key, rpm, f)
    requires f <= j < |calls| && calls[j].key == key
    ensures !vs[j].ok <==> exists w :: f <= w < j && calls[w].key == key && Crowded(calls, vs, key, rpm, w, j)
  {
    hide Next, Tracks, Crowded;
    assert Next(ms[j], calls[j], ms[j + 1], vs[j], limits);
    if j == f {
      FirstTracks(ms[f], ms[f + 1], calls, vs, limits, key, rpm, f);
    } else {
      var full := RunTracks(ms, calls, vs, limits, key, rpm, f, j);
      full := CallTracks(ms[j], ms[j + 1], calls, vs, limits, key, rpm, f, j, full);
    }
  }

  lemma {:induction false} WindowHoldsNoMore(calls: seq<Call>, vs: seq<Verdict>, key: Key, f: nat, w: nat, j: nat)
    requires |vs| == |calls| && f <= w <= j <= |calls|
    ensures Admissions(calls[w..j], vs[w..j], key) <= Admissions(calls[f..j], vs[f..j], key)
    decreases j
  {
    if w == j {
      NoCalls(calls, vs, key, w);
    } else {
      OneMoreCall(calls, vs, key, w, j - 1);
      OneMoreCall(calls, vs, key, f, j - 1);
      hide Admissions;
      WindowHoldsNoMore(calls, vs, key, f, w, j - 1);
    }
  }

  /** A burst of `rpm` calls on a new bucket is admitted whole, however close together. */
  lemma ABurstIsAdmitted(ms: seq<Buckets>, calls: seq<Call>, vs: seq<Verdict>, limits: Limits, key: Key, rpm: int, f: nat, j: nat)
    requires IsRun(ms, calls, vs, limits) && ClockNeverSteps(calls) && Steady(ms, calls, key, rpm, f)
    requires f <= j < |calls| && calls[j].key == key && Admissions(calls[f..j], vs[f..j], key) < rpm
    ensures vs[j].ok
  {
    RefusedExactly(ms, calls, vs, limits, key, rpm, f, j);
    forall w | f <= w < j && calls[w].key == key ensures !Crowded(calls, vs, key, rpm, w, j) {
      WindowHoldsNoMore(calls, vs, key, f, w, j);
      GainInAMinute(rpm);
      GainGrows(rpm, 0.0, calls[j].now - calls[w].now);
      hide Gain, Admissions;
    }
    hide Crowded, Admissions;
  }
}
