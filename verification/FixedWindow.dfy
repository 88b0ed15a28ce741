/** The relay's per-key limiter: a counter per fixed window, with stale keys swept from the table. */
module FixedWindow {
  import opened Base

  const EVICT_ABOVE: nat := 10_000

  datatype Bucket = Bucket(count: nat, windowStart: int)

  type Table = map<string, Bucket>

  datatype Limits = Limits(maxEvents: nat, window: nat)

  function Get(t: Table, key: string): Option<Bucket> {
    if key in t then Some(t[key]) else None
  }

  /** The bucket a request meets: created if missing, restarted if its window is over. */
  function Opened(l: Limits, ob: Option<Bucket>, now: int): Bucket {
    var b := if ob.Some? then ob.value else Bucket(0, now);
    if Elapsed(now, b.windowStart) >= l.window then Bucket(0, now) else b
  }

  function Hit(l: Limits, ob: Option<Bucket>, now: int): (Bucket, bool) {
    var b := Opened(l, ob, now);
    if b.count >= l.maxEvents then (b, false) else (b.(count := b.count + 1), true)
  }

  function Swept(l: Limits, t: Table, now: int): Table {
    map k | k in t && Elapsed(now, t[k].windowStart) < l.window :: t[k]
  }

  /** One request. With `evicts` false this is the reference that keeps every key forever. */
  function Admit(l: Limits, t: Table, key: string, now: int, evicts: bool): (Table, bool) {
    var (b, ok) := Hit(l, Get(t, key), now);
    var t' := t[key := b];
    (if ok && evicts && |t'| > EVICT_ABOVE then Swept(l, t', now) else t', ok)
  }

  class RateLimiter {
    var buckets: Table
    const limits: Limits

    constructor (maxEvents: nat, windowSecs: nat)
      ensures buckets == map[] && limits == Limits(maxEvents, windowSecs * NANOS_PER_SEC)
    {
      buckets := map[];
      limits := Limits(maxEvents, windowSecs * NANOS_PER_SEC);
    }

    method Allow(key: string, now: int) returns (ok: bool)
      modifies this
      ensures (buckets, ok) == Admit(limits, old(buckets), key, now, true)
    {
      if key !in buckets {
        buckets := buckets[key := Bucket(0, now)];
      }
      if Elapsed(now, buckets[key].windowStart) >= limits.window {
        buckets := buckets[key := Bucket(0, now)];
      }
      assert buckets == old(buckets)[key := Opened(limits, Get(old(buckets), key), now)];
      if buckets[key].count >= limits.maxEvents {
        return false;
      }
      buckets := buckets[key := buckets[key].(count := buckets[key].count + 1)];
      assert buckets == old(buckets)[key := Hit(limits, Get(old(buckets), key), now).0];
      if |buckets| > EVICT_ABOVE {
        buckets := map k | k in buckets && Elapsed(now, buckets[k].windowStart) < limits.window :: buckets[k];
      }
      return true;
    }
  }

  // ---------- Runs ----------

  datatype Call = Call(key: string, now: int)

  ghost predicate Ordered(calls: seq<Call>) {
    forall i, j | 0 <= i < j < |calls| :: calls[i].now <= calls[j].now
  }

  function After(l: Limits, calls: seq<Call>, n: nat, evicts: bool): Table
    requires n <= |calls|
  {
    if n == 0 then map[] else Admit(l, After(l, calls, n - 1, evicts), calls[n - 1].key, calls[n - 1].now, evicts).0
  }

  function Answer(l: Limits, calls: seq<Call>, i: nat, evicts: bool): bool
    requires i < |calls|
  {
    Hit(l, Get(After(l, calls, i, evicts), calls[i].key), calls[i].now).1
  }

  /** The swept table has lost only keys whose window is over. */
  ghost predicate Forgets(l: Limits, t: Table, full: Table, now: int) {
    && (forall k | k in t :: k in full && t[k] == full[k])
    && (forall k | k in full && k !in t :: Elapsed(now, full[k].windowStart) >= l.window)
  }

  lemma {:induction false} ForgetsStep(l: Limits, t: Table, full: Table, key: string, now: int)
    requires Forgets(l, t, full, now)
    ensures Hit(l, Get(t, key), now) == Hit(l, Get(full, key), now)
    ensures Forgets(l, Admit(l, t, key, now, true).0, Admit(l, full, key, now, false).0, now)
  {}

  lemma {:induction false} RunForgets(l: Limits, calls: seq<Call>, n: nat, now: int)
    requires n <= |calls| && Ordered(calls) && (n > 0 ==> calls[n - 1].now <= now)
    ensures Forgets(l, After(l, calls, n, true), After(l, calls, n, false), now)
  {
    if n > 0 {
      var c := calls[n - 1];
      RunForgets(l, calls, n - 1, c.now);
      ForgetsStep(l, After(l, calls, n - 1, true), After(l, calls, n - 1, false), c.key, c.now);
    }
  }

  /** Sweeping stale keys never changes an answer. */
  lemma {:induction false} SweepIsInvisible(l: Limits, calls: seq<Call>, i: nat)
    requires i < |calls| && Ordered(calls)
    ensures Answer(l, calls, i, true) == Answer(l, calls, i, false)
  {
    RunForgets(l, calls, i, calls[i].now);
    ForgetsStep(l, After(l, calls, i, true), After(l, calls, i, false), calls[i].key, calls[i].now);
  }

  // ---------- Exactly when ----------

  /** The request that opened the current window of `key`, among the first `n`: the first of all, and
      then each that comes a whole window or more after the last such. */
  function Opener(l: Limits, calls: seq<Call>, n: nat, key: string): (o: Option<nat>)
    requires n <= |calls|
    ensures o.Some? ==> o.value < n && calls[o.value].key == key
  {
    if n == 0 then None
    else
      var o := Opener(l, calls, n - 1, key);
      if calls[n - 1].key == key && (o.None? || Elapsed(calls[n - 1].now, calls[o.value].now) >= l.window)
      then Some(n - 1) else o
  }

  /** Requests of `key`, admitted or not, from number `lo` up to but not including `n`. */
  function Asked(calls: seq<Call>, lo: nat, n: nat, key: string): nat
    requires lo <= n <= |calls|
    decreases n
  {
    if lo == n then 0 else Asked(calls, lo, n - 1, key) + (if calls[n - 1].key == key then 1 else 0)
  }

  lemma {:induction false} BucketIsWindow(l: Limits, calls: seq<Call>, n: nat, key: string)
    requires n <= |calls|
    ensures var o := Opener(l, calls, n, key); var ob := Get(After(l, calls, n, false), key);
            && (ob.Some? <==> o.Some?)
            && (o.Some? ==> ob.value == Bucket(Min(Asked(calls, o.value, n, key), l.maxEvents), calls[o.value].now))
  {
    if n > 0 {
      BucketIsWindow(l, calls, n - 1, key);
    }
  }

  /** A request is refused exactly when its window, the one it opens included, has already seen as many
      requests of its key as are allowed. */
  lemma {:induction false} RefusedIffWindowFull(l: Limits, calls: seq<Call>, i: nat)
    requires i < |calls| && Ordered(calls)
    ensures var o := Opener(l, calls, i + 1, calls[i].key);
            o.Some? && (!Answer(l, calls, i, true) <==> Asked(calls, o.value, i, calls[i].key) >= l.maxEvents)
  {
    BucketIsWindow(l, calls, i, calls[i].key);
    SweepIsInvisible(l, calls, i);
  }

  // ---------- The bound ----------

  /** Requests of `key` admitted among the first `n` in the closed span of one window from `start`. */
  function InSpan(l: Limits, calls: seq<Call>, n: nat, key: string, start: int, evicts: bool): nat
    requires n <= |calls|
  {
    if n == 0 then 0
    else InSpan(l, calls, n - 1, key, start, evicts) +
         (if calls[n - 1].key == key && start <= calls[n - 1].now <= start + l.window && Answer(l, calls, n - 1, evicts)
          then 1 else 0)
  }

  /** How many of the span's requests a bucket can stand for. */
  function SpanBound(l: Limits, ob: Option<Bucket>, start: int): nat {
    if ob.None? || ob.value.windowStart + l.window <= start then 0
    else if ob.value.windowStart <= start then ob.value.count
    else if ob.value.windowStart <= start + l.window then l.maxEvents + ob.value.count
    else 2 * l.maxEvents
  }

  ghost predicate BucketOk(l: Limits, ob: Option<Bucket>, now: int) {
    ob.Some? ==> ob.value.count <= l.maxEvents && ob.value.windowStart <= now
  }

  lemma {:induction false} SpanBoundStep(l: Limits, ob: Option<Bucket>, now: int, start: int)
    requires l.window > 0 && BucketOk(l, ob, now)
    ensures var (b, ok) := Hit(l, ob, now);
            && BucketOk(l, Some(b), now)
            && SpanBound(l, ob, start) + (if ok && start <= now <= start + l.window then 1 else 0)
               <= SpanBound(l, Some(b), start)
  {}

  lemma {:induction false} SpanInvariant(l: Limits, calls: seq<Call>, n: nat, key: string, start: int, now: int)
    requires l.window > 0 && n <= |calls| && Ordered(calls) && (n > 0 ==> calls[n - 1].now <= now)
    ensures var ob := Get(After(l, calls, n, false), key);
            BucketOk(l, ob, now) && InSpan(l, calls, n, key, start, false) <= SpanBound(l, ob, start)
  {
    if n > 0 {
      var c := calls[n - 1];
      SpanInvariant(l, calls, n - 1, key, start, c.now);
      SpanBoundStep(l, Get(After(l, calls, n - 1, false), key), c.now, start);
    }
  }

  lemma {:induction false} InSpanAgrees(l: Limits, calls: seq<Call>, n: nat, key: string, start: int)
    requires n <= |calls| && Ordered(calls)
    ensures InSpan(l, calls, n, key, start, true) == InSpan(l, calls, n, key, start, false)
  {
    if n > 0 {
      InSpanAgrees(l, calls, n - 1, key, start);
      SweepIsInvisible(l, calls, n - 1);
    }
  }

  /** Any closed span of one window admits at most two windows' worth per key. */
  lemma {:induction false} TwoWindowsWorth(l: Limits, calls: seq<Call>, key: string, start: int)
    requires l.window > 0 && Ordered(calls)
    ensures InSpan(l, calls, |calls|, key, start, true) <= 2 * l.maxEvents
  {
    InSpanAgrees(l, calls, |calls|, key, start);
    if calls != [] {
      SpanInvariant(l, calls, |calls|, key, start, calls[|calls| - 1].now);
    }
  }

  /** A window of length zero restarts at every request, so nothing is limited. */
  lemma {:induction false} ZeroWindowAdmitsAll(l: Limits, calls: seq<Call>, n: nat)
    requires l.window == 0 && l.maxEvents > 0 && n <= |calls|
    requires forall i | 0 <= i < |calls| :: calls[i] == Call("", 0)
    ensures InSpan(l, calls, n, "", 0, true) == n
  {
    if n > 0 {
      ZeroWindowAdmitsAll(l, calls, n - 1);
    }
  }

  lemma {:induction false} ZeroMaxAdmitsNone(l: Limits, calls: seq<Call>, n: nat, key: string, start: int)
    requires l.maxEvents == 0 && n <= |calls|
    ensures InSpan(l, calls, n, key, start, true) == 0
  {
    if n > 0 {
      ZeroMaxAdmitsNone(l, calls, n - 1, key, start);
    }
  }

  /** The bound holds for all traffic exactly when the window is positive (or nothing is admitted). */
  lemma {:induction false} BoundedIffWindowed(l: Limits)
    ensures (forall calls, key, start | Ordered(calls) ::
               InSpan(l, calls, |calls|, key, start, true) <= 2 * l.maxEvents)
            <==> l.window > 0 || l.maxEvents == 0
  {
    forall calls, key, start | Ordered(calls) && (l.window > 0 || l.maxEvents == 0)
      ensures InSpan(l, calls, |calls|, key, start, true) <= 2 * l.maxEvents
    {
      if l.window > 0 {
        TwoWindowsWorth(l, calls, key, start);
      } else {
        ZeroMaxAdmitsNone(l, calls, |calls|, key, start);
      }
    }
    if l.window == 0 && l.maxEvents > 0 {
      var calls := seq(2 * l.maxEvents + 1, i => Call("", 0));
      ZeroWindowAdmitsAll(l, calls, |calls|);
      assert Ordered(calls);
    }
  }
}
