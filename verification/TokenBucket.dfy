/** The per-tenant token-bucket limiter of the outbound bot API. Times are real seconds. */
module TokenBucket {
  import opened Base

  // ---------- Policy ----------

  datatype F64 = Finite(value: real) | Infinite | NotANumber

  function SanitizeRate(rate: F64): (r: real)
    ensures r > 0.0
    ensures rate.Finite? && rate.value > 0.0 ==> r == rate.value
  {
    if rate.Finite? && rate.value > 0.0 then rate.value else 0.001
  }

  function SanitizeBurst(burst: F64): (b: real)
    ensures b >= 1.0
    ensures burst.Finite? && burst.value >= 1.0 ==> b == burst.value
  {
    if burst.Finite? && burst.value >= 1.0 then burst.value else 1.0
  }

  datatype Policy = Policy(rate: real, burst: real) {
    ghost predicate Valid() {
      rate > 0.0 && burst >= 1.0
    }
  }

  // ---------- One bucket ----------

  datatype Bucket = Bucket(tokens: real, last: real, rejected: nat) {
    ghost predicate Within(p: Policy) {
      0.0 <= tokens <= p.burst
    }
  }

  datatype Outcome = Allowed(remaining: real) | Denied(retryAfter: real)

  function Least(a: real, b: real): real {
    if a <= b then a else b
  }

  /** Forward clock movement; moving backwards earns nothing. */
  function Forward(from: real, to: real): real {
    if from <= to then to - from else 0.0
  }

  function Refilled(p: Policy, b: Bucket, now: real): Bucket {
    b.(tokens := Least(b.tokens + Forward(b.last, now) * p.rate, p.burst), last := now)
  }

  function Use(p: Policy, b: Bucket, now: real): (Bucket, Outcome)
    requires p.Valid()
  {
    var f := Refilled(p, b, now);
    if f.tokens >= 1.0 then (f.(tokens := f.tokens - 1.0), Allowed(f.tokens - 1.0))
    else (f.(rejected := Min(f.rejected + 1, U64_MAX)), Denied((1.0 - f.tokens) / p.rate))
  }

  /** A tenant's first check finds a full bucket. */
  function OrFull(p: Policy, ob: Option<Bucket>, now: real): Bucket {
    if ob.Some? then ob.value else Bucket(p.burst, now, 0)
  }

  // ---------- A bucket's history ----------

  /** One check of one bucket. */
  datatype Visit = Visit(now: real, pre: Bucket, post: Bucket, out: Outcome)

  ghost predicate VisitLinked(p: Policy, vs: seq<Visit>, i: nat)
    requires p.Valid() && i < |vs|
  {
    && Use(p, vs[i].pre, vs[i].now) == (vs[i].post, vs[i].out)
    && (i > 0 ==> vs[i].pre == vs[i - 1].post)
  }

  /** Consecutive checks of one bucket, from any state the policy allows. */
  ghost predicate History(p: Policy, vs: seq<Visit>)
    requires p.Valid()
  {
    && (forall i | 0 <= i < |vs| :: VisitLinked(p, vs, i))
    && (vs != [] ==> vs[0].pre.Within(p))
  }

  function Admitted(vs: seq<Visit>, n: nat): nat
    requires n <= |vs|
  {
    if n == 0 then 0 else Admitted(vs, n - 1) + (if vs[n - 1].out.Allowed? then 1 else 0)
  }

  /** Total forward clock movement between visits `lo` and `hi`. */
  function Movement(vs: seq<Visit>, lo: nat, hi: nat): real
    requires lo <= hi < |vs|
    decreases hi
  {
    if lo == hi then 0.0 else Movement(vs, lo, hi - 1) + Forward(vs[hi - 1].now, vs[hi].now)
  }

  lemma {:induction false} Step(p: Policy, b: Bucket, now: real)
    requires p.Valid() && b.Within(p)
    ensures var (b', out) := Use(p, b, now);
            && b'.Within(p) && b'.last == now
            && b'.tokens + (if out.Allowed? then 1.0 else 0.0) <= p.burst
            && b'.tokens + (if out.Allowed? then 1.0 else 0.0) <= b.tokens + p.rate * Forward(b.last, now)
  {
    assert Forward(b.last, now) * p.rate >= 0.0;
  }

  lemma {:induction false} Distribute(rate: real, a: real, b: real)
    ensures rate * (a + b) == rate * a + rate * b
  {}

  /** Tokens stay within [0, burst] throughout. */
  lemma {:induction false} TokensStayWithin(p: Policy, vs: seq<Visit>, i: nat)
    requires p.Valid() && History(p, vs) && i < |vs|
    ensures vs[i].pre.Within(p) && vs[i].post.Within(p) && vs[i].post.last == vs[i].now
  {
    if i > 0 {
      TokensStayWithin(p, vs, i - 1);
    }
    assert VisitLinked(p, vs, i);
    Step(p, vs[i].pre, vs[i].now);
  }

  lemma {:induction false} VisitCost(p: Policy, vs: seq<Visit>, i: nat)
    requires p.Valid() && History(p, vs) && i < |vs|
    ensures var spent := if vs[i].out.Allowed? then 1.0 else 0.0;
            && vs[i].post.tokens + spent <= p.burst
            && (i > 0 ==>
                  vs[i].post.tokens + spent <= vs[i - 1].post.tokens + p.rate * Forward(vs[i - 1].now, vs[i].now))
  {
    TokensStayWithin(p, vs, i);
    assert VisitLinked(p, vs, i);
    Step(p, vs[i].pre, vs[i].now);
    if i > 0 {
      TokensStayWithin(p, vs, i - 1);
    }
  }

  /** What has been admitted and what is left never exceed the burst plus what the clock earned. */
  lemma {:induction false} Accounting(p: Policy, vs: seq<Visit>, n: nat)
    requires p.Valid() && History(p, vs) && n < |vs|
    ensures Admitted(vs, n + 1) as real + vs[n].post.tokens <= p.burst + p.rate * Movement(vs, 0, n)
  {
    VisitCost(p, vs, n);
    if n == 0 {
      assert Admitted(vs, 1) == if vs[0].out.Allowed? then 1 else 0;
    } else {
      Accounting(p, vs, n - 1);
      Distribute(p.rate, Movement(vs, 0, n - 1), Forward(vs[n - 1].now, vs[n].now));
    }
  }

  /** Over any block of consecutive checks of a bucket, from any state. */
  lemma {:induction false} BlockBound(p: Policy, vs: seq<Visit>)
    requires p.Valid() && History(p, vs) && vs != []
    ensures Admitted(vs, |vs|) as real <= p.burst + p.rate * Movement(vs, 0, |vs| - 1)
  {
    Accounting(p, vs, |vs| - 1);
    TokensStayWithin(p, vs, |vs| - 1);
  }

  ghost predicate Ordered(vs: seq<Visit>) {
    forall i, j | 0 <= i < j < |vs| :: vs[i].now <= vs[j].now
  }

  lemma {:induction false} OrderedMovement(vs: seq<Visit>, lo: nat, hi: nat)
    requires lo <= hi < |vs| && Ordered(vs)
    ensures Movement(vs, lo, hi) == vs[hi].now - vs[lo].now
    decreases hi
  {
    if lo < hi {
      OrderedMovement(vs, lo, hi - 1);
    }
  }

  /** With an ordered clock: burst plus rate times elapsed time. */
  lemma {:induction false} OrderedBlockBound(p: Policy, vs: seq<Visit>)
    requires p.Valid() && History(p, vs) && vs != [] && Ordered(vs)
    ensures Admitted(vs, |vs|) as real <= p.burst + p.rate * (vs[|vs| - 1].now - vs[0].now)
  {
    BlockBound(p, vs);
    OrderedMovement(vs, 0, |vs| - 1);
  }

  /** With the clock frozen a full bucket admits exactly its whole tokens, then nothing. */
  lemma {:induction false} FrozenClockAdmitsBurst(p: Policy, vs: seq<Visit>, n: nat)
    requires p.Valid() && History(p, vs) && n < |vs|
    requires vs[0].pre.tokens == p.burst && vs[0].pre.last == vs[0].now
    requires forall i | 0 <= i < |vs| :: vs[i].now == vs[0].now
    ensures Admitted(vs, n + 1) == Min(n + 1, p.burst.Floor)
    ensures vs[n].post.last == vs[0].now
    ensures vs[n].post.tokens == p.burst - Admitted(vs, n + 1) as real
  {
    assert VisitLinked(p, vs, n);
    if n > 0 {
      FrozenClockAdmitsBurst(p, vs, n - 1);
    }
    assert Forward(vs[0].now, vs[0].now) * p.rate == 0.0;
  }

  // ---------- Exactly when ----------

  function Gain(p: Policy, from: real, to: real): real {
    p.rate * Forward(from, to)
  }

  /** Checks admitted from visit `lo` up to but not including visit `hi`. */
  function Spent(vs: seq<Visit>, lo: nat, hi: nat): int
    requires lo <= hi <= |vs|
  {
    Admitted(vs, hi) - Admitted(vs, lo)
  }

  function EarnedFrom(p: Policy, vs: seq<Visit>, lo: nat, hi: nat): real
    requires lo <= hi < |vs|
    decreases hi
  {
    if lo == hi then 0.0 else EarnedFrom(p, vs, lo, hi - 1) + Gain(p, vs[hi - 1].now, vs[hi].now)
  }

  /** What visit `k` finds in the bucket, refilled. */
  function Found(p: Policy, vs: seq<Visit>, k: nat): real
    requires k < |vs|
  {
    Refilled(p, vs[k].pre, vs[k].now).tokens
  }

  /** What a bucket full at visit `i` would have left at visit `k`, if it could hold any amount. */
  function LeftSince(p: Policy, vs: seq<Visit>, i: nat, k: nat): real
    requires i <= k < |vs|
  {
    p.burst + EarnedFrom(p, vs, i, k) - Spent(vs, i, k) as real
  }

  /** The same for the bucket as it was at the start. */
  function LeftSinceStart(p: Policy, vs: seq<Visit>, k: nat): real
    requires k < |vs|
  {
    vs[0].pre.tokens + Gain(p, vs[0].pre.last, vs[0].now) + EarnedFrom(p, vs, 0, k) - Spent(vs, 0, k) as real
  }

  lemma {:induction false} FoundNext(p: Policy, vs: seq<Visit>, k: nat)
    requires p.Valid() && History(p, vs) && 0 < k < |vs|
    ensures var spent := if vs[k - 1].out.Allowed? then 1.0 else 0.0;
            Found(p, vs, k) == Least(Found(p, vs, k - 1) - spent + Gain(p, vs[k - 1].now, vs[k].now), p.burst)
  {
    assert VisitLinked(p, vs, k) && VisitLinked(p, vs, k - 1);
  }

  lemma {:induction false} LeftNext(p: Policy, vs: seq<Visit>, i: nat, k: nat)
    requires i < k < |vs|
    ensures var change := Gain(p, vs[k - 1].now, vs[k].now) - (if vs[k - 1].out.Allowed? then 1.0 else 0.0);
            && LeftSince(p, vs, i, k) == LeftSince(p, vs, i, k - 1) + change
            && LeftSinceStart(p, vs, k) == LeftSinceStart(p, vs, k - 1) + change
  {}

  /** A bucket holds the least of what it would hold had it been full at any one of the visits so far,
      or started as it did. */
  lemma {:induction false} FoundIsLeast(p: Policy, vs: seq<Visit>, k: nat)
    requires p.Valid() && History(p, vs) && k < |vs|
    ensures forall i | 0 <= i <= k :: Found(p, vs, k) <= LeftSince(p, vs, i, k)
    ensures Found(p, vs, k) <= LeftSinceStart(p, vs, k)
    ensures Found(p, vs, k) == LeftSinceStart(p, vs, k) ||
            exists i | 0 <= i <= k :: Found(p, vs, k) == LeftSince(p, vs, i, k)
  {
    assert LeftSince(p, vs, k, k) == p.burst;
    if k > 0 {
      FoundIsLeast(p, vs, k - 1);
      FoundNext(p, vs, k);
      forall i | 0 <= i < k ensures Found(p, vs, k) <= LeftSince(p, vs, i, k) {
        LeftNext(p, vs, i, k);
      }
      LeftNext(p, vs, 0, k);
      if Found(p, vs, k) < p.burst && Found(p, vs, k - 1) != LeftSinceStart(p, vs, k - 1) {
        var i :| 0 <= i <= k - 1 && Found(p, vs, k - 1) == LeftSince(p, vs, i, k - 1);
        LeftNext(p, vs, i, k);
        assert Found(p, vs, k) == LeftSince(p, vs, i, k);
      } else if Found(p, vs, k) == p.burst {
        assert Found(p, vs, k) == LeftSince(p, vs, k, k);
      }
    }
  }

  lemma {:induction false} EarnedFromTotal(p: Policy, vs: seq<Visit>, lo: nat, hi: nat)
    requires lo <= hi < |vs|
    ensures EarnedFrom(p, vs, lo, hi) == p.rate * Movement(vs, lo, hi)
    decreases hi
  {
    if lo < hi {
      EarnedFromTotal(p, vs, lo, hi - 1);
      Distribute(p.rate, Movement(vs, lo, hi - 1), Forward(vs[hi - 1].now, vs[hi].now));
    }
  }

  /** Burst plus rate times movement. */
  function Allowance(p: Policy, vs: seq<Visit>, i: nat, k: nat): real
    requires i <= k < |vs|
  {
    p.burst + p.rate * Movement(vs, i, k)
  }

  /** The starting tokens plus rate times movement. */
  function StartAllowance(p: Policy, vs: seq<Visit>, k: nat): real
    requires k < |vs|
  {
    vs[0].pre.tokens + p.rate * Forward(vs[0].pre.last, vs[0].now) + p.rate * Movement(vs, 0, k)
  }

  lemma {:induction false} AllowanceIsEarned(p: Policy, vs: seq<Visit>, i: nat, k: nat)
    requires i <= k < |vs|
    ensures Allowance(p, vs, i, k) == p.burst + EarnedFrom(p, vs, i, k)
  {
    EarnedFromTotal(p, vs, i, k);
  }

  lemma {:induction false} StartAllowanceIsEarned(p: Policy, vs: seq<Visit>, k: nat)
    requires k < |vs|
    ensures StartAllowance(p, vs, k) ==
            vs[0].pre.tokens + Gain(p, vs[0].pre.last, vs[0].now) + EarnedFrom(p, vs, 0, k)
  {
    EarnedFromTotal(p, vs, 0, k);
  }

  /** Admitting visit `k` keeps the checks since visit `i` within their allowance. */
  predicate FitsSince(p: Policy, vs: seq<Visit>, i: nat, k: nat)
    requires i <= k < |vs|
  {
    (1 + Spent(vs, i, k)) as real <= Allowance(p, vs, i, k)
  }

  /** Admitting visit `k` keeps all checks within the allowance from the start. */
  predicate FitsSinceStart(p: Policy, vs: seq<Visit>, k: nat)
    requires k < |vs|
  {
    (1 + Spent(vs, 0, k)) as real <= StartAllowance(p, vs, k)
  }

  lemma {:induction false} Rearranged(spent: int, allowance: real, left: real)
    requires left == allowance - spent as real
    ensures (1 + spent) as real <= allowance <==> left >= 1.0
  {}

  lemma {:induction false} FitsIff(p: Policy, vs: seq<Visit>, i: nat, k: nat)
    requires i <= k < |vs|
    ensures FitsSince(p, vs, i, k) <==> LeftSince(p, vs, i, k) >= 1.0
  {
    AllowanceIsEarned(p, vs, i, k);
    Rearranged(Spent(vs, i, k), Allowance(p, vs, i, k), LeftSince(p, vs, i, k));
  }

  lemma {:induction false} FitsStartIff(p: Policy, vs: seq<Visit>, k: nat)
    requires k < |vs|
    ensures FitsSinceStart(p, vs, k) <==> LeftSinceStart(p, vs, k) >= 1.0
  {
    StartAllowanceIsEarned(p, vs, k);
    Rearranged(Spent(vs, 0, k), StartAllowance(p, vs, k), LeftSinceStart(p, vs, k));
  }

  /** The other half of the bound: a check is refused only for good reason. It is admitted if and only if
      no block of checks ending with it, from any visit or from the start, then exceeds its allowance. */
  lemma {:induction false} AdmittedIff(p: Policy, vs: seq<Visit>, k: nat)
    requires p.Valid() && History(p, vs) && k < |vs|
    ensures vs[k].out.Allowed? <==>
            FitsSinceStart(p, vs, k) && forall i | 0 <= i <= k :: FitsSince(p, vs, i, k)
    ensures vs[k].out.Allowed? ==> vs[k].out.remaining == vs[k].post.tokens
  {
    FoundIsLeast(p, vs, k);
    forall i | 0 <= i <= k ensures FitsSince(p, vs, i, k) <==> LeftSince(p, vs, i, k) >= 1.0 {
      FitsIff(p, vs, i, k);
    }
    FitsStartIff(p, vs, k);
    assert VisitLinked(p, vs, k);
    assert vs[k].out.Allowed? <==> Found(p, vs, k) >= 1.0;
  }

  /** The bucket counts its refusals, up to the largest 64-bit number. */
  lemma {:induction false} RejectedCounts(p: Policy, vs: seq<Visit>, k: nat)
    requires p.Valid() && History(p, vs) && k < |vs| && vs[0].pre.rejected <= U64_MAX
    ensures vs[k].post.rejected == Min(vs[0].pre.rejected + (k + 1 - Admitted(vs, k + 1)), U64_MAX)
  {
    assert VisitLinked(p, vs, k);
    if k > 0 {
      RejectedCounts(p, vs, k - 1);
      AdmittedAtMost(vs, k);
    }
    AdmittedAtMost(vs, k + 1);
  }

  lemma {:induction false} AdmittedAtMost(vs: seq<Visit>, n: nat)
    requires n <= |vs|
    ensures Admitted(vs, n) <= n
  {
    if n > 0 {
      AdmittedAtMost(vs, n - 1);
    }
  }

  // ---------- Retrying ----------

  lemma {:induction false} Catchup(rate: real, tokens: real, wait: real)
    requires rate > 0.0
    ensures tokens + rate * wait >= 1.0 <==> wait >= (1.0 - tokens) / rate
    ensures tokens < 1.0 ==> (1.0 - tokens) / rate > 0.0
  {
    var need := (1.0 - tokens) / rate;
    assert need * rate == 1.0 - tokens;
    if wait >= need {
      assert (wait - need) * rate >= 0.0;
    } else {
      assert (need - wait) * rate > 0.0;
    }
  }

  /** While checks are denied the bucket just accumulates what the clock earns. */
  lemma {:induction false} DeniedAccumulates(p: Policy, vs: seq<Visit>, i: nat, k: nat)
    requires p.Valid() && History(p, vs) && i <= k < |vs|
    requires forall j | i <= j <= k :: vs[j].out.Denied?
    ensures vs[k].post.tokens == vs[i].post.tokens + p.rate * Movement(vs, i, k) < 1.0
    decreases k
  {
    assert VisitLinked(p, vs, k);
    if i < k {
      DeniedAccumulates(p, vs, i, k - 1);
      TokensStayWithin(p, vs, k - 1);
      Distribute(p.rate, Movement(vs, i, k - 1), Forward(vs[k - 1].now, vs[k].now));
    }
  }

  /** The wait quoted by a denial is exact: however often the tenant retries and is denied, a check
      is admitted if and only if the quoted time has come. Retrying early costs nothing. */
  lemma {:induction false} RetryAfterIsExact(p: Policy, vs: seq<Visit>, i: nat, k: nat)
    requires p.Valid() && History(p, vs) && Ordered(vs) && i < k < |vs|
    requires forall j | i <= j < k :: vs[j].out.Denied?
    ensures vs[i].out.retryAfter > 0.0
    ensures vs[k].out.Allowed? <==> vs[i].now + vs[i].out.retryAfter <= vs[k].now
  {
    QuotedWait(p, vs, i);
    AdmittedAfterDenials(p, vs, i, k);
    Catchup(p.rate, vs[i].post.tokens, vs[k].now - vs[i].now);
  }

  lemma {:induction false} AdmittedAfterDenials(p: Policy, vs: seq<Visit>, i: nat, k: nat)
    requires p.Valid() && History(p, vs) && Ordered(vs) && i < k < |vs|
    requires forall j | i <= j < k :: vs[j].out.Denied?
    ensures vs[k].out.Allowed? <==> vs[i].post.tokens + p.rate * (vs[k].now - vs[i].now) >= 1.0
  {
    DeniedAccumulates(p, vs, i, k - 1);
    TokensStayWithin(p, vs, k - 1);
    AdmittedWhenOne(p, vs, k);
    OrderedMovement(vs, i, k - 1);
    Distribute(p.rate, vs[k - 1].now - vs[i].now, vs[k].now - vs[k - 1].now);
  }

  lemma {:induction false} QuotedWait(p: Policy, vs: seq<Visit>, i: nat)
    requires p.Valid() && History(p, vs) && i < |vs| && vs[i].out.Denied?
    ensures vs[i].post.tokens < 1.0 && vs[i].out.retryAfter == (1.0 - vs[i].post.tokens) / p.rate
  {
    assert VisitLinked(p, vs, i);
  }

  lemma {:induction false} AdmittedWhenOne(p: Policy, vs: seq<Visit>, k: nat)
    requires p.Valid() && History(p, vs) && k < |vs|
    ensures vs[k].out.Allowed? <==> vs[k].pre.tokens + p.rate * Forward(vs[k].pre.last, vs[k].now) >= 1.0
    ensures k > 0 ==> vs[k].pre == vs[k - 1].post
  {
    assert VisitLinked(p, vs, k);
  }

  // ---------- The limiter ----------

  type Buckets = map<string, Bucket>

  function Get(m: Buckets, vtoken: string): Option<Bucket> {
    if vtoken in m then Some(m[vtoken]) else None
  }

  predicate NeedsRoom(m: Buckets, capacity: nat, vtoken: string) {
    |m| >= capacity && vtoken !in m && m != map[]
  }

  /** `victim` is a least recently used key. Ties may be broken either way. */
  ghost predicate Oldest(m: Buckets, victim: string) {
    victim in m && forall k | k in m :: m[victim].last <= m[k].last
  }

  function Room(m: Buckets, capacity: nat, vtoken: string, victim: string): Buckets {
    if NeedsRoom(m, capacity, vtoken) then m - {victim} else m
  }

  /** One check of the limiter; `victim` is the key eviction picks if it needs room. */
  function Check(p: Policy, capacity: nat, m: Buckets, vtoken: string, now: real, victim: string): (Buckets, Outcome)
    requires p.Valid()
  {
    var room := Room(m, capacity, vtoken, victim);
    var (b, out) := Use(p, OrFull(p, Get(room, vtoken), now), now);
    (room[vtoken := b], out)
  }

  datatype Limits = Limits(policy: Policy, capacity: nat) {
    ghost predicate Valid() {
      policy.Valid() && capacity > 0
    }
  }

  datatype Event = Event(vtoken: string, now: real, victim: string, pre: Buckets, post: Buckets, out: Outcome)

  ghost predicate Evicts(l: Limits, e: Event, vtoken: string) {
    NeedsRoom(e.pre, l.capacity, e.vtoken) && e.victim == vtoken
  }

  ghost predicate Linked(l: Limits, run: seq<Event>, i: nat)
    requires l.Valid() && i < |run|
  {
    var e := run[i];
    && (NeedsRoom(e.pre, l.capacity, e.vtoken) ==> Oldest(e.pre, e.victim))
    && Check(l.policy, l.capacity, e.pre, e.vtoken, e.now, e.victim) == (e.post, e.out)
    && (i > 0 ==> e.pre == run[i - 1].post)
  }

  /** Any interleaving of checks by any tenants, from any table. */
  ghost predicate IsRun(l: Limits, run: seq<Event>)
    requires l.Valid()
  {
    forall i | 0 <= i < |run| :: Linked(l, run, i)
  }

  /** What a check did to the bucket of the tenant that made it. */
  function VisitOf(l: Limits, e: Event): Visit
    requires e.vtoken in e.post
  {
    Visit(e.now, OrFull(l.policy, Get(Room(e.pre, l.capacity, e.vtoken, e.victim), e.vtoken), e.now),
          e.post[e.vtoken], e.out)
  }

  /** A tenant's visits among the first `n` events. */
  function Own(l: Limits, run: seq<Event>, n: nat, vtoken: string): seq<Visit>
    requires n <= |run|
  {
    if n == 0 then []
    else if run[n - 1].vtoken == vtoken && vtoken in run[n - 1].post
    then Own(l, run, n - 1, vtoken) + [VisitOf(l, run[n - 1])]
    else Own(l, run, n - 1, vtoken)
  }

  /** Another tenant's check leaves a bucket alone unless it evicts it. */
  lemma {:induction false} OthersDoNotTouch(l: Limits, run: seq<Event>, i: nat, vtoken: string)
    requires l.Valid() && i < |run| && Linked(l, run, i)
    requires run[i].vtoken != vtoken && !Evicts(l, run[i], vtoken)
    ensures Get(run[i].post, vtoken) == Get(run[i].pre, vtoken)
  {}

  lemma {:induction false} OwnCheckIsVisit(l: Limits, run: seq<Event>, i: nat)
    requires l.Valid() && i < |run| && Linked(l, run, i)
    ensures var v := run[i].vtoken;
            && v in run[i].post
            && VisitLinked(l.policy, [VisitOf(l, run[i])], 0)
            && VisitOf(l, run[i]).pre == OrFull(l.policy, Get(run[i].pre, v), run[i].now)
            && Get(run[i].post, v) == Some(VisitOf(l, run[i]).post)
  {}

  /** The state of a tenant's bucket before event `n`, if it was not evicted: as its last visit left it. */
  function BucketBefore(run: seq<Event>, n: nat, vtoken: string): Option<Bucket>
    requires n <= |run| && run != []
  {
    if n == |run| then Get(run[n - 1].post, vtoken) else Get(run[n].pre, vtoken)
  }

  lemma {:induction false} BucketAfter(l: Limits, run: seq<Event>, i: nat, vtoken: string)
    requires l.Valid() && IsRun(l, run) && i < |run|
    ensures BucketBefore(run, i, vtoken) == Get(run[i].pre, vtoken)
    ensures BucketBefore(run, i + 1, vtoken) == Get(run[i].post, vtoken)
  {
    if i + 1 < |run| {
      assert Linked(l, run, i + 1);
    }
  }

  lemma {:induction false} AppendVisit(p: Policy, vs: seq<Visit>, v: Visit)
    requires p.Valid() && History(p, vs) && VisitLinked(p, [v], 0)
    requires v.pre.Within(p) && (vs != [] ==> v.pre == vs[|vs| - 1].post)
    ensures History(p, vs + [v])
  {
    var ws := vs + [v];
    forall i | 0 <= i < |ws|
      ensures VisitLinked(p, ws, i)
    {
      if i < |vs| {
        assert VisitLinked(p, vs, i);
      }
    }
  }

  /** The visits `vs` form one history that begins with bucket `first`, a full one if there was none, and
      leaves bucket `last`. */
  ghost predicate Unbroken(p: Policy, vs: seq<Visit>, first: Option<Bucket>, last: Option<Bucket>)
    requires p.Valid()
  {
    && History(p, vs)
    && last == (if vs == [] then first else Some(vs[|vs| - 1].post))
    && (vs != [] ==> vs[0].pre == OrFull(p, first, vs[0].now))
  }

  lemma {:induction false} UnbrokenNext(p: Policy, vs: seq<Visit>, first: Option<Bucket>, last: Option<Bucket>,
                                        v: Visit)
    requires p.Valid() && Unbroken(p, vs, first, last) && (first.Some? ==> first.value.Within(p))
    requires VisitLinked(p, [v], 0) && v.pre == OrFull(p, last, v.now)
    ensures Unbroken(p, vs + [v], first, Some(v.post))
  {
    if vs != [] {
      TokensStayWithin(p, vs, |vs| - 1);
    }
    AppendVisit(p, vs, v);
  }

  /** Unless it is evicted, a tenant's visits form one bucket history, whatever others do in between.
      So every bound proved for one bucket holds in the shared limiter. */
  lemma {:induction false} OwnVisitsAreHistory(l: Limits, run: seq<Event>, n: nat, vtoken: string)
    requires l.Valid() && IsRun(l, run) && n <= |run| && run != []
    requires forall i | 0 <= i < n :: !Evicts(l, run[i], vtoken)
    requires vtoken in run[0].pre ==> run[0].pre[vtoken].Within(l.policy)
    ensures Unbroken(l.policy, Own(l, run, n, vtoken), Get(run[0].pre, vtoken), BucketBefore(run, n, vtoken))
  {
    if n > 0 {
      OwnVisitsAreHistory(l, run, n - 1, vtoken);
      assert Linked(l, run, n - 1);
      BucketAfter(l, run, n - 1, vtoken);
      if run[n - 1].vtoken == vtoken {
        OwnCheckIsVisit(l, run, n - 1);
        UnbrokenNext(l.policy, Own(l, run, n - 1, vtoken), Get(run[0].pre, vtoken),
                     BucketBefore(run, n - 1, vtoken), VisitOf(l, run[n - 1]));
      } else {
        OthersDoNotTouch(l, run, n - 1, vtoken);
      }
    }
  }

  /** How often the tenant's bucket was evicted in the first `n` events. */
  ghost function Evictions(l: Limits, run: seq<Event>, n: nat, vtoken: string): nat
    requires n <= |run|
  {
    if n == 0 then 0
    else Evictions(l, run, n - 1, vtoken) + (if Evicts(l, run[n - 1], vtoken) then 1 else 0)
  }

  /** One burst to start with, and one more for each eviction. */
  function Bursts(p: Policy, evictions: nat): real {
    if evictions == 0 then p.burst else Bursts(p, evictions - 1) + p.burst
  }

  lemma {:induction false} BurstsTotal(p: Policy, evictions: nat)
    requires p.Valid()
    ensures Bursts(p, evictions) == (evictions + 1) as real * p.burst
    ensures Bursts(p, evictions) >= p.burst
  {
    if evictions > 0 {
      BurstsTotal(p, evictions - 1);
      Distribute(p.burst, evictions as real, 1.0);
    }
  }

  /** What the clock earned the tenant between its first visit and visit `n`. */
  function Earned(p: Policy, vs: seq<Visit>, n: nat): real
    requires n < |vs|
  {
    if n == 0 then 0.0 else Earned(p, vs, n - 1) + Gain(p, vs[n - 1].now, vs[n].now)
  }

  lemma {:induction false} EarnedTotal(p: Policy, vs: seq<Visit>, n: nat)
    requires n < |vs|
    ensures Earned(p, vs, n) == p.rate * Movement(vs, 0, n)
  {
    if n > 0 {
      EarnedTotal(p, vs, n - 1);
      Distribute(p.rate, Movement(vs, 0, n - 1), Forward(vs[n - 1].now, vs[n].now));
    }
  }

  lemma {:induction false} Prefixes(p: Policy, vs: seq<Visit>, v: Visit, n: nat)
    requires n <= |vs|
    ensures Admitted(vs + [v], n) == Admitted(vs, n)
    ensures n > 0 ==> Earned(p, vs + [v], n - 1) == Earned(p, vs, n - 1)
  {
    if n > 0 {
      Prefixes(p, vs, v, n - 1);
    }
  }

  /** What the tenant could still spend at once; without a bucket, a whole burst. */
  function Level(p: Policy, ob: Option<Bucket>): real {
    if ob.Some? then ob.value.tokens else p.burst
  }

  /** Admissions and what is left to spend stay within the bursts granted plus what the clock earned. */
  ghost predicate WithinShare(p: Policy, vs: seq<Visit>, ob: Option<Bucket>, evictions: nat) {
    && (ob.Some? ==> ob.value.Within(p))
    && (vs != [] ==>
          && (ob.Some? ==> ob.value.last == vs[|vs| - 1].now)
          && Admitted(vs, |vs|) as real + Level(p, ob) <= Bursts(p, evictions) + Earned(p, vs, |vs| - 1))
  }

  /** A visit spends no more than was left, or than the last visit left plus what was earned since. */
  lemma {:induction false} VisitSpends(p: Policy, ob: Option<Bucket>, v: Visit)
    requires p.Valid() && (ob.Some? ==> ob.value.Within(p))
    requires v.pre == OrFull(p, ob, v.now) && Use(p, v.pre, v.now) == (v.post, v.out)
    ensures var spent := if v.out.Allowed? then 1.0 else 0.0;
            && v.post.Within(p) && v.post.last == v.now
            && v.post.tokens + spent <= p.burst
            && (ob.None? ==> v.post.tokens + spent <= Level(p, ob))
            && (ob.Some? ==> v.post.tokens + spent <= Level(p, ob) + Gain(p, ob.value.last, v.now))
  {
    Step(p, v.pre, v.now);
  }

  lemma {:induction false} GainIsNoLoss(p: Policy, from: real, to: real)
    requires p.Valid()
    ensures Gain(p, from, to) >= 0.0
  {}

  lemma {:induction false} OwnShare(p: Policy, vs: seq<Visit>, ob: Option<Bucket>, evictions: nat, v: Visit)
    requires p.Valid() && WithinShare(p, vs, ob, evictions)
    requires v.pre == OrFull(p, ob, v.now) && Use(p, v.pre, v.now) == (v.post, v.out)
    ensures WithinShare(p, vs + [v], Some(v.post), evictions)
  {
    VisitSpends(p, ob, v);
    BurstsTotal(p, evictions);
    Prefixes(p, vs, v, |vs|);
    if vs != [] {
      GainIsNoLoss(p, vs[|vs| - 1].now, v.now);
    }
  }

  lemma {:induction false} ShareHolds(l: Limits, run: seq<Event>, n: nat, vtoken: string)
    requires l.Valid() && IsRun(l, run) && n <= |run| && run != []
    requires vtoken in run[0].pre ==> run[0].pre[vtoken].Within(l.policy)
    ensures WithinShare(l.policy, Own(l, run, n, vtoken), BucketBefore(run, n, vtoken), Evictions(l, run, n, vtoken))
  {
    if n > 0 {
      ShareHolds(l, run, n - 1, vtoken);
      ShareStep(l, run, n - 1, vtoken);
    }
  }

  lemma {:induction false} EvictedShare(p: Policy, vs: seq<Visit>, ob: Option<Bucket>, evictions: nat)
    requires WithinShare(p, vs, ob, evictions)
    ensures WithinShare(p, vs, None, evictions + if ob.Some? then 1 else 0)
  {}

  lemma {:induction false} EvictionIsOfBucket(l: Limits, run: seq<Event>, i: nat, vtoken: string)
    requires l.Valid() && i < |run| && Linked(l, run, i) && Evicts(l, run[i], vtoken)
    ensures run[i].vtoken != vtoken && vtoken in run[i].pre && vtoken !in run[i].post
  {}

  lemma {:induction false} ShareStep(l: Limits, run: seq<Event>, i: nat, vtoken: string)
    requires l.Valid() && IsRun(l, run) && i < |run|
    requires WithinShare(l.policy, Own(l, run, i, vtoken), BucketBefore(run, i, vtoken), Evictions(l, run, i, vtoken))
    ensures WithinShare(l.policy, Own(l, run, i + 1, vtoken), BucketBefore(run, i + 1, vtoken),
                        Evictions(l, run, i + 1, vtoken))
  {
    assert Linked(l, run, i);
    BucketAfter(l, run, i, vtoken);
    var vs, ob, evictions := Own(l, run, i, vtoken), BucketBefore(run, i, vtoken), Evictions(l, run, i, vtoken);
    if Evicts(l, run[i], vtoken) {
      EvictionIsOfBucket(l, run, i, vtoken);
      EvictedShare(l.policy, vs, ob, evictions);
    } else if run[i].vtoken == vtoken {
      OwnCheckIsVisit(l, run, i);
      OwnShare(l.policy, vs, ob, evictions, VisitOf(l, run[i]));
    } else {
      OthersDoNotTouch(l, run, i, vtoken);
    }
  }

  /** A burst, one more for each eviction, and the rate times the clock's forward movement. */
  function Share(p: Policy, vs: seq<Visit>, evictions: nat): real
    requires vs != []
  {
    (evictions + 1) as real * p.burst + p.rate * Movement(vs, 0, |vs| - 1)
  }

  lemma {:induction false} ShareBound(p: Policy, vs: seq<Visit>, ob: Option<Bucket>, evictions: nat)
    requires p.Valid() && WithinShare(p, vs, ob, evictions) && vs != []
    ensures Admitted(vs, |vs|) as real <= Share(p, vs, evictions)
  {
    BurstsTotal(p, evictions);
    EarnedTotal(p, vs, |vs| - 1);
  }

  /** The fair-share bound in the shared limiter, over any block of checks by anyone from any table:
      one burst, one more each time the tenant is evicted, and the rate times the clock's movement. */
  lemma {:induction false} FairShare(l: Limits, run: seq<Event>, vtoken: string)
    requires l.Valid() && IsRun(l, run) && run != []
    requires vtoken in run[0].pre ==> run[0].pre[vtoken].Within(l.policy)
    ensures var vs := Own(l, run, |run|, vtoken);
            vs != [] ==> Admitted(vs, |vs|) as real <= Share(l.policy, vs, Evictions(l, run, |run|, vtoken))
  {
    var vs := Own(l, run, |run|, vtoken);
    ShareHolds(l, run, |run|, vtoken);
    if vs != [] {
      ShareBound(l.policy, vs, BucketBefore(run, |run|, vtoken), Evictions(l, run, |run|, vtoken));
    }
  }

  /** In the shared limiter, from an empty table: an unevicted tenant's check is admitted if and only if
      no block of its checks ending with it then exceeds burst plus rate times movement. */
  lemma {:induction false} AdmittedIffWithinShare(l: Limits, run: seq<Event>, vtoken: string, k: nat)
    requires l.Valid() && IsRun(l, run) && run != [] && run[0].pre == map[]
    requires forall i | 0 <= i < |run| :: !Evicts(l, run[i], vtoken)
    requires k < |Own(l, run, |run|, vtoken)|
    ensures var vs := Own(l, run, |run|, vtoken);
            vs[k].out.Allowed? <==> forall i | 0 <= i <= k :: FitsSince(l.policy, vs, i, k)
  {
    var vs := Own(l, run, |run|, vtoken);
    OwnVisitsAreHistory(l, run, |run|, vtoken);
    FullStart(l.policy, vs, k);
    AdmittedIff(l.policy, vs, k);
  }

  lemma {:induction false} FullStart(p: Policy, vs: seq<Visit>, k: nat)
    requires k < |vs| && vs[0].pre.tokens == p.burst && vs[0].pre.last == vs[0].now
    ensures FitsSinceStart(p, vs, k) <==> FitsSince(p, vs, 0, k)
  {
    NoGain(p, vs[0].now);
    StartAllowanceIsEarned(p, vs, k);
    AllowanceIsEarned(p, vs, 0, k);
  }

  lemma {:induction false} NoGain(p: Policy, now: real)
    ensures Gain(p, now, now) == 0.0
  {}

  // ---------- Isolation ----------

  /** A bucket's history is determined by where it starts and when it is visited. */
  lemma {:induction false} HistoryIsDetermined(p: Policy, vs: seq<Visit>, ws: seq<Visit>, i: nat)
    requires p.Valid() && History(p, vs) && History(p, ws) && i < |vs| == |ws|
    requires forall k | 0 <= k < |vs| :: vs[k].now == ws[k].now
    requires vs[0].pre == ws[0].pre
    ensures vs[i] == ws[i]
  {
    if i > 0 {
      HistoryIsDetermined(p, vs, ws, i - 1);
    }
    assert VisitLinked(p, vs, i) && VisitLinked(p, ws, i);
  }

  /** The tenants that made the first `n` checks. */
  function Tenants(run: seq<Event>, n: nat): set<string>
    requires n <= |run|
  {
    set i | 0 <= i < n :: run[i].vtoken
  }

  lemma {:induction false} TrackedAreTenants(l: Limits, run: seq<Event>, i: nat)
    requires l.Valid() && IsRun(l, run) && i < |run| && run[0].pre == map[]
    ensures run[i].pre.Keys <= Tenants(run, i)
  {
    if i > 0 {
      TrackedAreTenants(l, run, i - 1);
      assert Linked(l, run, i) && Linked(l, run, i - 1);
      assert run[i].pre.Keys <= run[i - 1].pre.Keys + {run[i - 1].vtoken};
    }
  }

  lemma {:induction false} NoEvictionWithinCapacity(l: Limits, run: seq<Event>, i: nat, vtoken: string)
    requires l.Valid() && IsRun(l, run) && i < |run| && run[0].pre == map[]
    requires |Tenants(run, |run|)| <= l.capacity
    ensures !Evicts(l, run[i], vtoken)
  {
    var e := run[i];
    if NeedsRoom(e.pre, l.capacity, e.vtoken) {
      TrackedAreTenants(l, run, i);
      assert e.vtoken in Tenants(run, |run|);
      assert e.pre.Keys + {e.vtoken} <= Tenants(run, |run|);
      SubsetSize(e.pre.Keys + {e.vtoken}, Tenants(run, |run|));
    }
  }

  /** Tenant isolation: in two runs with at most `capacity` tenants each, a tenant that checks at the
      same times gets the same outcomes, whatever the others do (nothing at all, for instance). */
  lemma {:induction false} TenantIsolation(l: Limits, run: seq<Event>, run': seq<Event>, vtoken: string)
    requires l.Valid() && IsRun(l, run) && IsRun(l, run')
    requires run != [] && run[0].pre == map[] && |Tenants(run, |run|)| <= l.capacity
    requires run' != [] && run'[0].pre == map[] && |Tenants(run', |run'|)| <= l.capacity
    requires var vs, ws := Own(l, run, |run|, vtoken), Own(l, run', |run'|, vtoken);
             |vs| == |ws| && forall k | 0 <= k < |vs| :: vs[k].now == ws[k].now
    ensures Own(l, run, |run|, vtoken) == Own(l, run', |run'|, vtoken)
  {
    forall i | 0 <= i < |run| ensures !Evicts(l, run[i], vtoken) {
      NoEvictionWithinCapacity(l, run, i, vtoken);
    }
    forall i | 0 <= i < |run'| ensures !Evicts(l, run'[i], vtoken) {
      NoEvictionWithinCapacity(l, run', i, vtoken);
    }
    OwnVisitsAreHistory(l, run, |run|, vtoken);
    OwnVisitsAreHistory(l, run', |run'|, vtoken);
    var vs, ws := Own(l, run, |run|, vtoken), Own(l, run', |run'|, vtoken);
    forall i | 0 <= i < |vs| ensures vs[i] == ws[i] {
      HistoryIsDetermined(l.policy, vs, ws, i);
    }
  }

  /** When the tenant last checked, among the first `n` events. */
  function LastSeen(run: seq<Event>, n: nat, vtoken: string): Option<real>
    requires n <= |run|
  {
    if n == 0 then None else if run[n - 1].vtoken == vtoken then Some(run[n - 1].now) else LastSeen(run, n - 1, vtoken)
  }

  lemma {:induction false} LastIsLastSeen(l: Limits, run: seq<Event>, i: nat, vtoken: string)
    requires l.Valid() && IsRun(l, run) && i < |run| && run[0].pre == map[] && vtoken in run[i].pre
    ensures LastSeen(run, i, vtoken) == Some(run[i].pre[vtoken].last)
  {
    if i > 0 {
      assert Linked(l, run, i) && Linked(l, run, i - 1);
      if run[i - 1].vtoken != vtoken {
        assert vtoken in run[i - 1].pre && run[i].pre[vtoken] == run[i - 1].pre[vtoken];
        LastIsLastSeen(l, run, i - 1, vtoken);
      }
    }
  }

  /** Whoever is evicted last checked no later than anybody else who is tracked, and eviction happens only
      for a newcomer to a full table. */
  lemma {:induction false} EvictedIsLeastRecent(l: Limits, run: seq<Event>, i: nat, vtoken: string, other: string)
    requires l.Valid() && IsRun(l, run) && i < |run| && run[0].pre == map[]
    requires Evicts(l, run[i], vtoken) && other in run[i].pre
    ensures vtoken in run[i].pre && run[i].vtoken !in run[i].pre && |run[i].pre| >= l.capacity
    ensures var mine, others := LastSeen(run, i, vtoken), LastSeen(run, i, other);
            mine.Some? && others.Some? && mine.value <= others.value
  {
    assert Linked(l, run, i);
    LastIsLastSeen(l, run, i, vtoken);
    LastIsLastSeen(l, run, i, other);
  }

  /** For any run, the table never outgrows its capacity. */
  lemma {:induction false} TableIsBounded(l: Limits, run: seq<Event>, i: nat)
    requires l.Valid() && IsRun(l, run) && i < |run| && |run[0].pre| <= l.capacity
    ensures |run[i].post| <= l.capacity
  {
    if i > 0 {
      TableIsBounded(l, run, i - 1);
    }
    assert Linked(l, run, i);
    CheckBounded(l, run[i].pre, run[i].vtoken, run[i].victim, run[i].post);
  }

  lemma {:induction false} CheckBounded(l: Limits, m: Buckets, vtoken: string, victim: string, m': Buckets)
    requires l.capacity > 0 && |m| <= l.capacity
    requires NeedsRoom(m, l.capacity, vtoken) ==> victim in m
    requires m'.Keys == Room(m, l.capacity, vtoken, victim).Keys + {vtoken}
    ensures |m'| <= l.capacity
  {
    var room := Room(m, l.capacity, vtoken, victim);
    if NeedsRoom(m, l.capacity, vtoken) {
      assert room.Keys == m.Keys - {victim};
    }
    assert |m'.Keys| <= |room.Keys| + (if vtoken in room then 0 else 1) by {
      assert vtoken in room ==> m'.Keys == room.Keys;
    }
  }

  // ---------- The limiter object ----------

  const BOT_RATE_LIMIT_MAX_ENTRIES: nat := 4096

  class VtokenRateLimiter {
    var buckets: Buckets
    var poisoned: bool
    var ratePerSec: real
    var burst: real
    const capacity: nat

    ghost predicate Valid()
      reads this
    {
      Policy(ratePerSec, burst).Valid()
    }

    constructor (ratePerSec: F64, burst: F64)
      ensures Valid() && buckets == map[] && !poisoned && capacity == 4096
      ensures this.ratePerSec == if ratePerSec.Finite? && ratePerSec.value > 0.0 then ratePerSec.value else 0.001
      ensures this.burst == if burst.Finite? && burst.value >= 1.0 then burst.value else 1.0
    {
      buckets, poisoned := map[], false;
      this.ratePerSec, this.burst := SanitizeRate(ratePerSec), SanitizeBurst(burst);
      capacity := BOT_RATE_LIMIT_MAX_ENTRIES;
    }

    /** A least recently used key, scanning the table in any order. */
    static method OldestKey(m: Buckets) returns (oldest: string)
      requires m != map[]
      ensures Oldest(m, oldest)
    {
      var rest := m.Keys;
      oldest :| oldest in rest;
      rest := rest - {oldest};
      while rest != {}
        invariant rest <= m.Keys && oldest in m
        invariant forall k | k in m && k !in rest :: m[oldest].last <= m[k].last
        decreases |rest|
      {
        var k :| k in rest;
        if m[k].last < m[oldest].last {
          oldest := k;
        }
        rest := rest - {k};
      }
    }

    /** Refill one bucket up to `now` and take a token if there is one. */
    method Spend(bucket: Bucket, now: real) returns (b: Bucket, out: Outcome)
      requires Valid()
      ensures (b, out) == Use(Policy(ratePerSec, burst), bucket, now)
    {
      var elapsed := Forward(bucket.last, now);
      b := bucket.(tokens := Least(bucket.tokens + elapsed * ratePerSec, burst), last := now);
      if b.tokens >= 1.0 {
        b := b.(tokens := b.tokens - 1.0);
        out := Allowed(b.tokens);
      } else {
        b := b.(rejected := Min(b.rejected + 1, U64_MAX));
        out := Denied((1.0 - b.tokens) / ratePerSec);
      }
    }

    /** A poisoned table fails open. */
    method CheckAt(vtoken: string, now: real) returns (out: Outcome, ghost victim: string)
      requires Valid()
      modifies this`buckets
      ensures poisoned ==> buckets == old(buckets) && out == Allowed(burst)
      ensures !poisoned ==>
                && (NeedsRoom(old(buckets), capacity, vtoken) ==> Oldest(old(buckets), victim))
                && (buckets, out) == Check(Policy(ratePerSec, burst), capacity, old(buckets), vtoken, now, victim)
    {
      victim := "";
      if poisoned {
        return Allowed(burst), victim;
      }
      if |buckets| >= capacity && vtoken !in buckets && buckets != map[] {
        var oldest := OldestKey(buckets);
        buckets := buckets - {oldest};
        victim := oldest;
      }
      ghost var room := buckets;
      if vtoken !in buckets {
        buckets := buckets[vtoken := Bucket(burst, now, 0)];
      }
      var bucket;
      bucket, out := Spend(buckets[vtoken], now);
      buckets := buckets[vtoken := bucket];
      assert buckets == room[vtoken := bucket];
    }
  }
}
