/** The pairing endpoint's per-address limiter: a log of recent creations, pruned on every request
    and capped in the number of addresses. */
module SlidingLog {
  import opened Base

  const QR_CREATE_MAX: nat := 20
  const QR_CREATE_WINDOW: nat := 60 * NANOS_PER_SEC
  const QR_CREATE_MAX_ENTRIES: nat := 4096

  type Table = map<string, seq<int>>

  predicate IsRecent(t: int, now: int) {
    Elapsed(now, t) < QR_CREATE_WINDOW
  }

  function Recent(times: seq<int>, now: int): seq<int> {
    if times == [] then [] else
      var rest := Recent(times[..|times| - 1], now);
      if IsRecent(times[|times| - 1], now) then rest + [times[|times| - 1]] else rest
  }

  function Times(t: Table, ip: string): seq<int> {
    if ip in t then t[ip] else []
  }

  function Pruned(t: Table, now: int): Table {
    map ip | ip in t && Recent(t[ip], now) != [] :: Recent(t[ip], now)
  }

  predicate NeedsRoom(t: Table, ip: string) {
    |t| >= QR_CREATE_MAX_ENTRIES && ip !in t
  }

  /** `victim` is an address whose oldest remembered request is oldest of all. */
  ghost predicate OldestFirst(t: Table, victim: string) {
    && victim in t && t[victim] != []
    && forall ip | ip in t && t[ip] != [] :: t[victim][0] <= t[ip][0]
  }

  function Check(t: Table, ip: string, now: int, victim: string): (Table, bool) {
    var p := Pruned(t, now);
    if |Times(p, ip)| >= QR_CREATE_MAX then (p, false)
    else
      var room := if NeedsRoom(p, ip) then p - {victim} else p;
      (room[ip := Times(room, ip) + [now]], true)
  }

  class QrCreateRateLimiter {
    var attempts: Table

    constructor ()
      ensures attempts == map[]
    {
      attempts := map[];
    }

    static method OldestAddress(t: Table) returns (oldest: string)
      requires t != map[] && forall ip | ip in t :: t[ip] != []
      ensures OldestFirst(t, oldest)
    {
      var rest := t.Keys;
      oldest :| oldest in rest;
      rest := rest - {oldest};
      while rest != {}
        invariant rest <= t.Keys && oldest in t
        invariant forall ip | ip in t && ip !in rest :: t[oldest][0] <= t[ip][0]
        decreases |rest|
      {
        var ip :| ip in rest;
        if t[ip][0] < t[oldest][0] {
          oldest := ip;
        }
        rest := rest - {ip};
      }
    }

    method CheckAndRecord(ip: string, now: int) returns (ok: bool, ghost victim: string)
      modifies this
      ensures (attempts, ok) == Check(old(attempts), ip, now, victim)
      ensures NeedsRoom(Pruned(old(attempts), now), ip) ==> OldestFirst(Pruned(old(attempts), now), victim)
    {
      victim := "";
      attempts := map a | a in attempts && Recent(attempts[a], now) != [] :: Recent(attempts[a], now);
      var current := if ip in attempts then |attempts[ip]| else 0;
      if current >= QR_CREATE_MAX {
        return false, victim;
      }
      if |attempts| >= QR_CREATE_MAX_ENTRIES && ip !in attempts {
        var oldest := OldestAddress(attempts);
        victim := oldest;
        attempts := attempts - {oldest};
      }
      attempts := attempts[ip := Times(attempts, ip) + [now]];
      return true, victim;
    }
  }

  // ---------- Runs ----------

  /** One request; `displaced` says whether it made room by forgetting `victim`. */
  datatype Event = Event(ip: string, now: int, victim: string, displaced: bool, pre: Table, post: Table, ok: bool)

  predicate Displaces(e: Event, ip: string) {
    e.displaced && e.victim == ip
  }

  ghost predicate Linked(run: seq<Event>, i: nat)
    requires i < |run|
  {
    var e := run[i];
    && Check(e.pre, e.ip, e.now, e.victim) == (e.post, e.ok)
    && e.displaced == (e.ok && NeedsRoom(Pruned(e.pre, e.now), e.ip))
    && (e.displaced ==> OldestFirst(Pruned(e.pre, e.now), e.victim))
    && e.pre == if i == 0 then map[] else run[i - 1].post
  }

  ghost predicate IsRun(run: seq<Event>) {
    && (forall i | 0 <= i < |run| :: Linked(run, i))
    && (forall i, j | 0 <= i < j < |run| :: run[i].now <= run[j].now)
  }

  /** From the full history: requests of `ip` admitted within the last minute before `now`, among the
      first `n`, since `ip` was last displaced. */
  function RecentAdmissions(run: seq<Event>, n: nat, ip: string, now: int): nat
    requires n <= |run|
  {
    if n == 0 || Displaces(run[n - 1], ip) then 0
    else if run[n - 1].ip == ip && run[n - 1].ok && now - run[n - 1].now < 60 * NANOS_PER_SEC
    then RecentAdmissions(run, n - 1, ip, now) + 1
    else RecentAdmissions(run, n - 1, ip, now)
  }

  /** Pruning early loses nothing that would still count later. */
  lemma {:induction false} RecentOfRecent(times: seq<int>, now: int, later: int)
    requires now <= later
    ensures Recent(Recent(times, now), later) == Recent(times, later)
  {
    if times != [] {
      var rest, t := times[..|times| - 1], times[|times| - 1];
      RecentOfRecent(rest, now, later);
      if IsRecent(t, now) {
        assert (Recent(rest, now) + [t])[..|Recent(rest, now)|] == Recent(rest, now);
      }
    }
  }

  lemma {:induction false} TimesOfPruned(t: Table, ip: string, now: int)
    ensures Times(Pruned(t, now), ip) == Recent(Times(t, ip), now)
  {}

  /** What one request leaves behind for any address. */
  lemma {:induction false} TimesAfter(run: seq<Event>, i: nat, ip: string)
    requires IsRun(run) && i < |run|
    ensures var e := run[i];
            && (e.ok <==> |Recent(Times(e.pre, e.ip), e.now)| < QR_CREATE_MAX)
            && Times(e.post, ip) ==
               if Displaces(e, ip) then []
               else Recent(Times(e.pre, ip), e.now) + (if e.ip == ip && e.ok then [e.now] else [])
  {
    assert Linked(run, i);
    TimesOfPruned(run[i].pre, ip, run[i].now);
    TimesOfPruned(run[i].pre, run[i].ip, run[i].now);
  }

  lemma {:induction false} RecentOfAppend(times: seq<int>, t: int, now: int)
    ensures Recent(times + [t], now) == Recent(times, now) + (if IsRecent(t, now) then [t] else [])
  {
    assert (times + [t])[..|times|] == times;
  }

  lemma {:induction false} CountStep(before: seq<int>, after: seq<int>, at: int, now: int, displaced: bool, own: bool)
    requires at <= now
    requires after == if displaced then [] else Recent(before, at) + (if own then [at] else [])
    ensures |Recent(after, now)| ==
            if displaced then 0 else |Recent(before, now)| + (if own && IsRecent(at, now) then 1 else 0)
  {
    RecentOfRecent(before, at, now);
    RecentOfAppend(Recent(before, at), at, now);
    if !displaced && !own {
      assert after == Recent(before, at);
    }
  }

  lemma {:induction false} LogCountsHistory(run: seq<Event>, n: nat, ip: string, now: int)
    requires IsRun(run) && n < |run| && run[n].now <= now
    ensures |Recent(Times(run[n].pre, ip), now)| == RecentAdmissions(run, n, ip, now)
  {
    PreIsPost(run, n);
    if n > 0 {
      var e := run[n - 1];
      LogCountsHistory(run, n - 1, ip, now);
      TimesAfter(run, n - 1, ip);
      CountStep(Times(e.pre, ip), Times(e.post, ip), e.now, now, Displaces(e, ip), e.ip == ip && e.ok);
    } else {
      assert Times(run[n].pre, ip) == [];
    }
  }

  lemma {:induction false} PreIsPost(run: seq<Event>, i: nat)
    requires IsRun(run) && i < |run|
    ensures run[i].pre == if i == 0 then map[] else run[i - 1].post
  {
    assert Linked(run, i);
  }

  /** A request is refused exactly when twenty admitted requests of its address, in the full history
      since the address was last displaced, lie within the last minute; pruning is invisible. */
  lemma {:induction false} RefusedIffTwentyRecent(run: seq<Event>, i: nat)
    requires IsRun(run) && i < |run|
    ensures !run[i].ok <==> RecentAdmissions(run, i, run[i].ip, run[i].now) >= 20
  {
    LogCountsHistory(run, i, run[i].ip, run[i].now);
    TimesAfter(run, i, run[i].ip);
  }

  /** An address is displaced exactly when an admitted request of an address with nothing recent finds
      4096 others that have, and then it is one of those. */
  lemma {:induction false} DisplacedIffFull(run: seq<Event>, i: nat, recent: set<string>)
    requires IsRun(run) && i < |run|
    requires forall ip :: ip in recent <==> RecentAdmissions(run, i, ip, run[i].now) > 0
    ensures run[i].displaced <==> run[i].ok && run[i].ip !in recent && |recent| >= 4096
    ensures run[i].displaced ==> run[i].victim in recent
  {
    var kept := Pruned(run[i].pre, run[i].now);
    assert Linked(run, i);
    forall ip ensures ip in kept <==> ip in recent {
      LogCountsHistory(run, i, ip, run[i].now);
      TimesOfPruned(run[i].pre, ip, run[i].now);
    }
    assert kept.Keys == recent;
  }
}
