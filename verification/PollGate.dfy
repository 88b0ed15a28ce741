/** The admission gate of the long-poll endpoint: an atomic Hub-wide total checked before a locked
    per-vtoken count. Each atomic operation of `enter` and of dropping the guard is one step; any
    number of workers interleave their steps freely, and the lock may become poisoned at any time. */
module PollGate {
  import opened Base

  /** Where a worker stands between atomic steps. A guard is `counted` if the lock was not poisoned
      when it was taken. */
  datatype Pc =
    | Idle
    | Reserved(vtoken: string)
    | Refused(vtoken: string)
    | Holding(vtoken: string, counted: bool)
    | Releasing(vtoken: string, counted: bool)

  datatype Tracker = Tracker(
    total: int, hubCap: nat, counts: map<string, nat>, poisoned: bool, workers: seq<Pc>)

  datatype Action =
    | FetchAdd(i: nat, vtoken: string)  // enter: total += 1, compare the previous value with the cap
    | RollBack(i: nat)                  // enter, over the cap: total -= 1
    | LockAndCount(i: nat)              // enter, under the cap: count the poll, or find the lock poisoned
    | DropTotal(i: nat)                 // drop: total -= 1
    | DropCount(i: nat)                 // drop: uncount the poll, unless the lock is poisoned
    | Poison

  function Incremented(counts: map<string, nat>, v: string): map<string, nat> {
    counts[v := (if v in counts then counts[v] else 0) + 1]
  }

  /** Saturating decrement; an entry that reaches zero is removed. */
  function Decremented(counts: map<string, nat>, v: string): map<string, nat> {
    if v !in counts then counts
    else if counts[v] <= 1 then counts - {v}
    else counts[v := counts[v] - 1]
  }

  predicate Enabled(s: Tracker, a: Action) {
    match a
    case FetchAdd(i, _) => i < |s.workers| && s.workers[i].Idle?
    case RollBack(i) => i < |s.workers| && s.workers[i].Refused?
    case LockAndCount(i) => i < |s.workers| && s.workers[i].Reserved?
    case DropTotal(i) => i < |s.workers| && s.workers[i].Holding?
    case DropCount(i) => i < |s.workers| && s.workers[i].Releasing?
    case Poison => true
  }

  function Next(s: Tracker, a: Action): Tracker
    requires Enabled(s, a)
  {
    match a
    case FetchAdd(i, v) =>
      s.(total := s.total + 1,
         workers := s.workers[i := if s.total >= s.hubCap then Refused(v) else Reserved(v)])
    case RollBack(i) => s.(total := s.total - 1, workers := s.workers[i := Idle])
    case LockAndCount(i) =>
      var v := s.workers[i].vtoken;
      s.(counts := if s.poisoned then s.counts else Incremented(s.counts, v),
         workers := s.workers[i := Holding(v, !s.poisoned)])
    case DropTotal(i) =>
      s.(total := s.total - 1, workers := s.workers[i := Releasing(s.workers[i].vtoken, s.workers[i].counted)])
    case DropCount(i) =>
      s.(counts := if s.poisoned then s.counts else Decremented(s.counts, s.workers[i].vtoken),
         workers := s.workers[i := Idle])
    case Poison => s.(poisoned := true)
  }

  // ---------- Counting workers ----------

  datatype Role = Live | InFlight | Admitted | CountedFor(v: string)

  predicate Has(role: Role, pc: Pc) {
    match role
    case Live => pc.Holding?
    case InFlight => pc.Reserved? || pc.Refused?
    case Admitted => pc.Reserved? || pc.Holding?
    case CountedFor(v) => (pc.Holding? || pc.Releasing?) && pc.counted && pc.vtoken == v
  }

  function One(b: bool): nat {
    if b then 1 else 0
  }

  function Count(ws: seq<Pc>, role: Role): nat {
    if ws == [] then 0 else One(Has(role, ws[0])) + Count(ws[1..], role)
  }

  lemma {:induction false} CountUpdate(ws: seq<Pc>, i: nat, pc: Pc, role: Role)
    requires i < |ws|
    ensures Count(ws[i := pc], role) == Count(ws, role) - One(Has(role, ws[i])) + One(Has(role, pc))
  {
    if i == 0 {
      assert ws[i := pc][1..] == ws[1..];
    } else {
      CountUpdate(ws[1..], i - 1, pc, role);
      assert ws[i := pc][1..] == ws[1..][i - 1 := pc];
    }
  }

  lemma {:induction false} CountPositive(ws: seq<Pc>, i: nat, role: Role)
    requires i < |ws| && Has(role, ws[i])
    ensures Count(ws, role) > 0
  {
    if i > 0 {
      CountPositive(ws[1..], i - 1, role);
    }
  }

  lemma {:induction false} LiveAreAdmitted(ws: seq<Pc>)
    ensures Count(ws, Live) <= Count(ws, Admitted) <= Count(ws, Live) + Count(ws, InFlight)
  {
    if ws != [] {
      LiveAreAdmitted(ws[1..]);
    }
  }

  lemma {:induction false} CountZero(ws: seq<Pc>, role: Role)
    requires forall i | 0 <= i < |ws| :: !Has(role, ws[i])
    ensures Count(ws, role) == 0
  {
    if ws != [] {
      CountZero(ws[1..], role);
    }
  }

  // ---------- The invariant ----------

  ghost predicate CountsExact(s: Tracker) {
    && (forall v | v in s.counts :: s.counts[v] == Count(s.workers, CountedFor(v)) && s.counts[v] > 0)
    && (forall v | v !in s.counts :: Count(s.workers, CountedFor(v)) == 0)
  }

  ghost predicate AllCounted(ws: seq<Pc>) {
    forall i | 0 <= i < |ws| && (ws[i].Holding? || ws[i].Releasing?) :: ws[i].counted
  }

  ghost predicate Inv(s: Tracker) {
    && s.total == Count(s.workers, Live) + Count(s.workers, InFlight)
    && Count(s.workers, Admitted) <= s.hubCap
    && (!s.poisoned ==> CountsExact(s) && AllCounted(s.workers))
  }

  ghost predicate Initial(s: Tracker) {
    s.total == 0 && s.counts == map[] && !s.poisoned && forall i | 0 <= i < |s.workers| :: s.workers[i].Idle?
  }

  lemma {:induction false} InitialInv(s: Tracker)
    requires Initial(s)
    ensures Inv(s)
  {
    CountZero(s.workers, Live);
    CountZero(s.workers, InFlight);
    CountZero(s.workers, Admitted);
    forall v ensures Count(s.workers, CountedFor(v)) == 0 {
      CountZero(s.workers, CountedFor(v));
    }
  }

  /** Moving worker `i` changes the per-vtoken counts only for the vtoken it is counted under. */
  lemma {:induction false} CountsAfter(ws: seq<Pc>, i: nat, pc: Pc)
    requires i < |ws|
    ensures forall v :: Count(ws[i := pc], CountedFor(v)) ==
              Count(ws, CountedFor(v)) - One(Has(CountedFor(v), ws[i])) + One(Has(CountedFor(v), pc))
  {
    forall v ensures Count(ws[i := pc], CountedFor(v)) ==
              Count(ws, CountedFor(v)) - One(Has(CountedFor(v), ws[i])) + One(Has(CountedFor(v), pc)) {
      CountUpdate(ws, i, pc, CountedFor(v));
    }
  }

  lemma {:induction false} TotalStep(s: Tracker, a: Action)
    requires Inv(s) && Enabled(s, a) && !a.Poison?
    ensures var t := Next(s, a);
            && t.total == Count(t.workers, Live) + Count(t.workers, InFlight)
            && Count(t.workers, Admitted) <= t.hubCap
    ensures a.RollBack? || a.DropTotal? ==> s.total >= 1
  {
    LiveAreAdmitted(s.workers);
    var pc := Next(s, a).workers[a.i];
    CountUpdate(s.workers, a.i, pc, Live);
    CountUpdate(s.workers, a.i, pc, InFlight);
    CountUpdate(s.workers, a.i, pc, Admitted);
    if a.RollBack? {
      CountPositive(s.workers, a.i, InFlight);
    }
    if a.DropTotal? {
      CountPositive(s.workers, a.i, Live);
    }
  }

  lemma {:induction false} LockStep(s: Tracker, i: nat)
    requires CountsExact(s) && Enabled(s, LockAndCount(i)) && !s.poisoned
    ensures CountsExact(Next(s, LockAndCount(i)))
  {
    CountsAfter(s.workers, i, Holding(s.workers[i].vtoken, true));
  }

  lemma {:induction false} DropStep(s: Tracker, i: nat)
    requires CountsExact(s) && Enabled(s, DropCount(i)) && s.workers[i].counted && !s.poisoned
    ensures CountsExact(Next(s, DropCount(i)))
  {
    CountsAfter(s.workers, i, Idle);
    CountPositive(s.workers, i, CountedFor(s.workers[i].vtoken));
  }

  /** The other steps touch neither the counts nor who is counted. */
  lemma {:induction false} TotalOnlyStep(s: Tracker, a: Action)
    requires CountsExact(s) && Enabled(s, a) && (a.FetchAdd? || a.RollBack? || a.DropTotal?)
    ensures CountsExact(Next(s, a))
  {
    CountsAfter(s.workers, a.i, Next(s, a).workers[a.i]);
  }

  lemma {:induction false} AllCountedStep(s: Tracker, a: Action)
    requires AllCounted(s.workers) && Enabled(s, a) && !s.poisoned
    ensures AllCounted(Next(s, a).workers)
  {}

  /** Every atomic step keeps the invariant, and no decrement ever finds the total at zero. */
  lemma {:induction false} StepInv(s: Tracker, a: Action)
    requires Inv(s) && Enabled(s, a)
    ensures Inv(Next(s, a))
    ensures a.RollBack? || a.DropTotal? ==> s.total >= 1
  {
    if !a.Poison? {
      TotalStep(s, a);
      if !s.poisoned {
        AllCountedStep(s, a);
        if a.LockAndCount? {
          LockStep(s, a.i);
        } else if a.DropCount? {
          DropStep(s, a.i);
        } else {
          TotalOnlyStep(s, a);
        }
      }
    }
  }

  // ---------- Every interleaving ----------

  ghost predicate StepAt(states: seq<Tracker>, acts: seq<Action>, i: nat)
    requires i < |acts| && |states| == |acts| + 1
  {
    Enabled(states[i], acts[i]) && states[i + 1] == Next(states[i], acts[i])
  }

  ghost predicate IsRun(states: seq<Tracker>, acts: seq<Action>) {
    && |states| == |acts| + 1 && Initial(states[0])
    && forall i | 0 <= i < |acts| :: StepAt(states, acts, i)
  }

  lemma {:induction false} RunInv(states: seq<Tracker>, acts: seq<Action>, n: nat)
    requires IsRun(states, acts) && n < |states|
    ensures Inv(states[n])
  {
    if n == 0 {
      InitialInv(states[0]);
    } else {
      RunInv(states, acts, n - 1);
      assert StepAt(states, acts, n - 1);
      StepInv(states[n - 1], acts[n - 1]);
    }
  }

  /** In every interleaving: live guards never exceed the cap, the total is the live guards plus the
      attempts in flight, no decrement underflows even after poisoning, and until then each vtoken's
      count is the number of its counted guards, with no entry exactly when there are none. */
  lemma {:induction false} GateIsSafe(states: seq<Tracker>, acts: seq<Action>, n: nat)
    requires IsRun(states, acts) && n < |states|
    ensures var s := states[n];
            && Count(s.workers, Live) <= s.hubCap
            && s.total == Count(s.workers, Live) + Count(s.workers, InFlight)
            && (n < |acts| && (acts[n].RollBack? || acts[n].DropTotal?) ==> s.total >= 1)
            && (!s.poisoned ==> forall v ::
                  && (v in s.counts <==> Count(s.workers, CountedFor(v)) > 0)
                  && (v in s.counts ==> s.counts[v] == Count(s.workers, CountedFor(v))))
  {
    RunInv(states, acts, n);
    LiveAreAdmitted(states[n].workers);
    if n < |acts| {
      assert StepAt(states, acts, n);
      StepInv(states[n], acts[n]);
    }
  }

  /** Nothing leaks: once every worker is idle the gate is back where it started. */
  lemma {:induction false} QuietGateIsEmpty(states: seq<Tracker>, acts: seq<Action>, n: nat)
    requires IsRun(states, acts) && n < |states|
    requires forall i | 0 <= i < |states[n].workers| :: states[n].workers[i].Idle?
    ensures states[n].total == 0
    ensures !states[n].poisoned ==> states[n].counts == map[]
  {
    RunInv(states, acts, n);
    var ws := states[n].workers;
    CountZero(ws, Live);
    CountZero(ws, InFlight);
    forall v ensures Count(ws, CountedFor(v)) == 0 {
      CountZero(ws, CountedFor(v));
    }
    assert !states[n].poisoned ==> forall v :: v !in states[n].counts;
  }

  /** An attempt is refused exactly when guards and attempts in flight together fill the cap. */
  lemma {:induction false} RefusedIffFull(s: Tracker, i: nat, v: string)
    requires Inv(s) && Enabled(s, FetchAdd(i, v))
    ensures Next(s, FetchAdd(i, v)).workers[i].Refused? <==>
            Count(s.workers, Live) + Count(s.workers, InFlight) >= s.hubCap
  {}

  /** Attempts that are themselves about to be refused count too, so a poll can be refused while no
      guard is live: B is refused because of A, A leaves, and C is refused because of B. */
  lemma {:induction false} RefusedByRefused(a: string, b: string, c: string) returns (states: seq<Tracker>)
    ensures IsRun(states, [FetchAdd(0, a), LockAndCount(0), FetchAdd(1, b), DropTotal(0), FetchAdd(2, c)])
    ensures states[5].hubCap == 1 && states[5].workers == [Releasing(a, true), Refused(b), Refused(c)]
    ensures Count(states[5].workers, Live) == 0
  {
    var acts := [FetchAdd(0, a), LockAndCount(0), FetchAdd(1, b), DropTotal(0), FetchAdd(2, c)];
    var s0 := Tracker(0, 1, map[], false, [Idle, Idle, Idle]);
    var s1 := Tracker(1, 1, map[], false, [Reserved(a), Idle, Idle]);
    var s2 := Tracker(1, 1, map[a := 1], false, [Holding(a, true), Idle, Idle]);
    var s3 := Tracker(2, 1, map[a := 1], false, [Holding(a, true), Refused(b), Idle]);
    var s4 := Tracker(1, 1, map[a := 1], false, [Releasing(a, true), Refused(b), Idle]);
    var s5 := Tracker(2, 1, map[a := 1], false, [Releasing(a, true), Refused(b), Refused(c)]);
    states := [s0, s1, s2, s3, s4, s5];
    assert s2.counts == Incremented(s1.counts, a);
    CountZero(s5.workers, Live);
  }

  // ---------- The tracker object ----------

  datatype EnterOutcome = Entered(perVtoken: nat) | HubLimitReached(total: int, cap: nat) | PoisonedLock

  /** `enter` and the guard's drop, when nothing interleaves: each runs its own steps back to back. */
  class PollTracker {
    var total: int
    const hubCap: nat
    var counts: map<string, nat>
    var poisoned: bool
    ghost var workers: seq<Pc>

    ghost function View(): Tracker
      reads this
    {
      Tracker(total, hubCap, counts, poisoned, workers)
    }

    constructor (cap: nat, ghost n: nat)
      ensures Initial(View()) && hubCap == cap && |workers| == n
    {
      total, hubCap, counts, poisoned := 0, cap, map[], false;
      workers := seq(n, i => Idle);
    }

    method Enter(vtoken: string, ghost i: nat) returns (outcome: EnterOutcome)
      requires Inv(View()) && Enabled(View(), FetchAdd(i, vtoken))
      modifies this
      ensures Inv(View())
      ensures var reserved := Next(old(View()), FetchAdd(i, vtoken));
              if outcome.HubLimitReached? then
                && outcome == HubLimitReached(old(total), hubCap) && View() == old(View())
                && Enabled(reserved, RollBack(i)) && View() == Next(reserved, RollBack(i))
              else
                && Enabled(reserved, LockAndCount(i)) && View() == Next(reserved, LockAndCount(i))
                && (outcome.PoisonedLock? <==> poisoned)
                && (outcome.Entered? ==> outcome.perVtoken == Count(workers, CountedFor(vtoken)) >= 1)
    {
      StepInv(View(), FetchAdd(i, vtoken));
      var prevTotal := total;
      total := total + 1;
      if prevTotal >= hubCap {
        workers := workers[i := Refused(vtoken)];
        StepInv(View(), RollBack(i));
        total := total - 1;
        workers := workers[i := Idle];
        assert workers == old(workers);
        return HubLimitReached(prevTotal, hubCap);
      }
      workers := workers[i := Reserved(vtoken)];
      StepInv(View(), LockAndCount(i));
      workers := workers[i := Holding(vtoken, !poisoned)];
      if poisoned {
        return PoisonedLock;
      }
      counts := Incremented(counts, vtoken);
      return Entered(counts[vtoken]);
    }

    method Drop(vtoken: string, ghost i: nat)
      requires Inv(View()) && Enabled(View(), DropTotal(i)) && workers[i].vtoken == vtoken
      modifies this
      ensures Inv(View())
      ensures var released := Next(old(View()), DropTotal(i));
              Enabled(released, DropCount(i)) && View() == Next(released, DropCount(i))
    {
      StepInv(View(), DropTotal(i));
      total := total - 1;
      workers := workers[i := Releasing(vtoken, workers[i].counted)];
      StepInv(View(), DropCount(i));
      workers := workers[i := Idle];
      if poisoned {
        return;
      }
      if vtoken in counts {
        counts := Decremented(counts, vtoken);
      }
    }
  }
}
