/** One-shot grants of agent-to-agent calls. A call overwrites the target's active row for the
    conversation, lets the target work, and then rolls the store back to its snapshot. */
module A2aGrant {
  import opened Base

  /** Conversation and target vtoken. */
  type Pair = (string, string)

  /** An `active_sessions` row: session name and call depth. */
  datatype Row = Row(name: string, depth: nat)

  /** `active_sessions` has one row per pair; `backend_sessions_v2` maps names to backend ids. */
  datatype Store = Store(active: map<Pair, Row>, sessions: map<Pair, map<string, string>>)

  function ActiveRow(s: Store, p: Pair): Option<Row> {
    if p in s.active then Some(s.active[p]) else None
  }

  function SessionsOf(s: Store, p: Pair): map<string, string> {
    if p in s.sessions then s.sessions[p] else map[]
  }

  /** What a call remembers of the target's state. Without a session snapshot nothing is reclaimed. */
  datatype Snapshot = Snapshot(prevActive: Option<Row>, preSessions: Option<set<string>>)

  function Snap(s: Store, p: Pair): Snapshot {
    Snapshot(ActiveRow(s, p), Some(SessionsOf(s, p).Keys))
  }

  /** Depth is an unsigned byte; the increment saturates. */
  function GrantRow(key: string, depth: nat): Row {
    Row(key, Min(depth + 1, 255))
  }

  function Grant(s: Store, p: Pair, key: string, depth: nat): Store {
    s.(active := s.active[p := GrantRow(key, depth)])
  }

  function Restored(row: Option<Row>, key: string, prev: Option<Row>): Option<Row> {
    if row.Some? && row.value.name != key then row else prev
  }

  function WithRow(active: map<Pair, Row>, p: Pair, row: Option<Row>): map<Pair, Row> {
    if row.Some? then active[p := row.value] else active - {p}
  }

  function Kept(rows: map<string, string>, pre: Option<set<string>>): map<string, string> {
    if pre.None? then rows else map n | n in rows && n in pre.value :: rows[n]
  }

  function Release(s: Store, p: Pair, key: string, snap: Snapshot): Store {
    Store(WithRow(s.active, p, Restored(ActiveRow(s, p), key, snap.prevActive)),
          if p in s.sessions then s.sessions[p := Kept(s.sessions[p], snap.preSessions)] else s.sessions)
  }

  // ---------- The store object ----------

  class SessionStore {
    var active: map<Pair, Row>
    var sessions: map<Pair, map<string, string>>

    function View(): Store
      reads this
    {
      Store(active, sessions)
    }

    constructor (active: map<Pair, Row>, sessions: map<Pair, map<string, string>>)
      ensures View() == Store(active, sessions)
    {
      this.active, this.sessions := active, sessions;
    }

    method DeleteActiveSessionIfName(p: Pair, name: string)
      modifies this`active
      ensures active == if p in old(active) && old(active)[p].name == name then old(active) - {p} else old(active)
    {
      if p in active && active[p].name == name {
        active := active - {p};
      }
    }

    method DeleteBackendSession(p: Pair, name: string)
      modifies this`sessions
      ensures p !in old(sessions) ==> sessions == old(sessions)
      ensures p in old(sessions) ==> sessions == old(sessions)[p := old(sessions)[p] - {name}]
    {
      if p in sessions {
        sessions := sessions[p := sessions[p] - {name}];
      }
    }

    /** Snapshot the target and write the call-scoped row. */
    method BeginCall(p: Pair, key: string, depth: nat) returns (snap: Snapshot)
      modifies this`active
      ensures snap == Snap(old(View()), p)
      ensures View() == Grant(old(View()), p, key, depth)
      ensures active[p] == Row(key, if depth < 255 then depth + 1 else 255)
    {
      var prevActive := ActiveRow(View(), p);
      var preSessions := SessionsOf(View(), p).Keys;
      snap := Snapshot(prevActive, Some(preSessions));
      active := active[p := Row(key, Min(depth + 1, 255))];
    }

    /** Drop the call's own row, restore the previous one if the pair has none now, and delete every
        backend session that was not there before. */
    method ReleaseA2aGrant(p: Pair, key: string, snap: Snapshot)
      modifies this
      ensures View() == Release(old(View()), p, key, snap)
    {
      DeleteActiveSessionIfName(p, key);
      if p !in active && snap.prevActive.Some? {
        active := active[p := snap.prevActive.value];
      }
      if snap.preSessions.Some? {
        ReclaimSessions(p, snap.preSessions.value);
      }
      assert active == Release(old(View()), p, key, snap).active;
      if p in old(sessions) && snap.preSessions.None? {
        assert sessions == old(sessions)[p := old(sessions)[p]];
      }
    }

    method ReclaimSessions(p: Pair, pre: set<string>)
      modifies this`sessions
      ensures p !in old(sessions) ==> sessions == old(sessions)
      ensures p in old(sessions) ==> sessions == old(sessions)[p := Kept(old(sessions)[p], Some(pre))]
    {
      if p !in sessions {
        return;
      }
      ghost var before := sessions[p];
      var rows := sessions[p].Keys;
      assert sessions == sessions[p := Remaining(before, rows, pre)] by {
        assert Remaining(before, rows, pre) == before;
      }
      while rows != {}
        invariant rows <= before.Keys
        invariant sessions == old(sessions)[p := Remaining(before, rows, pre)]
        decreases |rows|
      {
        var name :| name in rows;
        if name !in pre {
          DeleteBackendSession(p, name);
        }
        assert Remaining(before, rows - {name}, pre) ==
               if name in pre then Remaining(before, rows, pre) else Remaining(before, rows, pre) - {name};
        rows := rows - {name};
      }
      assert Remaining(before, {}, pre) == Kept(before, Some(pre));
    }
  }

  /** The sessions left when those in `rows` have yet to be looked at. */
  ghost function Remaining(before: map<string, string>, rows: set<string>, pre: set<string>): map<string, string> {
    map n | n in before && (n in rows || n in pre) :: before[n]
  }

  // ---------- Nested calls ----------

  /** What can happen to the store: a call with everything that happens while it waits, or another
      writer (dispatch, `/use`, a reply that names a session). */
  datatype Act =
    | Call(p: Pair, key: string, depth: nat, body: seq<Act>)
    | WriteRow(p: Pair, row: Row)
    | DeleteRow(p: Pair)
    | PutSession(p: Pair, name: string, id: string)
    | DropSession(p: Pair, name: string)

  function Exec(a: Act, s: Store): Store
    decreases a, 1
  {
    match a
    case Call(p, key, depth, body) => Release(ExecAll(body, Grant(s, p, key, depth)), p, key, Snap(s, p))
    case WriteRow(p, row) => s.(active := s.active[p := row])
    case DeleteRow(p) => s.(active := s.active - {p})
    case PutSession(p, n, id) => s.(sessions := s.sessions[p := SessionsOf(s, p)[n := id]])
    case DropSession(p, n) => s.(sessions := s.sessions[p := SessionsOf(s, p) - {n}])
  }

  function ExecAll(acts: seq<Act>, s: Store): Store
    decreases acts, 0
  {
    if acts == [] then s else ExecAll(acts[1..], Exec(acts[0], s))
  }

  /** Rows that other writers put at `q` anywhere inside. */
  function Writes(a: Act, q: Pair): set<Row>
    decreases a, 1
  {
    match a
    case Call(_, _, _, body) => WritesAll(body, q)
    case WriteRow(p, row) => if p == q then {row} else {}
    case _ => {}
  }

  function WritesAll(acts: seq<Act>, q: Pair): set<Row>
    decreases acts, 0
  {
    if acts == [] then {} else Writes(acts[0], q) + WritesAll(acts[1..], q)
  }

  /** No other writer touches the row of `q` anywhere inside. */
  predicate Untouched(a: Act, q: Pair)
    decreases a, 1
  {
    match a
    case Call(_, _, _, body) => UntouchedAll(body, q)
    case WriteRow(p, _) => p != q
    case DeleteRow(p) => p != q
    case _ => true
  }

  predicate UntouchedAll(acts: seq<Act>, q: Pair)
    decreases acts, 0
  {
    acts == [] || (Untouched(acts[0], q) && UntouchedAll(acts[1..], q))
  }

  lemma {:induction false} ReleaseRow(s: Store, p: Pair, key: string, snap: Snapshot, q: Pair)
    ensures ActiveRow(Release(s, p, key, snap), q) ==
            if q == p then Restored(ActiveRow(s, p), key, snap.prevActive) else ActiveRow(s, q)
  {}

  /** No grant outlives its call: after any nest of calls, a row is the one that was there before or
      one that another writer put there. */
  lemma {:induction false} NoGrantSurvives(a: Act, s: Store, q: Pair)
    ensures var row := ActiveRow(Exec(a, s), q);
            row.Some? ==> row == ActiveRow(s, q) || row.value in Writes(a, q)
    decreases a, 1
  {
    if a.Call? {
      var granted := Grant(s, a.p, a.key, a.depth);
      NoGrantSurvivesAll(a.body, granted, q);
      ReleaseRow(ExecAll(a.body, granted), a.p, a.key, Snap(s, a.p), q);
    }
  }

  lemma {:induction false} NoGrantSurvivesAll(acts: seq<Act>, s: Store, q: Pair)
    ensures var row := ActiveRow(ExecAll(acts, s), q);
            row.Some? ==> row == ActiveRow(s, q) || row.value in WritesAll(acts, q)
    decreases acts, 0
  {
    if acts != [] {
      NoGrantSurvives(acts[0], s, q);
      NoGrantSurvivesAll(acts[1..], Exec(acts[0], s), q);
    }
  }

  /** Rollback is exact: however calls nest, onto the same target included, a pair that no other
      writer touches ends with exactly the row and depth it started with, or with none if it had none. */
  lemma {:induction false} RollbackIsExact(a: Act, s: Store, q: Pair)
    requires Untouched(a, q)
    ensures ActiveRow(Exec(a, s), q) == ActiveRow(s, q)
    decreases a, 1
  {
    if a.Call? {
      var granted := Grant(s, a.p, a.key, a.depth);
      RollbackIsExactAll(a.body, granted, q);
      ReleaseRow(ExecAll(a.body, granted), a.p, a.key, Snap(s, a.p), q);
    }
  }

  lemma {:induction false} RollbackIsExactAll(acts: seq<Act>, s: Store, q: Pair)
    requires UntouchedAll(acts, q)
    ensures ActiveRow(ExecAll(acts, s), q) == ActiveRow(s, q)
    decreases acts, 0
  {
    if acts != [] {
      RollbackIsExact(acts[0], s, q);
      RollbackIsExactAll(acts[1..], Exec(acts[0], s), q);
    }
  }

  /** Released without interruption, a call respects a row that another writer left at the pair;
      otherwise the snapshot comes back. */
  lemma {:induction false} NewerRowWins(p: Pair, key: string, depth: nat, body: seq<Act>, s: Store)
    ensures var inside := ActiveRow(ExecAll(body, Grant(s, p, key, depth)), p);
            ActiveRow(Exec(Call(p, key, depth, body), s), p) ==
              if inside.Some? && inside.value.name != key then inside else ActiveRow(s, p)
    ensures UntouchedAll(body, p) ==>
              ActiveRow(ExecAll(body, Grant(s, p, key, depth)), p) == Some(GrantRow(key, depth))
  {
    ReleaseRow(ExecAll(body, Grant(s, p, key, depth)), p, key, Snap(s, p), p);
    if UntouchedAll(body, p) {
      RollbackIsExactAll(body, Grant(s, p, key, depth), p);
    }
  }

  /** A call leaves no backend session that was not there before it, and its release takes none away
      that was: what remains is what the body left, restricted to the earlier names. */
  lemma {:induction false} CallReclaimsSessions(p: Pair, key: string, depth: nat, body: seq<Act>, s: Store)
    ensures var before := SessionsOf(s, p);
            var inside := SessionsOf(ExecAll(body, Grant(s, p, key, depth)), p);
            var after := SessionsOf(Exec(Call(p, key, depth, body), s), p);
            && after.Keys == inside.Keys * before.Keys
            && forall n | n in after :: after[n] == inside[n]
  {}

  // ---------- Depth ----------

  const MAX_A2A_DEPTH: nat := 5

  /** In `acts`, done while the target of `q` works on a call, every call is made by that target at the
      depth its own row shows at that moment; and so on inside each call. */
  ghost predicate ReadsOwnRow(acts: seq<Act>, s: Store, q: Pair)
    decreases acts, 0
  {
    acts == [] || (MadeAt(acts[0], s, ActiveRow(s, q)) && ReadsOwnRow(acts[1..], Exec(acts[0], s), q))
  }

  /** If `a` is a call, it is made at the depth of `row`, and its target in turn reads its own row. */
  ghost predicate MadeAt(a: Act, s: Store, row: Option<Row>)
    decreases a, 1
  {
    a.Call? ==> row.Some? && a.depth == row.value.depth && ReadsOwnRow(a.body, Grant(s, a.p, a.key, a.depth), a.p)
  }

  /** No other writer touches any row. */
  ghost predicate Calm(a: Act) {
    forall q :: Untouched(a, q)
  }

  ghost predicate CalmAll(acts: seq<Act>) {
    forall q :: UntouchedAll(acts, q)
  }

  /** Every call in `acts` is made at `depth`, and those inside one level deeper, up to 255. */
  predicate Levels(acts: seq<Act>, depth: nat)
    decreases acts, 0
  {
    acts == [] || (Level(acts[0], depth) && Levels(acts[1..], depth))
  }

  predicate Level(a: Act, depth: nat)
    decreases a, 1
  {
    a.Call? ==> a.depth == depth && Levels(a.body, if depth < 255 then depth + 1 else 255)
  }

  /** In any nest each call runs one level deeper than the one it was made in, however often the targets
      recur: a target finds its own row as it was written, because calls made meanwhile, also back to
      itself, have put it back. */
  lemma {:induction false} DepthIsLevel(a: Act, s: Store, row: Row)
    requires MadeAt(a, s, Some(row)) && Calm(a)
    ensures Level(a, row.depth)
    decreases a, 1
  {
    if a.Call? {
      var granted := Grant(s, a.p, a.key, a.depth);
      forall q ensures UntouchedAll(a.body, q) {
        assert Untouched(a, q);
      }
      DepthsAreLevel(a.body, granted, a.p, if a.depth < 255 then a.depth + 1 else 255);
    }
  }

  lemma {:induction false} DepthsAreLevel(acts: seq<Act>, s: Store, q: Pair, depth: nat)
    requires ReadsOwnRow(acts, s, q) && CalmAll(acts)
    requires ActiveRow(s, q).Some? && ActiveRow(s, q).value.depth == depth
    ensures Levels(acts, depth)
    decreases acts, 0
  {
    if acts != [] {
      forall p ensures Untouched(acts[0], p) && UntouchedAll(acts[1..], p) {
        assert UntouchedAll(acts, p);
      }
      DepthIsLevel(acts[0], s, ActiveRow(s, q).value);
      RollbackIsExact(acts[0], s, q);
      DepthsAreLevel(acts[1..], Exec(acts[0], s), q, depth);
    }
  }

  /** How many calls are open at once at the most. */
  function Height(a: Act): nat
    decreases a, 1
  {
    if a.Call? then 1 + Heights(a.body) else 0
  }

  function Heights(acts: seq<Act>): nat
    decreases acts, 0
  {
    if acts == [] then 0 else Max(Height(acts[0]), Heights(acts[1..]))
  }

  /** Every call passed the guard: its depth was below the limit. */
  predicate Guarded(a: Act)
    decreases a, 1
  {
    a.Call? ==> a.depth < MAX_A2A_DEPTH && GuardedAll(a.body)
  }

  predicate GuardedAll(acts: seq<Act>)
    decreases acts, 0
  {
    acts == [] || (Guarded(acts[0]) && GuardedAll(acts[1..]))
  }

  lemma {:induction false} LevelsBound(acts: seq<Act>, depth: nat)
    requires Levels(acts, depth) && GuardedAll(acts)
    ensures Heights(acts) == 0 || Heights(acts) + depth <= 5
    decreases acts, 0
  {
    if acts != [] {
      LevelBound(acts[0], depth);
      LevelsBound(acts[1..], depth);
    }
  }

  lemma {:induction false} LevelBound(a: Act, depth: nat)
    requires Level(a, depth) && Guarded(a)
    ensures Height(a) == 0 || Height(a) + depth <= 5
    decreases a, 1
  {
    if a.Call? {
      LevelsBound(a.body, depth + 1);
    }
  }

  /** With the guard, a call made on behalf of a user, at depth 0, never has more than five calls open,
      itself included: agents that call each other in circles are stopped. */
  lemma {:induction false} AtMostFiveDeep(a: Act, s: Store, row: Row)
    requires MadeAt(a, s, Some(row)) && row.depth == 0 && Calm(a) && Guarded(a)
    ensures Height(a) <= 5
  {
    DepthIsLevel(a, s, row);
    LevelBound(a, 0);
  }

  /** A chain of calls, each made inside the one before. */
  predicate IsChain(a: Act, n: nat)
    decreases n
  {
    n > 0 && a.Call? && (if n == 1 then true else |a.body| == 1 && IsChain(a.body[0], n - 1))
  }

  function Innermost(a: Act, n: nat): Act
    requires IsChain(a, n)
    decreases n
  {
    if n == 1 then a else Innermost(a.body[0], n - 1)
  }

  lemma {:induction false} ChainLevel(a: Act, n: nat, depth: nat)
    requires IsChain(a, n) && Level(a, depth) && depth + n <= 255
    ensures Innermost(a, n).Call? && GrantRow(Innermost(a, n).key, Innermost(a, n).depth).depth == depth + n
    decreases n
  {
    if n > 1 {
      assert Levels(a.body, depth + 1);
      ChainLevel(a.body[0], n - 1, depth + 1);
    }
  }

  /** The last of `n` calls in a chain from depth 0 writes a row of depth `n`. */
  lemma {:induction false} ChainWritesDepth(a: Act, s: Store, row: Row, n: nat)
    requires MadeAt(a, s, Some(row)) && row.depth == 0 && Calm(a) && IsChain(a, n) && n <= 255
    ensures Innermost(a, n).Call? && GrantRow(Innermost(a, n).key, Innermost(a, n).depth).depth == n
  {
    DepthIsLevel(a, s, row);
    ChainLevel(a, n, 0);
  }
}
