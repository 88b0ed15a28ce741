/** Agent-to-agent calls that overlap: what is left at a target when calls to it did not nest.

    First each begin and each release is one event. Then they are split into the store operations they
    consist of, which interleave freely, and the results carry over to schedules in which nothing else
    happens at the pair in the middle of a begin or a release. */
module A2aOverlap {
  import opened Base
  import opened A2aGrant

  // ---------- Whole begins and releases ----------

  /** Calls on any targets, begun and ended in any order, and what others write. A begin and a release
      are one event each. */
  datatype CallEvent =
    | Begin(p: Pair, key: string, depth: nat)
    | End(p: Pair, key: string)
    | Write(p: Pair, row: Option<Row>)
    | PutName(p: Pair, name: string, id: string)
    | DropName(p: Pair, name: string)

  /** What a call holds on to from its begin to its end. */
  datatype CallRecord = CallRecord(p: Pair, row: Row, snap: Snapshot)

  datatype World = World(store: Store, calls: map<string, CallRecord>, ended: set<string>)

  function Step(w: World, e: CallEvent): World {
    match e
    case Begin(p, key, depth) =>
      World(Grant(w.store, p, key, depth),
            w.calls[key := CallRecord(p, GrantRow(key, depth), Snap(w.store, p))], w.ended)
    case End(p, key) =>
      if key in w.calls then World(Release(w.store, p, key, w.calls[key].snap), w.calls, w.ended + {key}) else w
    case Write(p, row) => w.(store := w.store.(active := WithRow(w.store.active, p, row)))
    case PutName(p, n, id) => w.(store := Exec(PutSession(p, n, id), w.store))
    case DropName(p, n) => w.(store := Exec(DropSession(p, n), w.store))
  }

  function After(s: Store, es: seq<CallEvent>, n: nat): World
    requires n <= |es|
  {
    if n == 0 then World(s, map[], {}) else Step(After(s, es, n - 1), es[n - 1])
  }

  /** Keys are new when a call begins, and a call ends once, at the pair it began at. */
  ghost predicate Enabled(s: Store, w: World, e: CallEvent) {
    match e
    case Begin(_, key, _) => key !in w.calls && forall p | p in s.active :: s.active[p].name != key
    case End(p, key) => key in w.calls && w.calls[key].p == p && key !in w.ended
    case Write(_, _) => true
    case PutName(_, _, _) => true
    case DropName(_, _) => true
  }

  ghost predicate EnabledAt(s: Store, es: seq<CallEvent>, i: nat)
    requires i < |es|
  {
    Enabled(s, After(s, es, i), es[i])
  }

  ghost predicate IsSchedule(s: Store, es: seq<CallEvent>) {
    forall i | 0 <= i < |es| :: EnabledAt(s, es, i)
  }

  /** Nobody but calls writes the row of `q`. */
  ghost predicate OnlyCalls(es: seq<CallEvent>, q: Pair) {
    forall i | 0 <= i < |es| :: !(es[i].Write? && es[i].p == q)
  }

  function Without(keys: seq<string>, key: string): seq<string> {
    if keys == [] then []
    else if keys[|keys| - 1] == key then keys[..|keys| - 1]
    else Without(keys[..|keys| - 1], key) + [keys[|keys| - 1]]
  }

  /** The calls on `q` begun and not ended among the first `n` events, in the order they began. */
  function Open(es: seq<CallEvent>, n: nat, q: Pair): seq<string>
    requires n <= |es|
  {
    if n == 0 then []
    else
      var keys := Open(es, n - 1, q);
      match es[n - 1]
      case Begin(p, key, _) => if p == q then keys + [key] else keys
      case End(p, key) => if p == q then Without(keys, key) else keys
      case _ => keys
  }

  /** Among the first `n` events every call on `q` that ended was the latest begun of those open. */
  predicate LastInFirstOut(es: seq<CallEvent>, n: nat, q: Pair)
    requires n <= |es|
  {
    n == 0 ||
    (LastInFirstOut(es, n - 1, q) &&
     (es[n - 1].End? && es[n - 1].p == q ==>
        var keys := Open(es, n - 1, q); keys != [] && keys[|keys| - 1] == es[n - 1].key))
  }

  /** The calls on `q` whose rows lie stacked on the original one, each in the snapshot of the next:
      a call leaves the stack only by ending while its row is on top. */
  function Chain(es: seq<CallEvent>, n: nat, q: Pair): seq<string>
    requires n <= |es|
  {
    if n == 0 then []
    else
      var keys := Chain(es, n - 1, q);
      match es[n - 1]
      case Begin(p, key, _) => if p == q then keys + [key] else keys
      case End(p, key) => if p == q && keys != [] && keys[|keys| - 1] == key then keys[..|keys| - 1] else keys
      case _ => keys
  }

  /** The row on top of a stack of calls over `original`. */
  ghost function Top(w: World, original: Option<Row>, keys: seq<string>): Option<Row> {
    if keys == [] then original
    else if keys[|keys| - 1] in w.calls then Some(w.calls[keys[|keys| - 1]].row)
    else None
  }

  ghost predicate Stacked(w: World, original: Option<Row>, keys: seq<string>, q: Pair, i: nat)
    requires i < |keys|
  {
    && keys[i] in w.calls
    && w.calls[keys[i]].p == q
    && w.calls[keys[i]].row.name == keys[i]
    && w.calls[keys[i]].snap.prevActive == Top(w, original, keys[..i])
  }

  ghost predicate ChainHolds(w: World, original: Option<Row>, keys: seq<string>, q: Pair) {
    && (forall i | 0 <= i < |keys| :: Stacked(w, original, keys, q, i))
    && ActiveRow(w.store, q) == Top(w, original, keys)
    && (forall k | k in w.calls && w.calls[k].p == q && k !in w.ended :: k in keys)
    && w.ended <= w.calls.Keys
  }

  /** New calls elsewhere, and a new call on top, leave the stack below as it is. */
  lemma {:induction false} StackKept(w: World, w': World, original: Option<Row>, keys: seq<string>, q: Pair, i: nat)
    requires i < |keys| && Stacked(w, original, keys, q, i) && (i > 0 ==> Stacked(w, original, keys, q, i - 1))
    requires forall k | k in w.calls :: k in w'.calls && w'.calls[k] == w.calls[k]
    ensures Stacked(w', original, keys, q, i)
  {
    if i > 0 {
      assert keys[..i][|keys[..i]| - 1] == keys[i - 1];
    }
  }

  lemma {:induction false} BeginStep(w: World, original: Option<Row>, keys: seq<string>, q: Pair, e: CallEvent)
    requires ChainHolds(w, original, keys, q) && e.Begin? && e.key !in w.calls
    ensures ChainHolds(Step(w, e), original, if e.p == q then keys + [e.key] else keys, q)
  {
    var w' := Step(w, e);
    var keys' := if e.p == q then keys + [e.key] else keys;
    forall i | 0 <= i < |keys'| ensures Stacked(w', original, keys', q, i) {
      if i < |keys| {
        assert Stacked(w, original, keys, q, i) && (i > 0 ==> Stacked(w, original, keys, q, i - 1));
        StackKept(w, w', original, keys, q, i);
        assert keys'[..i] == keys[..i];
      } else {
        assert keys'[..i] == keys;
        assert keys != [] ==> Stacked(w, original, keys, q, |keys| - 1);
      }
    }
    if e.p != q && keys != [] {
      assert Stacked(w, original, keys, q, |keys| - 1);
    }
  }

  /** Ending a call that is not on top changes no row: its grant is left inside the stack. */
  lemma {:induction false} EndStep(w: World, original: Option<Row>, keys: seq<string>, q: Pair, e: CallEvent)
    requires ChainHolds(w, original, keys, q) && e.End?
    requires e.key in w.calls && w.calls[e.key].p == e.p && e.key !in w.ended
    ensures e.p == q ==> e.key in keys
    ensures ChainHolds(Step(w, e), original,
                       if e.p == q && keys != [] && keys[|keys| - 1] == e.key then keys[..|keys| - 1] else keys, q)
  {
    var w' := Step(w, e);
    ReleaseRow(w.store, e.p, e.key, w.calls[e.key].snap, q);
    var top := |keys| - 1;
    assert keys != [] ==> Stacked(w, original, keys, q, top);
    var keys' := if e.p == q && keys != [] && keys[top] == e.key then keys[..top] else keys;
    forall i | 0 <= i < |keys'| ensures Stacked(w', original, keys', q, i) {
      assert Stacked(w, original, keys, q, i) && (i > 0 ==> Stacked(w, original, keys, q, i - 1));
      StackKept(w, w', original, keys, q, i);
      assert keys'[..i] == keys[..i];
    }
    if e.p == q && keys[top] == e.key && top > 0 {
      assert Stacked(w, original, keys, q, top - 1);
      assert keys[..top][|keys[..top]| - 1] == keys[top - 1];
    }
  }

  lemma {:induction false} ChainInvariant(s: Store, es: seq<CallEvent>, n: nat, q: Pair)
    requires IsSchedule(s, es) && OnlyCalls(es, q) && n <= |es|
    ensures ChainHolds(After(s, es, n), ActiveRow(s, q), Chain(es, n, q), q)
  {
    if n > 0 {
      ChainInvariant(s, es, n - 1, q);
      assert EnabledAt(s, es, n - 1);
      var w, keys, e := After(s, es, n - 1), Chain(es, n - 1, q), es[n - 1];
      if e.Begin? {
        BeginStep(w, ActiveRow(s, q), keys, q, e);
      } else if e.End? {
        EndStep(w, ActiveRow(s, q), keys, q, e);
      } else {
        forall i | 0 <= i < |keys| ensures Stacked(After(s, es, n), ActiveRow(s, q), keys, q, i) {
          assert Stacked(w, ActiveRow(s, q), keys, q, i) && (i > 0 ==> Stacked(w, ActiveRow(s, q), keys, q, i - 1));
          StackKept(w, After(s, es, n), ActiveRow(s, q), keys, q, i);
        }
      }
    }
  }

  /** In order, the stack is exactly the open calls. Out of order, it keeps an ended one for good. */
  lemma {:induction false} ChainIsOpenOrStuck(s: Store, es: seq<CallEvent>, n: nat, q: Pair)
    requires IsSchedule(s, es) && OnlyCalls(es, q) && n <= |es|
    ensures LastInFirstOut(es, n, q) ==> Chain(es, n, q) == Open(es, n, q)
    ensures !LastInFirstOut(es, n, q) ==> exists k | k in Chain(es, n, q) :: k in After(s, es, n).ended
  {
    if n > 0 {
      ChainIsOpenOrStuck(s, es, n - 1, q);
      ChainInvariant(s, es, n - 1, q);
      assert EnabledAt(s, es, n - 1);
      var w, keys, e := After(s, es, n - 1), Chain(es, n - 1, q), es[n - 1];
      if !LastInFirstOut(es, n - 1, q) {
        var k :| k in keys && k in w.ended;
        assert k in Chain(es, n, q) && k in After(s, es, n).ended;
      } else if !LastInFirstOut(es, n, q) {
        EndStep(w, ActiveRow(s, q), keys, q, e);
        assert e.key in Chain(es, n, q) && e.key in After(s, es, n).ended;
      }
    }
  }

  /** Keys of calls are never the name of an original row. */
  lemma {:induction false} KeysAreNew(s: Store, es: seq<CallEvent>, n: nat, p: Pair)
    requires IsSchedule(s, es) && n <= |es| && p in s.active
    ensures s.active[p].name !in After(s, es, n).calls
  {
    if n > 0 {
      KeysAreNew(s, es, n - 1, p);
      assert EnabledAt(s, es, n - 1);
    }
  }

  /** The exact condition for rollback. In any order of whole begins and releases, on this and other
      targets, after which every call on `q` has ended: the row of `q` is what it was, depth included, if and only if
      each call on `q` ended as the latest begun of those still open. Otherwise the grant of a call
      that has ended is left in force. */
  lemma {:induction false} RestoredIffLastInFirstOut(s: Store, es: seq<CallEvent>, q: Pair)
    requires IsSchedule(s, es) && OnlyCalls(es, q) && Open(es, |es|, q) == []
    ensures var w := After(s, es, |es|); var row := ActiveRow(w.store, q);
            && (row == ActiveRow(s, q) <==> LastInFirstOut(es, |es|, q))
            && (row != ActiveRow(s, q) ==>
                  row.Some? && row.value.name in w.ended && row.value.name in w.calls && w.calls[row.value.name].p == q)
  {
    var w, keys := After(s, es, |es|), Chain(es, |es|, q);
    ChainInvariant(s, es, |es|, q);
    ChainIsOpenOrStuck(s, es, |es|, q);
    EndedOnceClosed(s, es, |es|, q);
    if keys != [] {
      assert Stacked(w, ActiveRow(s, q), keys, q, |keys| - 1);
      if q in s.active {
        KeysAreNew(s, es, |es|, q);
      }
    }
  }

  lemma {:induction false} WithoutKeeps(keys: seq<string>, key: string, k: string)
    requires k in keys && k != key
    ensures k in Without(keys, key)
  {
    if keys[|keys| - 1] != key && keys[|keys| - 1] != k {
      WithoutKeeps(keys[..|keys| - 1], key, k);
    }
  }

  /** A call that is not listed as open has ended. */
  lemma {:induction false} EndedOnceClosed(s: Store, es: seq<CallEvent>, n: nat, q: Pair)
    requires IsSchedule(s, es) && n <= |es|
    ensures var w := After(s, es, n);
            forall k | k in w.calls && w.calls[k].p == q && k !in w.ended :: k in Open(es, n, q)
  {
    if n > 0 {
      EndedOnceClosed(s, es, n - 1, q);
      assert EnabledAt(s, es, n - 1);
      var w, e := After(s, es, n - 1), es[n - 1];
      var w' := After(s, es, n);
      forall k | k in w'.calls && w'.calls[k].p == q && k !in w'.ended ensures k in Open(es, n, q) {
        if e.End? && e.p == q {
          WithoutKeeps(Open(es, n - 1, q), e.key, k);
        }
      }
    }
  }

  /** Two calls to one target, the second begun while the first waits. Released in reverse order they
      leave the store as it was; released in the order they began, the second brings the first one's
      grant back to stay. */
  lemma {:induction false} OverlapLeaksGrant(s: Store, p: Pair, key1: string, key2: string, d1: nat, d2: nat)
    requires key1 != key2
    ensures var granted1 := Grant(s, p, key1, d1);
            var granted2 := Grant(granted1, p, key2, d2);
            var snap1, snap2 := Snap(s, p), Snap(granted1, p);
            && ActiveRow(Release(Release(granted2, p, key2, snap2), p, key1, snap1), p) == ActiveRow(s, p)
            && ActiveRow(Release(Release(granted2, p, key1, snap1), p, key2, snap2), p) == Some(GrantRow(key1, d1))
  {
    var granted1 := Grant(s, p, key1, d1);
    var granted2 := Grant(granted1, p, key2, d2);
    var snap1, snap2 := Snap(s, p), Snap(granted1, p);
    ReleaseRow(granted2, p, key2, snap2, p);
    ReleaseRow(Release(granted2, p, key2, snap2), p, key1, snap1, p);
    ReleaseRow(granted2, p, key1, snap1, p);
    ReleaseRow(Release(granted2, p, key1, snap1), p, key2, snap2, p);
  }

  // ---------- Backend sessions ----------

  ghost predicate Distinct(keys: seq<string>) {
    forall i, j | 0 <= i < j < |keys| :: keys[i] != keys[j]
  }

  lemma {:induction false} WithoutSubset(keys: seq<string>, key: string, k: string)
    requires k in Without(keys, key)
    ensures k in keys
  {
    var last := |keys| - 1;
    if keys[last] == key {
      assert k in keys[..last];
    } else if k != keys[last] {
      WithoutSubset(keys[..last], key, k);
      assert k in keys[..last];
    }
  }

  lemma {:induction false} WithoutFacts(keys: seq<string>, key: string)
    requires Distinct(keys)
    ensures Distinct(Without(keys, key)) && key !in Without(keys, key)
  {
    if keys != [] {
      var front, last := keys[..|keys| - 1], keys[|keys| - 1];
      assert last !in front;
      if last != key {
        WithoutFacts(front, key);
        if last in Without(front, key) {
          WithoutSubset(front, key, last);
        }
      }
    }
  }

  /** The calls listed as open are begun, at that pair, and not ended. */
  lemma {:induction false} OpenIsOpen(s: Store, es: seq<CallEvent>, n: nat, q: Pair)
    requires IsSchedule(s, es) && n <= |es|
    ensures Distinct(Open(es, n, q))
    ensures var w := After(s, es, n);
            w.ended <= w.calls.Keys
            && forall k | k in Open(es, n, q) :: k in w.calls && w.calls[k].p == q && k !in w.ended
  {
    if n > 0 {
      OpenIsOpen(s, es, n - 1, q);
      assert EnabledAt(s, es, n - 1);
      if es[n - 1].End? {
        var keys, key := Open(es, n - 1, q), es[n - 1].key;
        WithoutFacts(keys, key);
        forall k | k in Without(keys, key) ensures k in keys {
          WithoutSubset(keys, key, k);
        }
      }
    }
  }

  /** Backend session `n` was at the pair when call `k` began. */
  predicate Knew(w: World, k: string, n: string) {
    k in w.calls && w.calls[k].snap.preSessions.Some? && n in w.calls[k].snap.preSessions.value
  }

  /** From event `i` on nobody but a release puts or drops the name `n` at `q`. */
  ghost predicate LeftAlone(es: seq<CallEvent>, i: nat, q: Pair, n: string) {
    forall j | i <= j < |es| :: !((es[j].PutName? || es[j].DropName?) && es[j].p == q && es[j].name == n)
  }

  ghost predicate KnownToAll(w: World, q: Pair, n: string) {
    forall k | k in w.calls && w.calls[k].p == q && k !in w.ended :: Knew(w, k, n)
  }

  lemma {:induction false} KnownStep(s: Store, w: World, e: CallEvent, q: Pair, n: string)
    requires Enabled(s, w, e) && KnownToAll(w, q, n) && n in SessionsOf(w.store, q)
    requires !((e.PutName? || e.DropName?) && e.p == q && e.name == n)
    ensures var w' := Step(w, e);
            KnownToAll(w', q, n) && n in SessionsOf(w'.store, q)
            && SessionsOf(w'.store, q)[n] == SessionsOf(w.store, q)[n]
  {}

  /** A name that every open call knows outlasts them all. */
  lemma {:induction false} KnownNamesStay(s: Store, es: seq<CallEvent>, i: nat, m: nat, q: Pair, n: string)
    requires IsSchedule(s, es) && i <= m <= |es| && LeftAlone(es, i, q, n)
    requires KnownToAll(After(s, es, i), q, n) && n in SessionsOf(After(s, es, i).store, q)
    ensures KnownToAll(After(s, es, m), q, n) && n in SessionsOf(After(s, es, m).store, q)
    ensures SessionsOf(After(s, es, m).store, q)[n] == SessionsOf(After(s, es, i).store, q)[n]
    decreases m
  {
    if i < m {
      KnownNamesStay(s, es, i, m - 1, q, n);
      assert EnabledAt(s, es, m - 1);
      KnownStep(s, After(s, es, m - 1), es[m - 1], q, n);
    }
  }

  lemma {:induction false} UnknownStep(s: Store, w: World, e: CallEvent, q: Pair, n: string, k: string)
    requires Enabled(s, w, e) && k in w.calls && w.calls[k].p == q
    requires w.calls[k].snap.preSessions.Some? && !Knew(w, k, n)
    requires k in w.ended ==> n !in SessionsOf(w.store, q)
    requires !((e.PutName? || e.DropName?) && e.p == q && e.name == n)
    ensures var w' := Step(w, e);
            && k in w'.calls && w'.calls[k] == w.calls[k]
            && (k in w'.ended ==> n !in SessionsOf(w'.store, q))
  {}

  /** A name that an open call does not know goes when that call ends, and stays away. */
  lemma {:induction false} UnknownNameGoes(s: Store, es: seq<CallEvent>, i: nat, m: nat, q: Pair, n: string, k: string)
    requires IsSchedule(s, es) && i <= m <= |es| && LeftAlone(es, i, q, n)
    requires var w := After(s, es, i);
             && k in w.calls && w.calls[k].p == q && k !in w.ended
             && w.calls[k].snap.preSessions.Some? && !Knew(w, k, n)
    ensures var w := After(s, es, m);
            && k in w.calls && w.calls[k] == After(s, es, i).calls[k]
            && (k in w.ended ==> n !in SessionsOf(w.store, q))
    decreases m
  {
    if i < m {
      UnknownNameGoes(s, es, i, m - 1, q, n, k);
      assert EnabledAt(s, es, m - 1);
      UnknownStep(s, After(s, es, m - 1), es[m - 1], q, n, k);
    }
  }

  lemma {:induction false} SnapshotsAreThere(s: Store, es: seq<CallEvent>, n: nat, k: string)
    requires IsSchedule(s, es) && n <= |es|
    ensures k in After(s, es, n).calls ==> After(s, es, n).calls[k].snap.preSessions.Some?
  {
    if n > 0 {
      SnapshotsAreThere(s, es, n - 1, k);
    }
  }

  /** Which names survive. Take the last time anyone puts a name at `q`; once all calls on `q` have
      ended, it is there, with the id it was given, if and only if every call on `q` open at that time
      had found it there when it began. A call sweeps away what others put while it was open. */
  lemma {:induction false} NameSurvivesIff(s: Store, es: seq<CallEvent>, i: nat, q: Pair, n: string, id: string)
    requires IsSchedule(s, es) && i < |es| && es[i] == PutName(q, n, id)
    requires LeftAlone(es, i + 1, q, n) && Open(es, |es|, q) == []
    ensures var left := SessionsOf(After(s, es, |es|).store, q);
            && (n in left <==> forall k | k in Open(es, i, q) :: Knew(After(s, es, i), k, n))
            && (n in left ==> left[n] == id)
  {
    var w, w' := After(s, es, i), After(s, es, i + 1);
    OpenIsOpen(s, es, i, q);
    EndedOnceClosed(s, es, i, q);
    EndedOnceClosed(s, es, |es|, q);
    assert w' == Step(w, es[i]);
    if k :| k in Open(es, i, q) && !Knew(w, k, n) {
      SnapshotsAreThere(s, es, i, k);
      UnknownNameGoes(s, es, i + 1, |es|, q, n, k);
    } else {
      KnownNamesStay(s, es, i + 1, |es|, q, n);
    }
  }

  /** Names that were there from the start, and that nobody drops or replaces, survive any calls. */
  lemma {:induction false} OldNamesSurvive(s: Store, es: seq<CallEvent>, q: Pair, n: string)
    requires IsSchedule(s, es) && n in SessionsOf(s, q) && LeftAlone(es, 0, q, n)
    ensures var left := SessionsOf(After(s, es, |es|).store, q); n in left && left[n] == SessionsOf(s, q)[n]
  {
    assert After(s, es, 0).store == s;
    KnownNamesStay(s, es, 0, |es|, q, n);
  }

  // ---------- Begins and releases, operation by operation ----------

  /** Where a call is: it has read the old row; written its own; deleted its own; read back whether
      there is a row now; finished. */
  datatype Phase = HasRead | Granted | Deleted | ReadBack(sawNone: bool) | Finished

  datatype Caller = Caller(p: Pair, depth: nat, prev: Option<Row>, phase: Phase)

  datatype Fine = Fine(active: map<Pair, Row>, callers: map<string, Caller>)

  /** The store operations on active rows, in the order a call makes them; and other writers. */
  datatype StoreOp =
    | ReadRow(p: Pair, key: string, depth: nat)
    | WriteGrant(p: Pair, key: string, depth: nat)
    | DeleteOwn(p: Pair, key: string)
    | ReadAgain(p: Pair, key: string)
    | Restore(p: Pair, key: string)
    | OtherWrite(p: Pair, row: Option<Row>)

  function RowAt(active: map<Pair, Row>, p: Pair): Option<Row> {
    if p in active then Some(active[p]) else None
  }

  function CallerOf(w: Fine, key: string): Option<Caller> {
    if key in w.callers then Some(w.callers[key]) else None
  }

  /** A call makes its operations in order, at one pair. */
  predicate InOrder(op: StoreOp, me: Option<Caller>) {
    match op
    case OtherWrite(_, _) => true
    case ReadRow(_, _, _) => me.None?
    case WriteGrant(p, _, depth) =>
      me.Some? && me.value.p == p && me.value.depth == depth && me.value.phase.HasRead?
    case DeleteOwn(p, _) => me.Some? && me.value.p == p && me.value.phase.Granted?
    case ReadAgain(p, _) => me.Some? && me.value.p == p && me.value.phase.Deleted?
    case Restore(p, _) => me.Some? && me.value.p == p && me.value.phase.ReadBack?
  }

  ghost predicate OpEnabled(s: Store, w: Fine, op: StoreOp) {
    && (op.OtherWrite? || InOrder(op, CallerOf(w, op.key)))
    && (op.ReadRow? ==> forall p | p in s.active :: s.active[p].name != op.key)
  }

  /** The row left when the row named `key`, and no other, is deleted. */
  function Dropped(row: Option<Row>, key: string): Option<Row> {
    if row.Some? && row.value.name == key then None else row
  }

  function NextRow(op: StoreOp, row: Option<Row>, me: Option<Caller>): Option<Row> {
    match op
    case WriteGrant(_, key, depth) => Some(GrantRow(key, depth))
    case DeleteOwn(_, key) => Dropped(row, key)
    case Restore(_, _) =>
      if me.Some? && me.value.phase == ReadBack(true) && me.value.prev.Some? then me.value.prev else row
    case OtherWrite(_, r) => r
    case _ => row
  }

  function NextCaller(op: StoreOp, row: Option<Row>, me: Option<Caller>): Option<Caller> {
    if op.ReadRow? then Some(Caller(op.p, op.depth, row, HasRead))
    else if me.None? then None
    else
      var phase := match op
        case WriteGrant(_, _, _) => Granted
        case DeleteOwn(_, _) => Deleted
        case ReadAgain(_, _) => ReadBack(row.None?)
        case Restore(_, _) => Finished
        case _ => me.value.phase;
      Some(me.value.(phase := phase))
  }

  function Perform(w: Fine, op: StoreOp): Fine {
    var row := RowAt(w.active, op.p);
    var me := if op.OtherWrite? then None else CallerOf(w, op.key);
    var me' := NextCaller(op, row, me);
    Fine(WithRow(w.active, op.p, NextRow(op, row, me)),
         if me'.Some? && !op.OtherWrite? then w.callers[op.key := me'.value] else w.callers)
  }

  function Performed(s: Store, ops: seq<StoreOp>, n: nat): Fine
    requires n <= |ops|
  {
    if n == 0 then Fine(s.active, map[]) else Perform(Performed(s, ops, n - 1), ops[n - 1])
  }

  ghost predicate OpEnabledAt(s: Store, ops: seq<StoreOp>, i: nat)
    requires i < |ops|
  {
    OpEnabled(s, Performed(s, ops, i), ops[i])
  }

  /** A call between the two ends of its begin, or of its release. */
  predicate InWindow(c: Caller) {
    c.phase.HasRead? || c.phase.Deleted? || c.phase.ReadBack?
  }

  /** If `op` is at `q`, no call but its own is in the middle of a begin or release there. */
  ghost predicate Undisturbing(w: Fine, op: StoreOp, q: Pair) {
    op.p == q ==>
      forall k | k in w.callers && w.callers[k].p == q && InWindow(w.callers[k]) :: !op.OtherWrite? && op.key == k
  }

  ghost predicate UndisturbingAt(s: Store, ops: seq<StoreOp>, i: nat, q: Pair)
    requires i < |ops|
  {
    Undisturbing(Performed(s, ops, i), ops[i], q)
  }

  /** Calls interleave operation by operation; at `q` nothing falls into the middle of a begin or a
      release, and nobody but calls writes. */
  ghost predicate IsInterleaving(s: Store, ops: seq<StoreOp>, q: Pair) {
    && (forall i | 0 <= i < |ops| :: OpEnabledAt(s, ops, i))
    && (forall i | 0 <= i < |ops| :: UndisturbingAt(s, ops, i, q))
    && (forall i | 0 <= i < |ops| :: !(ops[i].OtherWrite? && ops[i].p == q))
  }

  /** The whole begin or release that an operation completes. */
  function Completes(op: StoreOp): Option<CallEvent> {
    match op
    case WriteGrant(p, key, depth) => Some(Begin(p, key, depth))
    case Restore(p, key) => Some(End(p, key))
    case OtherWrite(p, row) => Some(Write(p, row))
    case _ => None
  }

  /** The schedule of whole begins and releases that the first `n` operations amount to. */
  function Whole(ops: seq<StoreOp>, n: nat): seq<CallEvent>
    requires n <= |ops|
  {
    if n == 0 then []
    else Whole(ops, n - 1) + Completed(ops[n - 1])
  }

  function WholeStep(c: World, op: StoreOp): World {
    if Completes(op).Some? then Step(c, Completes(op).value) else c
  }

  /** `c`, in which begins and releases are whole, tells the calls of `w` apart as they are. */
  ghost predicate SameCalls(s: Store, w: Fine, c: World) {
    && (forall k | k in w.callers :: forall p | p in s.active :: s.active[p].name != k)
    && (forall k :: k in c.calls <==> k in w.callers && !w.callers[k].phase.HasRead?)
    && (forall k | k in c.calls :: c.calls[k].p == w.callers[k].p)
    && (forall k :: k in c.ended <==> k in w.callers && w.callers[k].phase.Finished?)
  }

  /** At `q`, one call at `k` is where it should be, given the row `row` in the whole view. */
  ghost predicate SameAt(w: Fine, c: World, q: Pair, k: string)
    requires k in w.callers
  {
    var caller, row := w.callers[k], ActiveRow(c.store, q);
    && (caller.phase.HasRead? ==> caller.prev == row)
    && (!caller.phase.HasRead? ==> k in c.calls && c.calls[k].snap.prevActive == caller.prev)
    && (caller.phase.Deleted? || caller.phase.ReadBack? ==> RowAt(w.active, q) == Dropped(row, k))
    && (caller.phase.ReadBack? ==> caller.phase.sawNone == RowAt(w.active, q).None?)
  }

  ghost predicate Releasing(w: Fine, q: Pair, k: string) {
    k in w.callers && w.callers[k].p == q && (w.callers[k].phase.Deleted? || w.callers[k].phase.ReadBack?)
  }

  ghost predicate Agrees(w: Fine, c: World, q: Pair) {
    && (forall k | k in w.callers && w.callers[k].p == q :: SameAt(w, c, q, k))
    && ((forall k :: !Releasing(w, q, k)) ==> RowAt(w.active, q) == ActiveRow(c.store, q))
    && (forall j, k | j in w.callers && k in w.callers && w.callers[j].p == q && w.callers[k].p == q
          && InWindow(w.callers[j]) && InWindow(w.callers[k]) :: j == k)
  }

  lemma {:induction false} WholeEnabled(s: Store, w: Fine, c: World, op: StoreOp)
    requires SameCalls(s, w, c) && OpEnabled(s, w, op)
    ensures Completes(op).Some? ==> Enabled(s, c, Completes(op).value)
  {}

  /** How an operation changes the caller that makes it, in both views. */
  lemma {:induction false} OwnCall(s: Store, w: Fine, c: World, op: StoreOp)
    requires SameCalls(s, w, c) && OpEnabled(s, w, op) && !op.OtherWrite?
    ensures var w', c' := Perform(w, op), WholeStep(c, op);
            && w'.callers.Keys == w.callers.Keys + {op.key}
            && (forall k | k in w.callers && k != op.key :: w'.callers[k] == w.callers[k])
            && (op.key in c'.calls <==> !w'.callers[op.key].phase.HasRead?)
            && (op.key in c'.calls ==> c'.calls[op.key].p == w'.callers[op.key].p)
            && (op.key in c'.ended <==> w'.callers[op.key].phase.Finished?)
            && (forall k | k != op.key :: k in c'.calls <==> k in c.calls)
            && (forall k | k in c.calls && k != op.key :: c'.calls[k] == c.calls[k])
            && (forall k | k != op.key :: k in c'.ended <==> k in c.ended)
  {}

  lemma {:induction false} CallsStep(s: Store, w: Fine, c: World, op: StoreOp)
    requires SameCalls(s, w, c) && OpEnabled(s, w, op)
    ensures Completes(op).Some? ==> Enabled(s, c, Completes(op).value)
    ensures SameCalls(s, Perform(w, op), WholeStep(c, op))
  {
    WholeEnabled(s, w, c, op);
    if !op.OtherWrite? {
      OwnCall(s, w, c, op);
    }
  }

  lemma {:induction false} PerformElsewhere(s: Store, w: Fine, op: StoreOp, q: Pair)
    requires OpEnabled(s, w, op) && op.p != q
    ensures var w' := Perform(w, op);
            && RowAt(w'.active, q) == RowAt(w.active, q)
            && (forall k | k in w.callers && w.callers[k].p == q :: k in w'.callers && w'.callers[k] == w.callers[k])
            && (forall k | k in w'.callers && w'.callers[k].p == q :: k in w.callers && w.callers[k].p == q)
  {}

  lemma {:induction false} WholeElsewhere(c: World, op: StoreOp, q: Pair)
    requires op.p != q
    ensures var c' := WholeStep(c, op);
            && ActiveRow(c'.store, q) == ActiveRow(c.store, q)
            && (forall k | k in c.calls && (op.OtherWrite? || k != op.key) ::
                  k in c'.calls && c'.calls[k] == c.calls[k])
  {}

  /** What happens at other pairs is not seen at `q`. */
  lemma {:induction false} ElsewhereStep(s: Store, w: Fine, c: World, op: StoreOp, q: Pair)
    requires SameCalls(s, w, c) && OpEnabled(s, w, op) && Agrees(w, c, q) && op.p != q
    ensures Agrees(Perform(w, op), WholeStep(c, op), q)
  {
    PerformElsewhere(s, w, op, q);
    WholeElsewhere(c, op, q);
    assert !op.OtherWrite? && op.key in w.callers ==> w.callers[op.key].p == op.p || op.ReadRow?;
    AgreesFrame(w, c, Perform(w, op), WholeStep(c, op), q);
  }

  lemma {:induction false} AgreesFrame(w: Fine, c: World, w': Fine, c': World, q: Pair)
    requires Agrees(w, c, q)
    requires RowAt(w'.active, q) == RowAt(w.active, q) && ActiveRow(c'.store, q) == ActiveRow(c.store, q)
    requires forall k | k in w.callers && w.callers[k].p == q :: k in w'.callers && w'.callers[k] == w.callers[k]
    requires forall k | k in w'.callers && w'.callers[k].p == q :: k in w.callers && w.callers[k].p == q
    requires forall k | k in w.callers && w.callers[k].p == q && k in c.calls ::
               k in c'.calls && c'.calls[k] == c.calls[k]
    ensures Agrees(w', c', q)
  {
    forall k | k in w'.callers && w'.callers[k].p == q ensures SameAt(w', c', q, k) {
      assert SameAt(w, c, q, k);
    }
    forall k ensures Releasing(w', q, k) <==> Releasing(w, q, k) {
    }
  }

  lemma {:induction false} OthersKept(s: Store, w: Fine, c: World, op: StoreOp)
    requires !op.OtherWrite? && OpEnabled(s, w, op)
    ensures var w', c' := Perform(w, op), WholeStep(c, op);
            && w'.callers.Keys == w.callers.Keys + {op.key} && w'.callers[op.key].p == op.p
            && (forall k | k in w.callers && k != op.key :: w'.callers[k] == w.callers[k])
            && (forall k | k in c.calls && k != op.key :: k in c'.calls && c'.calls[k] == c.calls[k])
  {}

  /** At `q`, an operation of a call that is alone in its window. */
  lemma {:induction false} HereStep(s: Store, w: Fine, c: World, op: StoreOp, q: Pair)
    requires SameCalls(s, w, c) && OpEnabled(s, w, op) && Agrees(w, c, q)
    requires op.p == q && !op.OtherWrite? && Undisturbing(w, op, q)
    ensures Agrees(Perform(w, op), WholeStep(c, op), q)
  {
    var w', c' := Perform(w, op), WholeStep(c, op);
    OthersKept(s, w, c, op);
    OwnStep(s, w, c, op, q) by {
      assert op.key in w.callers ==> SameAt(w, c, q, op.key);
      assert forall k | Releasing(w, q, k) :: k == op.key;
    }
    AgreesWithOwn(w, c, w', c', q, op.key);
  }

  lemma {:induction false} AgreesWithOwn(w: Fine, c: World, w': Fine, c': World, q: Pair, key: string)
    requires forall k | k in w.callers && w.callers[k].p == q :: SameAt(w, c, q, k)
    requires forall k | k in w.callers && w.callers[k].p == q && InWindow(w.callers[k]) :: k == key
    requires w'.callers.Keys == w.callers.Keys + {key} && w'.callers[key].p == q
    requires forall k | k in w.callers && k != key :: w'.callers[k] == w.callers[k]
    requires forall k | k in c.calls && k != key :: k in c'.calls && c'.calls[k] == c.calls[k]
    requires SameAt(w', c', q, key)
    requires !Releasing(w', q, key) ==> RowAt(w'.active, q) == ActiveRow(c'.store, q)
    ensures Agrees(w', c', q)
  {
    forall k | k in w'.callers && w'.callers[k].p == q ensures SameAt(w', c', q, k) {
      if k != key {
        assert SameAt(w, c, q, k) && !InWindow(w.callers[k]);
      }
    }
    assert Releasing(w', q, key) ==> !forall k :: !Releasing(w', q, k);
  }

  /** The operation itself, for the call that makes it. */
  lemma {:induction false} OwnStep(s: Store, w: Fine, c: World, op: StoreOp, q: Pair)
    requires SameCalls(s, w, c) && OpEnabled(s, w, op)
    requires op.p == q && !op.OtherWrite? && (op.key in w.callers ==> SameAt(w, c, q, op.key))
    requires (forall k | Releasing(w, q, k) :: k == op.key)
    requires (forall k :: !Releasing(w, q, k)) ==> RowAt(w.active, q) == ActiveRow(c.store, q)
    ensures var w', c' := Perform(w, op), WholeStep(c, op);
            && op.key in w'.callers && SameAt(w', c', q, op.key)
            && (!Releasing(w', q, op.key) ==> RowAt(w'.active, q) == ActiveRow(c'.store, q))
  {
    var key := op.key;
    if op.WriteGrant? || op.DeleteOwn? || op.ReadRow? {
      assert !Releasing(w, q, key);
      assert forall k :: !Releasing(w, q, k);
    }
    if op.Restore? {
      ReleaseRow(c.store, q, key, c.calls[key].snap, q);
    }
  }

  lemma {:induction false} AfterPrefix(s: Store, es: seq<CallEvent>, more: seq<CallEvent>, n: nat)
    requires n <= |es|
    ensures After(s, es + more, n) == After(s, es, n)
  {
    if n > 0 {
      AfterPrefix(s, es, more, n - 1);
    }
  }

  lemma {:induction false} ScheduleGrows(s: Store, es: seq<CallEvent>, e: CallEvent, q: Pair)
    requires IsSchedule(s, es) && OnlyCalls(es, q)
    requires Enabled(s, After(s, es, |es|), e) && !(e.Write? && e.p == q)
    ensures IsSchedule(s, es + [e]) && OnlyCalls(es + [e], q)
    ensures After(s, es + [e], |es| + 1) == Step(After(s, es, |es|), e)
  {
    AfterPrefix(s, es, [e], |es|);
    forall i | 0 <= i < |es + [e]| ensures EnabledAt(s, es + [e], i) {
      AfterPrefix(s, es, [e], i);
      if i < |es| {
        assert EnabledAt(s, es, i);
      }
    }
  }

  /** `w` is what the whole begins and releases `es` amount to at `q`. */
  ghost predicate Simulates(s: Store, es: seq<CallEvent>, w: Fine, q: Pair) {
    && IsSchedule(s, es) && OnlyCalls(es, q)
    && SameCalls(s, w, After(s, es, |es|)) && Agrees(w, After(s, es, |es|), q)
  }

  function Completed(op: StoreOp): seq<CallEvent> {
    if Completes(op).Some? then [Completes(op).value] else []
  }

  lemma {:induction false} SimulatesNext(s: Store, es: seq<CallEvent>, w: Fine, q: Pair, op: StoreOp)
    requires Simulates(s, es, w, q)
    requires OpEnabled(s, w, op) && Undisturbing(w, op, q) && !(op.OtherWrite? && op.p == q)
    ensures Simulates(s, es + Completed(op), Perform(w, op), q)
  {
    var c := After(s, es, |es|);
    SimulationStep(s, w, c, op, q);
    WholeGrows(s, es, op, q);
  }

  lemma {:induction false} WholeGrows(s: Store, es: seq<CallEvent>, op: StoreOp, q: Pair)
    requires IsSchedule(s, es) && OnlyCalls(es, q) && !(op.OtherWrite? && op.p == q)
    requires Completes(op).Some? ==> Enabled(s, After(s, es, |es|), Completes(op).value)
    ensures var es' := es + Completed(op);
            && IsSchedule(s, es') && OnlyCalls(es', q)
            && After(s, es', |es'|) == WholeStep(After(s, es, |es|), op)
  {
    if Completes(op).Some? {
      ScheduleGrows(s, es, Completes(op).value, q);
    } else {
      assert es + [] == es;
    }
  }

  /** At a pair left in peace, the operations amount to their whole begins and releases. */
  lemma {:induction false} WholeSimulates(s: Store, ops: seq<StoreOp>, n: nat, q: Pair)
    requires IsInterleaving(s, ops, q) && n <= |ops|
    ensures Simulates(s, Whole(ops, n), Performed(s, ops, n), q)
  {
    if n > 0 {
      WholeSimulates(s, ops, n - 1, q);
      assert OpEnabledAt(s, ops, n - 1) && UndisturbingAt(s, ops, n - 1, q);
      SimulatesNext(s, Whole(ops, n - 1), Performed(s, ops, n - 1), q, ops[n - 1]);
    }
  }

  lemma {:induction false} SimulationStep(s: Store, w: Fine, c: World, op: StoreOp, q: Pair)
    requires SameCalls(s, w, c) && Agrees(w, c, q)
    requires OpEnabled(s, w, op) && Undisturbing(w, op, q) && !(op.OtherWrite? && op.p == q)
    ensures Completes(op).Some? ==> Enabled(s, c, Completes(op).value)
    ensures SameCalls(s, Perform(w, op), WholeStep(c, op))
    ensures Agrees(Perform(w, op), WholeStep(c, op), q)
  {
    CallsStep(s, w, c, op);
    if op.p == q {
      HereStep(s, w, c, op, q);
    } else {
      ElsewhereStep(s, w, c, op, q);
    }
  }

  ghost predicate AllThrough(w: Fine, q: Pair) {
    forall k | k in w.callers && w.callers[k].p == q :: w.callers[k].phase.Finished?
  }

  lemma {:induction false} HeadIsIn(keys: seq<string>)
    ensures keys == [] || exists k :: k in keys
  {
    if keys != [] {
      assert keys[0] in keys;
    }
  }

  lemma {:induction false} ThroughIsClosed(s: Store, es: seq<CallEvent>, w: Fine, q: Pair)
    requires Simulates(s, es, w, q) && AllThrough(w, q)
    ensures Open(es, |es|, q) == []
    ensures RowAt(w.active, q) == ActiveRow(After(s, es, |es|).store, q)
  {
    HeadIsIn(Open(es, |es|, q));
    OpenIsOpen(s, es, |es|, q);
    assert forall k :: !Releasing(w, q, k);
  }

  /** `w` left `q` with the grant of one of its calls. */
  predicate LeftGrant(w: Fine, q: Pair) {
    q in w.active && w.active[q].name in w.callers && w.callers[w.active[q].name].p == q
  }

  lemma {:induction false} SimulatedRestored(s: Store, es: seq<CallEvent>, w: Fine, q: Pair)
    requires Simulates(s, es, w, q) && AllThrough(w, q)
    ensures RowAt(w.active, q) == RowAt(s.active, q) <==> LastInFirstOut(es, |es|, q)
    ensures RowAt(w.active, q) != RowAt(s.active, q) ==> LeftGrant(w, q)
  {
    ThroughIsClosed(s, es, w, q);
    RestoredIffLastInFirstOut(s, es, q);
  }

  /** Rollback, operation by operation. Whatever interleaves elsewhere, if nothing else happens at `q` in
      the middle of a begin or release there, and all calls on `q` are through: its row is the original
      one if and only if each call ended as the latest begun of those open; otherwise it is the grant
      of a call that is through. */
  lemma {:induction false} RestoredIffInOrder(s: Store, ops: seq<StoreOp>, q: Pair)
    requires IsInterleaving(s, ops, q) && AllThrough(Performed(s, ops, |ops|), q)
    ensures var w, es := Performed(s, ops, |ops|), Whole(ops, |ops|);
            && (RowAt(w.active, q) == RowAt(s.active, q) <==> LastInFirstOut(es, |es|, q))
            && (RowAt(w.active, q) != RowAt(s.active, q) ==> LeftGrant(w, q))
  {
    WholeSimulates(s, ops, |ops|, q);
    SimulatedRestored(s, Whole(ops, |ops|), Performed(s, ops, |ops|), q);
  }

  // ---------- What an interruption does ----------

  /** One pair and two calls on it. */
  datatype Duo = Duo(row: Option<Row>, a: Option<Caller>, b: Option<Caller>)

  ghost predicate Shows(w: Fine, p: Pair, t: Duo) {
    RowAt(w.active, p) == t.row && CallerOf(w, "a") == t.a && CallerOf(w, "b") == t.b
  }

  function Mine(t: Duo, op: StoreOp): Option<Caller> {
    if op.OtherWrite? then None else if op.key == "a" then t.a else t.b
  }

  function DuoStep(t: Duo, op: StoreOp): Duo {
    var row, me' := NextRow(op, t.row, Mine(t, op)), NextCaller(op, t.row, Mine(t, op));
    if op.OtherWrite? then t.(row := row)
    else if op.key == "a" then t.(row := row, a := me') else t.(row := row, b := me')
  }

  /** Operation `i`, at `p`, by someone else or by call a or b in its order, leads from `ts[i]` on. */
  ghost predicate DuoAt(ts: seq<Duo>, ops: seq<StoreOp>, i: nat, p: Pair)
    requires i < |ops| && |ts| == |ops| + 1
  {
    && ops[i].p == p && (ops[i].OtherWrite? || ops[i].key == "a" || ops[i].key == "b")
    && InOrder(ops[i], Mine(ts[i], ops[i])) && ts[i + 1] == DuoStep(ts[i], ops[i])
  }

  /** A store with one row, which bears neither key. */
  ghost predicate OneRow(s: Store, p: Pair, row: Row) {
    s.active == map[p := row] && row.name != "a" && row.name != "b"
  }

  lemma {:induction false} DuoMoves(w: Fine, p: Pair, t: Duo, op: StoreOp)
    requires Shows(w, p, t) && op.p == p && (op.OtherWrite? || op.key == "a" || op.key == "b")
    ensures Shows(Perform(w, op), p, DuoStep(t, op))
  {}

  lemma {:induction false} DuoRuns(s: Store, ts: seq<Duo>, ops: seq<StoreOp>, n: nat, p: Pair, row: Row)
    requires OneRow(s, p, row) && |ts| == |ops| + 1 && n <= |ops| && ts[0] == Duo(Some(row), None, None)
    requires forall i | 0 <= i < |ops| :: DuoAt(ts, ops, i, p)
    ensures forall i | 0 <= i < n :: OpEnabledAt(s, ops, i)
    ensures Shows(Performed(s, ops, n), p, ts[n])
  {
    if n > 0 {
      DuoRuns(s, ts, ops, n - 1, p, row);
      assert DuoAt(ts, ops, n - 1, p);
      DuoMoves(Performed(s, ops, n - 1), p, ts[n - 1], ops[n - 1]);
      assert OpEnabledAt(s, ops, n - 1);
    }
  }

  /** Call b begins while the release of call a is between its delete and its second look, and takes
      the absence of a row for what was there. */
  function LosingSchedule(p: Pair, d: nat, d': nat): seq<StoreOp> {
    [ReadRow(p, "a", d), WriteGrant(p, "a", d), DeleteOwn(p, "a"), ReadRow(p, "b", d'), WriteGrant(p, "b", d'),
     ReadAgain(p, "a"), Restore(p, "a"), DeleteOwn(p, "b"), ReadAgain(p, "b"), Restore(p, "b")]
  }

  /** Both calls are through, and the original row is gone. */
  lemma {:induction false} InterruptedReleaseLosesRow(s: Store, p: Pair, row: Row, d: nat, d': nat)
    requires OneRow(s, p, row)
    ensures var ops := LosingSchedule(p, d, d');
            && (forall i | 0 <= i < |ops| :: OpEnabledAt(s, ops, i))
            && p !in Performed(s, ops, |ops|).active
  {
    var ts := LosingTrace(p, row, d, d');
    DuoRuns(s, ts, LosingSchedule(p, d, d'), 10, p, row);
  }

  lemma {:induction false} LosingTrace(p: Pair, row: Row, d: nat, d': nat) returns (ts: seq<Duo>)
    requires row.name != "a" && row.name != "b"
    ensures var ops := LosingSchedule(p, d, d');
            && |ts| == |ops| + 1 && ts[0] == Duo(Some(row), None, None) && ts[10].row == None
            && forall i | 0 <= i < |ops| :: DuoAt(ts, ops, i, p)
  {
    var a, b := Caller(p, d, Some(row), HasRead), Caller(p, d', None, HasRead);
    var a1, a2 := a.(phase := Granted), a.(phase := Deleted);
    var a3, a4 := a.(phase := ReadBack(false)), a.(phase := Finished);
    var b1, b2 := b.(phase := Granted), b.(phase := Deleted);
    var b3, b4 := b.(phase := ReadBack(true)), b.(phase := Finished);
    var grant := Some(GrantRow("b", d'));
    ts := [Duo(Some(row), None, None), Duo(Some(row), Some(a), None), Duo(Some(GrantRow("a", d)), Some(a1), None),
           Duo(None, Some(a2), None), Duo(None, Some(a2), Some(b)), Duo(grant, Some(a2), Some(b1)),
           Duo(grant, Some(a3), Some(b1)), Duo(grant, Some(a4), Some(b1)), Duo(None, Some(a4), Some(b2)),
           Duo(None, Some(a4), Some(b3)), Duo(None, Some(a4), Some(b4))];
  }

  /** Call b reads the row before call a deletes it and writes after; it ends first all the same. */
  function LeakingSchedule(p: Pair, d: nat, d': nat): seq<StoreOp> {
    [ReadRow(p, "a", d), WriteGrant(p, "a", d), ReadRow(p, "b", d'), DeleteOwn(p, "a"), WriteGrant(p, "b", d'),
     ReadAgain(p, "a"), DeleteOwn(p, "b"), ReadAgain(p, "b"), Restore(p, "b"), Restore(p, "a")]
  }

  /** Order does not help once a begin is interrupted: the calls end last in first out, and the grant of
      call a stays in force. */
  lemma {:induction false} InterruptedBeginLeaksGrant(s: Store, p: Pair, row: Row, d: nat, d': nat)
    requires OneRow(s, p, row)
    ensures var ops := LeakingSchedule(p, d, d'); var es := Whole(ops, |ops|);
            && (forall i | 0 <= i < |ops| :: OpEnabledAt(s, ops, i))
            && LastInFirstOut(es, |es|, p)
            && RowAt(Performed(s, ops, |ops|).active, p) == Some(GrantRow("a", d))
  {
    var ts := LeakingTrace(p, row, d, d');
    DuoRuns(s, ts, LeakingSchedule(p, d, d'), 10, p, row);
    LeakingOrder(p, d, d');
  }

  lemma {:induction false} LeakingTrace(p: Pair, row: Row, d: nat, d': nat) returns (ts: seq<Duo>)
    requires row.name != "a" && row.name != "b"
    ensures var ops := LeakingSchedule(p, d, d');
            && |ts| == |ops| + 1 && ts[0] == Duo(Some(row), None, None) && ts[10].row == Some(GrantRow("a", d))
            && forall i | 0 <= i < |ops| :: DuoAt(ts, ops, i, p)
  {
    var ga, gb := Some(GrantRow("a", d)), Some(GrantRow("b", d'));
    var a, b := Caller(p, d, Some(row), HasRead), Caller(p, d', ga, HasRead);
    var a1, a2 := a.(phase := Granted), a.(phase := Deleted);
    var a3, a4 := a.(phase := ReadBack(false)), a.(phase := Finished);
    var b1, b2 := b.(phase := Granted), b.(phase := Deleted);
    var b3, b4 := b.(phase := ReadBack(true)), b.(phase := Finished);
    ts := [Duo(Some(row), None, None), Duo(Some(row), Some(a), None), Duo(ga, Some(a1), None),
           Duo(ga, Some(a1), Some(b)), Duo(None, Some(a2), Some(b)), Duo(gb, Some(a2), Some(b1)),
           Duo(gb, Some(a3), Some(b1)), Duo(None, Some(a3), Some(b2)), Duo(None, Some(a3), Some(b3)),
           Duo(ga, Some(a3), Some(b4)), Duo(ga, Some(a4), Some(b4))];
  }

  lemma {:induction false} LeakingBegins(p: Pair, d: nat, d': nat)
    ensures Whole(LeakingSchedule(p, d, d'), 6) == [Begin(p, "a", d), Begin(p, "b", d')]
  {
    var ops := LeakingSchedule(p, d, d');
    assert Whole(ops, 1) == [];
    assert Whole(ops, 2) == [Begin(p, "a", d)];
    assert Whole(ops, 4) == [Begin(p, "a", d)];
    assert Whole(ops, 5) == [Begin(p, "a", d)] + [Begin(p, "b", d')];
  }

  lemma {:induction false} LeakingOrder(p: Pair, d: nat, d': nat)
    ensures var es := Whole(LeakingSchedule(p, d, d'), 10); LastInFirstOut(es, |es|, p)
  {
    var ops := LeakingSchedule(p, d, d');
    LeakingBegins(p, d, d');
    var begun := Whole(ops, 6);
    assert Whole(ops, 8) == begun;
    assert Whole(ops, 9) == begun + [End(p, "b")];
    assert Whole(ops, 10) == begun + [End(p, "b")] + [End(p, "a")];
    assert Whole(ops, 10) == Nested(p, d, d');
    NestedIsInOrder(p, d, d');
  }

  function Nested(p: Pair, d: nat, d': nat): seq<CallEvent> {
    [Begin(p, "a", d), Begin(p, "b", d'), End(p, "b"), End(p, "a")]
  }

  lemma {:induction false} NestedIsInOrder(p: Pair, d: nat, d': nat)
    ensures LastInFirstOut(Nested(p, d, d'), 4, p)
  {
    var es := Nested(p, d, d');
    assert Open(es, 1, p) == ["a"];
    assert Open(es, 2, p) == ["a", "b"] && LastInFirstOut(es, 2, p);
    assert Open(es, 3, p) == ["a"] && LastInFirstOut(es, 3, p);
  }

  /** Another writer's row is respected if it is there at the second look; written after that, it is
      overwritten by the row the call restores. */
  lemma {:induction false} InterruptedRestoreOverwrites(s: Store, p: Pair, row: Row, newer: Row, d: nat)
    requires OneRow(s, p, row)
    ensures var ops := [ReadRow(p, "a", d), WriteGrant(p, "a", d), DeleteOwn(p, "a"), ReadAgain(p, "a"),
                        OtherWrite(p, Some(newer)), Restore(p, "a")];
            && (forall i | 0 <= i < |ops| :: OpEnabledAt(s, ops, i))
            && RowAt(Performed(s, ops, |ops|).active, p) == Some(row)
  {
    var ops := [ReadRow(p, "a", d), WriteGrant(p, "a", d), DeleteOwn(p, "a"), ReadAgain(p, "a"),
                OtherWrite(p, Some(newer)), Restore(p, "a")];
    var a := Caller(p, d, Some(row), HasRead);
    var a1, a2 := a.(phase := Granted), a.(phase := Deleted);
    var a3, a4 := a.(phase := ReadBack(true)), a.(phase := Finished);
    var ts := [Duo(Some(row), None, None), Duo(Some(row), Some(a), None), Duo(Some(GrantRow("a", d)), Some(a1), None),
               Duo(None, Some(a2), None), Duo(None, Some(a3), None), Duo(Some(newer), Some(a3), None),
               Duo(Some(row), Some(a4), None)];
    DuoRuns(s, ts, ops, 6, p, row);
  }
}
