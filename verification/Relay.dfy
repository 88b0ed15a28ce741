/** The pairing relay's connection table. Hubs connect, register under a device id and disconnect;
    a device may reconnect before its old connection has wound down. Each critical section is one
    step, and connections interleave freely. */
module Relay {
  import opened Base

  type Key = seq<bv8>

  // ---------- Critical sections ----------

  /** Binding a device to the first key it registers with. */
  function BindKey(keys: map<string, Key>, device: string, key: Key): (map<string, Key>, bool) {
    if device in keys then (keys, keys[device] == key) else (keys[device := key], true)
  }

  /** Cleanup removes the entry only if it still belongs to the connection that is closing. */
  function Evicted(hubs: map<string, nat>, device: string, conn: nat): map<string, nat> {
    if device in hubs && hubs[device] == conn then hubs - {device} else hubs
  }

  class RelayState {
    var hubs: map<string, nat>
    var deviceKeys: map<string, Key>
    var pending: map<string, nat>
    ghost var history: seq<DeskAction>

    /** The table of pending requests is what the actions on it so far amount to. */
    ghost predicate Valid()
      reads this
    {
      pending == Table(history, |history|)
    }

    constructor ()
      ensures hubs == map[] && deviceKeys == map[] && history == [] && Valid()
    {
      hubs, deviceKeys, pending, history := map[], map[], map[], [];
    }

    /** `verified` stands for the device id, signature, timestamp and replay checks. */
    method AcceptRegistration(device: string, key: Key, verified: bool) returns (ok: bool)
      modifies this`deviceKeys
      ensures !verified ==> !ok && deviceKeys == old(deviceKeys)
      ensures verified ==> (deviceKeys, ok) == BindKey(old(deviceKeys), device, key)
    {
      if !verified {
        return false;
      }
      if device in deviceKeys {
        if deviceKeys[device] != key {
          return false;
        }
      } else {
        deviceKeys := deviceKeys[device := key];
      }
      return true;
    }

    method Register(device: string, conn: nat)
      modifies this`hubs
      ensures hubs == old(hubs)[device := conn]
    {
      hubs := hubs[device := conn];
    }

    method Cleanup(device: Option<string>, conn: nat)
      modifies this`hubs
      ensures hubs == if device.Some? then Evicted(old(hubs), device.value, conn) else old(hubs)
    {
      if device.Some? {
        if device.value in hubs && hubs[device.value] == conn {
          hubs := hubs - {device.value};
        }
      }
    }

    /** A phone's request waits under a fresh id for the Hub's response. */
    method Forward(id: string, waiter: nat)
      requires Valid()
      modifies this`pending, this`history
      ensures Valid() && history == old(history) + [Begin(id, waiter)]
    {
      pending := pending[id := waiter];
      ghost var was := history;
      history := history + [Begin(id, waiter)];
      TablePrefix(was, Begin(id, waiter), |was|);
    }

    /** A response finds the request that began under its id and has since been neither answered nor
        ended, if there is one. */
    method Respond(id: string) returns (waiter: Option<nat>)
      requires Valid() && UniqueIds(history)
      modifies this`pending, this`history
      ensures Valid() && history == old(history) + [Response(id)]
      ensures forall w: nat :: waiter == Some(w) <==> Awaits(old(history), |old(history)|, id, w)
    {
      waiter := if id in pending then Some(pending[id]) else None;
      pending := pending - {id};
      ghost var was := history;
      history := history + [Response(id)];
      TablePrefix(was, Response(id), |was|);
      forall w: nat ensures waiter == Some(w) <==> Awaits(was, |was|, id, w) {
        WaiterIsOwn(was, |was|, id, w);
      }
    }

    /** The guard removes the request however it ends. */
    method DropPending(id: string)
      requires Valid()
      modifies this`pending, this`history
      ensures Valid() && history == old(history) + [End(id)]
    {
      pending := pending - {id};
      ghost var was := history;
      history := history + [End(id)];
      TablePrefix(was, End(id), |was|);
    }
  }

  // ---------- Connections ----------

  /** A connection: open, accepted but not yet in the table, in the table, or gone. */
  datatype Pc = Open | Accepted(device: string) | Registered(device: string) | Closed

  datatype State = State(hubs: map<string, nat>, keys: map<string, Key>, conns: seq<Pc>)

  datatype Action =
    | Connect
    | Accept(conn: nat, device: string, key: Key)  // passed every check before the key binding
    | Insert(conn: nat)
    | Close(conn: nat)                             // end of the event loop, then cleanup

  predicate Enabled(s: State, a: Action) {
    match a
    case Connect => true
    case Accept(c, _, _) => c < |s.conns| && s.conns[c].Open?
    case Insert(c) => c < |s.conns| && s.conns[c].Accepted?
    case Close(c) => c < |s.conns| && (s.conns[c].Open? || s.conns[c].Registered?)
  }

  function Next(s: State, a: Action): State
    requires Enabled(s, a)
  {
    match a
    case Connect => s.(conns := s.conns + [Open])
    case Accept(c, d, k) =>
      var (keys, ok) := BindKey(s.keys, d, k);
      s.(keys := keys, conns := s.conns[c := if ok then Accepted(d) else Closed])
    case Insert(c) =>
      var d := s.conns[c].device;
      s.(hubs := s.hubs[d := c], conns := s.conns[c := Registered(d)])
    case Close(c) =>
      s.(hubs := if s.conns[c].Registered? then Evicted(s.hubs, s.conns[c].device, c) else s.hubs,
         conns := s.conns[c := Closed])
  }

  datatype Event = Event(action: Action, pre: State, post: State)

  ghost predicate Linked(run: seq<Event>, i: nat)
    requires i < |run|
  {
    var e := run[i];
    && Enabled(e.pre, e.action) && e.post == Next(e.pre, e.action)
    && e.pre == if i == 0 then State(map[], map[], []) else run[i - 1].post
  }

  ghost predicate IsRun(run: seq<Event>) {
    forall i | 0 <= i < |run| :: Linked(run, i)
  }

  /** The event registered connection `c` in the table under device `d`. */
  predicate Registers(e: Event, d: string) {
    e.action.Insert? && e.action.conn < |e.pre.conns| && e.pre.conns[e.action.conn] == Accepted(d)
  }

  /** The connection most recently registered for a device among the first `n` events. */
  function LastRegistered(run: seq<Event>, n: nat, d: string): Option<nat>
    requires n <= |run|
  {
    if n == 0 then None
    else if Registers(run[n - 1], d) then Some(run[n - 1].action.conn)
    else LastRegistered(run, n - 1, d)
  }

  /** Connection `c` has cleaned up among the first `n` events. */
  predicate HasClosed(run: seq<Event>, n: nat, c: nat)
    requires n <= |run|
  {
    if n == 0 then false else run[n - 1].action == Close(c) || HasClosed(run, n - 1, c)
  }

  function StateAfter(run: seq<Event>, n: nat): State
    requires n <= |run|
  {
    if n == 0 then State(map[], map[], []) else run[n - 1].post
  }

  /** For one device: its entry is exactly its last registered connection while that is open. */
  ghost predicate EntryExact(run: seq<Event>, n: nat, d: string)
    requires n <= |run|
  {
    var s, last := StateAfter(run, n), LastRegistered(run, n, d);
    && (d in s.hubs <==> last.Some? && !HasClosed(run, n, last.value))
    && (d in s.hubs ==> s.hubs[d] == last.value)
    && (last.Some? ==>
          && last.value < |s.conns|
          && s.conns[last.value] == if HasClosed(run, n, last.value) then Closed else Registered(d))
  }

  lemma {:induction false} ClosedStays(run: seq<Event>, n: nat, c: nat)
    requires IsRun(run) && n <= |run|
    ensures c < |StateAfter(run, n).conns| && HasClosed(run, n, c) ==> StateAfter(run, n).conns[c] == Closed
    ensures c >= |StateAfter(run, n).conns| ==> !HasClosed(run, n, c)
  {
    if n > 0 {
      assert Linked(run, n - 1);
      ClosedStays(run, n - 1, c);
    }
  }

  /** Reconnect safety: in every interleaving a device's entry exists exactly while its most recently
      registered connection has not cleaned up, and it names that connection. */
  lemma {:induction false} ReconnectIsSafe(run: seq<Event>, n: nat, d: string)
    requires IsRun(run) && n <= |run|
    ensures EntryExact(run, n, d)
  {
    if n > 0 {
      ReconnectIsSafe(run, n - 1, d);
      assert Linked(run, n - 1);
      EntryStep(run, n - 1, d);
    }
  }

  lemma {:induction false} EntryStep(run: seq<Event>, i: nat, d: string)
    requires IsRun(run) && i < |run| && Linked(run, i) && EntryExact(run, i, d)
    ensures EntryExact(run, i + 1, d)
  {
    var e := run[i];
    if Registers(e, d) {
      ClosedStays(run, i, e.action.conn);
    }
  }

  // ---------- Keys ----------

  /** The event accepted a registration of device `d` with key `k`. */
  predicate AcceptsKey(e: Event, d: string, k: Key) {
    && e.action.Accept? && e.action.device == d && e.action.key == k
    && e.action.conn < |e.post.conns| && e.post.conns[e.action.conn] == Accepted(d)
  }

  lemma {:induction false} KeyStays(run: seq<Event>, i: nat, n: nat, d: string, k: Key)
    requires IsRun(run) && i < n <= |run| && AcceptsKey(run[i], d, k)
    ensures d in StateAfter(run, n).keys && StateAfter(run, n).keys[d] == k
  {
    assert Linked(run, n - 1);
    if i < n - 1 {
      KeyStays(run, i, n - 1, d, k);
    }
  }

  /** Every accepted registration of a device carries the same key, across reconnects. */
  lemma {:induction false} OneKeyPerDevice(run: seq<Event>, i: nat, j: nat, d: string, k: Key, k': Key)
    requires IsRun(run) && i < j < |run|
    requires AcceptsKey(run[i], d, k) && AcceptsKey(run[j], d, k')
    ensures k == k'
  {
    KeyStays(run, i, |run|, d, k);
    KeyStays(run, j, |run|, d, k');
  }

  /** A key is bound only by a registration that was accepted with it. */
  lemma {:induction false} KeyCameFrom(run: seq<Event>, n: nat, d: string) returns (j: nat)
    requires IsRun(run) && n <= |run| && d in StateAfter(run, n).keys
    ensures j < n && AcceptsKey(run[j], d, StateAfter(run, n).keys[d])
  {
    assert Linked(run, n - 1);
    if d in StateAfter(run, n - 1).keys {
      j := KeyCameFrom(run, n - 1, d);
    } else {
      j := n - 1;
    }
  }

  /** A verified registration is accepted if and only if no earlier accepted one of that device carried
      another key: a device that reconnects with its own key is always let in. */
  lemma {:induction false} AcceptedIffNoOtherKey(run: seq<Event>, i: nat, d: string, k: Key)
    requires IsRun(run) && i < |run| && run[i].action.Accept?
    requires run[i].action.device == d && run[i].action.key == k
    ensures AcceptsKey(run[i], d, k) <==> forall j, k' | 0 <= j < i && AcceptsKey(run[j], d, k') :: k' == k
  {
    assert Linked(run, i);
    forall j, k' | 0 <= j < i && AcceptsKey(run[j], d, k')
      ensures d in run[i].pre.keys && run[i].pre.keys[d] == k'
    {
      KeyStays(run, j, i, d, k');
    }
    if d in run[i].pre.keys {
      var j := KeyCameFrom(run, i, d);
    }
  }

  // ---------- Pending requests ----------

  datatype DeskAction =
    | Begin(id: string, waiter: nat) // a request is inserted under a new id
    | Response(id: string)           // a Hub answers: the entry is removed and its waiter, if any, is woken
    | End(id: string)                // the guard is dropped: reply, timeout, overload or cancellation

  /** The pending table after the first `n` actions, whichever sockets and requests they come from. */
  function Table(acts: seq<DeskAction>, n: nat): map<string, nat>
    requires n <= |acts|
  {
    if n == 0 then map[]
    else match acts[n - 1]
      case Begin(id, w) => Table(acts, n - 1)[id := w]
      case Response(id) => Table(acts, n - 1) - {id}
      case End(id) => Table(acts, n - 1) - {id}
  }

  lemma {:induction false} TablePrefix(acts: seq<DeskAction>, a: DeskAction, n: nat)
    requires n <= |acts|
    ensures Table(acts + [a], n) == Table(acts, n)
  {
    if n > 0 {
      TablePrefix(acts, a, n - 1);
    }
  }

  /** Between actions `i` and `n` the request `id` is neither answered nor ended. */
  ghost predicate Unsettled(acts: seq<DeskAction>, i: nat, n: nat, id: string)
    requires n <= |acts|
  {
    forall j | i < j < n :: acts[j] != Response(id) && acts[j] != End(id)
  }

  /** Request `id` began at action `i`, and nothing has settled it by action `n`. */
  ghost predicate WaitsSince(acts: seq<DeskAction>, i: nat, n: nat, id: string)
    requires n <= |acts|
  {
    i < n && acts[i].Begin? && acts[i].id == id && Unsettled(acts, i, n, id)
  }

  ghost predicate Awaits(acts: seq<DeskAction>, n: nat, id: string, w: nat)
    requires n <= |acts|
  {
    exists i: nat :: WaitsSince(acts, i, n, id) && acts[i].waiter == w
  }

  /** Request ids are random and never repeat. */
  ghost predicate UniqueIds(acts: seq<DeskAction>) {
    forall i, j | 0 <= i < j < |acts| && acts[i].Begin? && acts[j].Begin? :: acts[i].id != acts[j].id
  }

  /** Nothing leaks and nothing is lost: after any actions, forged and repeated responses included, a
      request is in the table if and only if it began and has since been neither answered nor ended. */
  lemma {:induction false} PendingIsExact(acts: seq<DeskAction>, n: nat, id: string)
    requires n <= |acts|
    ensures id in Table(acts, n) <==> exists i: nat :: WaitsSince(acts, i, n, id)
  {
    if n > 0 {
      PendingIsExact(acts, n - 1, id);
      var a := acts[n - 1];
      if a.Begin? && a.id == id {
        assert WaitsSince(acts, n - 1, n, id);
      } else if a == Response(id) || a == End(id) {
        assert forall i: nat | i < n - 1 :: !Unsettled(acts, i, n, id);
      } else {
        assert id in Table(acts, n) <==> id in Table(acts, n - 1);
        var m := n - 1;
        if i: nat :| WaitsSince(acts, i, m, id) {
          assert WaitsSince(acts, i, n, id);
        }
        if i: nat :| WaitsSince(acts, i, n, id) {
          assert WaitsSince(acts, i, m, id);
        }
      }
    }
  }

  /** The table holds, for each request, the waiter it began with. */
  lemma {:induction false} WaiterIsOwn(acts: seq<DeskAction>, n: nat, id: string, w: nat)
    requires n <= |acts| && UniqueIds(acts)
    ensures id in Table(acts, n) && Table(acts, n)[id] == w <==> Awaits(acts, n, id, w)
  {
    PendingIsExact(acts, n, id);
    forall i: nat | WaitsSince(acts, i, n, id) ensures Table(acts, n)[id] == acts[i].waiter {
      WaiterSince(acts, i, n, id);
    }
  }

  lemma {:induction false} WaiterSince(acts: seq<DeskAction>, i: nat, n: nat, id: string)
    requires n <= |acts| && UniqueIds(acts) && WaitsSince(acts, i, n, id)
    ensures id in Table(acts, n) && Table(acts, n)[id] == acts[i].waiter
    decreases n
  {
    if i < n - 1 {
      assert Unsettled(acts, i, n - 1, id);
      WaiterSince(acts, i, n - 1, id);
    }
  }

  /** A waiter is woken at most once: after one response or its end, a request waits no more. */
  lemma {:induction false} SettledOnce(acts: seq<DeskAction>, i: nat, n: nat, id: string)
    requires i < n <= |acts| && UniqueIds(acts)
    requires acts[i] == Response(id) || acts[i] == End(id)
    requires exists b: nat :: b < i && acts[b].Begin? && acts[b].id == id
    ensures id !in Table(acts, n)
  {
    PendingIsExact(acts, n, id);
    forall b: nat ensures !WaitsSince(acts, b, n, id) {
      if b < i {
        assert !Unsettled(acts, b, n, id);
      }
    }
  }

  /** Once every request that began has ended, whatever responses came or failed to, the table is empty. */
  lemma {:induction false} QuietTableIsEmpty(acts: seq<DeskAction>, n: nat)
    requires n <= |acts|
    requires forall i | 0 <= i < n && acts[i].Begin? :: exists j | i < j < n :: acts[j] == End(acts[i].id)
    ensures Table(acts, n) == map[]
  {
    forall id ensures id !in Table(acts, n) {
      PendingIsExact(acts, n, id);
      forall i: nat ensures !WaitsSince(acts, i, n, id) {
        if i < n && acts[i].Begin? && acts[i].id == id {
          var j :| i < j < n && acts[j] == End(acts[i].id);
          assert acts[j] == End(id);
        }
      }
    }
  }
}
