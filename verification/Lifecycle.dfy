/** Clients come and go: the registry and the router kept in step by the hub's lifecycle operations.
    Each operation runs to completion; the new hash it mints and the replacement default it picks are
    part of the operation. */
module Lifecycle {
  import opened Base
  import opened Text
  import opened Registry

  // ---------- The router ----------

  datatype Routes = Routes(active: map<string, string>, default: Option<string>) {

    function SetRoute(user: string, v: string): Routes {
      this.(active := active[user := v])
    }

    function RemoveRoutesFor(v: string, newDefault: Option<string>): Routes {
      Routes(map u | u in active && active[u] != v :: active[u],
             if default == Some(v) then newDefault else default)
    }

    function GetRoute(user: string): Option<string> {
      if user in active then Some(active[user]) else default
    }
  }

  class Router {
    var activeRoutes: map<string, string>
    var defaultClient: Option<string>

    function View(): Routes
      reads this
    {
      Routes(activeRoutes, defaultClient)
    }

    constructor ()
      ensures View() == Routes(map[], None)
    {
      activeRoutes, defaultClient := map[], None;
    }

    method SetDefault(vtoken: string)
      modifies this`defaultClient
      ensures View() == old(View()).(default := Some(vtoken))
    {
      defaultClient := Some(vtoken);
    }

    method SetRoute(user: string, vtoken: string)
      modifies this`activeRoutes
      ensures View() == old(View()).SetRoute(user, vtoken)
    {
      activeRoutes := activeRoutes[user := vtoken];
    }

    method RemoveRoutesForVtoken(vtoken: string, newDefault: Option<string>)
      modifies this
      ensures View() == old(View()).RemoveRoutesFor(vtoken, newDefault)
    {
      if defaultClient == Some(vtoken) {
        defaultClient := newDefault;
      }
      activeRoutes := map u | u in activeRoutes && activeRoutes[u] != vtoken :: activeRoutes[u];
    }
  }

  // ---------- The hub ----------

  datatype Reply =
    | Done
    | Registered(hash: string, isNew: bool)
    | NameCollision
    | UnknownClient
    | StillOnline
    | InvalidName
    | NameInUse
    | NoSuchBackend
    | StoreFailed

  datatype Op =
    | Register(name: string, tag: Option<string>, description: Option<string>, minted: string)
    | Pair(name: string, tag: Option<string>, description: Option<string>, minted: string)
    | Use(user: string, target: Option<ClientInfo>, stored: bool)
    | Rename(name: string, newName: string, tag: Option<string>,
             personaName: Option<string>, personaEmoji: Option<string>)
    | Revoke(name: string, minted: string, pick: Option<string>)
    | Unregister(name: string, force: bool, pick: Option<string>)
    | Rollback(name: string, vtoken: string, pick: Option<string>)
    | Presence(vtoken: string, online: bool)
  {
    function Minted(): set<string> {
      if Register? || Pair? || Revoke? then {minted} else {}
    }
  }

  datatype Hub = Hub(reg: Reg, rt: Routes) {

    /** Index and listing agree, nothing points at a client that is gone, and there is a default
        exactly when there is a client. */
    ghost predicate Sound() {
      && reg.Inverse()
      && (forall u | u in rt.active :: rt.active[u] in reg.byVtoken)
      && (rt.default.Some? <==> reg.byVtoken != map[])
      && (rt.default.Some? ==> rt.default.value in reg.byVtoken)
    }

    predicate Registered(v: string) {
      v in reg.byVtoken
    }

    /** Nothing in the hub mentions `v`. */
    ghost predicate Forgotten(v: string) {
      && v !in reg.byVtoken
      && (forall n | n in reg.byName :: reg.byName[n] != v)
      && (forall u | u in rt.active :: rt.active[u] != v)
      && rt.default != Some(v)
    }

    function DefaultIfFirst(v: string): Hub {
      if |reg.byVtoken| == 1 then this.(rt := rt.(default := Some(v))) else this
    }

    function Register(name: string, tag: Option<string>, description: Option<string>, minted: string): (Hub, Reply) {
      var (r, hash, isNew) := reg.Register(name, tag, description, minted);
      var h := this.(reg := r);
      (if isNew then h.DefaultIfFirst(hash) else h, Reply.Registered(hash, isNew))
    }

    function Pair(name: string, tag: Option<string>, description: Option<string>, hash: string): (Hub, Reply) {
      var (r, ok) := reg.RegisterConfirmed(name, tag, description, hash);
      if ok then (this.(reg := r).DefaultIfFirst(hash), Reply.Registered(hash, true)) else (this, NameCollision)
    }

    function Use(user: string, target: Option<ClientInfo>, stored: bool): (Hub, Reply) {
      if target.None? then (this, NoSuchBackend)
      else if !stored then (this, StoreFailed)
      else (this.(rt := rt.SetRoute(user, target.value.vtoken)), Done)
    }

    function Rename(name: string, newName: string, tag: Option<string>,
                    personaName: Option<string>, personaEmoji: Option<string>): (Hub, Reply) {
      if Trim(newName) == "" then (this, InvalidName)
      else
        var (r, outcome) := reg.UpdateClient(name, Trim(newName), tag);
        match outcome
        case NotFound => (this.(reg := r), UnknownClient)
        case NameTaken => (this.(reg := r), NameInUse)
        case Updated(v) => (this.(reg := r.UpdateMetadata(v, None, None, personaName, personaEmoji)), Done)
    }

    function Revoke(name: string, minted: string, pick: Option<string>): (Hub, Reply) {
      match reg.GetByName(name)
      case None => (this, UnknownClient)
      case Some(c) =>
        var (r, ok) := reg.RotateVtoken(name, minted);
        if ok then (Hub(r, rt.RemoveRoutesFor(c.vtoken, pick)), Done) else (this, UnknownClient)
    }

    /** Remove `name`, then every route to `v`. */
    function Drop(name: string, v: string, pick: Option<string>): (Hub, Reply) {
      var (r, ok) := reg.Remove(name);
      if ok then (Hub(r, rt.RemoveRoutesFor(v, pick)), Done) else (this, UnknownClient)
    }

    function Unregister(name: string, force: bool, pick: Option<string>): (Hub, Reply) {
      match reg.GetByName(name)
      case None => (this, UnknownClient)
      case Some(c) => if c.online && !force then (this, StillOnline) else Drop(name, c.vtoken, pick)
    }

    function Rollback(name: string, v: string, pick: Option<string>): (Hub, Reply) {
      var c := reg.GetByName(name);
      if c.Some? && c.value.vtoken == v then Drop(name, v, pick) else (this, Done)
    }

    function Apply(op: Op): (Hub, Reply) {
      match op
      case Register(name, tag, description, minted) => Register(name, tag, description, minted)
      case Pair(name, tag, description, minted) => Pair(name, tag, description, minted)
      case Use(user, target, stored) => Use(user, target, stored)
      case Rename(name, newName, tag, personaName, personaEmoji) =>
        Rename(name, newName, tag, personaName, personaEmoji)
      case Revoke(name, minted, pick) => Revoke(name, minted, pick)
      case Unregister(name, force, pick) => Unregister(name, force, pick)
      case Rollback(name, v, pick) => Rollback(name, v, pick)
      case Presence(v, online) => (this.(reg := reg.SetOnline(v, online)), Done)
    }

    /** The token under which `name` is registered, if it is. */
    function TokenOf(name: string): Option<string> {
      var c := reg.GetByName(name);
      if c.Some? then Some(c.value.vtoken) else None
    }

    /** Minted hashes are new, `/use` resolved to a registered client, and the replacement default is
        one the registry may pick. */
    ghost predicate Legal(op: Op) {
      match op
      case Register(_, _, _, minted) => minted !in reg.byVtoken
      case Pair(_, _, _, minted) => minted !in reg.byVtoken
      case Use(_, target, _) => target.Some? ==> reg.Visible(None, target.value)
      case Revoke(name, minted, pick) =>
        minted !in reg.byVtoken
        && var v := TokenOf(name); v.Some? ==> reg.RotateVtoken(name, minted).0.MayPick(v.value, pick)
      case Unregister(name, force, pick) =>
        var c := reg.GetByName(name);
        c.Some? && (force || !c.value.online) ==> reg.Remove(name).0.MayPick(c.value.vtoken, pick)
      case Rollback(name, v, pick) => TokenOf(name) == Some(v) ==> reg.Remove(name).0.MayPick(v, pick)
      case Rename(_, _, _, _, _) => true
      case Presence(_, _) => true
    }
  }

  const EMPTY_HUB := Hub(Reg(map[], map[]), Routes(map[], None))

  // ---------- One operation ----------

  lemma {:induction false} PutIsSound(h: Hub, info: ClientInfo)
    requires h.Sound() && info.name !in h.reg.byName && info.vtoken !in h.reg.byVtoken
    ensures h.(reg := h.reg.Put(info.name, info)).DefaultIfFirst(info.vtoken).Sound()
  {
    var r := h.reg.Put(info.name, info);
    assert r.Inverse();
    assert info.vtoken in r.byVtoken;
    assert |r.byVtoken| == |h.reg.byVtoken| + 1;
  }

  /** Changing a client's details but not its name or token disturbs nothing. */
  lemma {:induction false} TouchIsSound(h: Hub, v: string, info: ClientInfo)
    requires h.Sound() && v in h.reg.byVtoken
    requires info.vtoken == v && info.name == h.reg.byVtoken[v].name
    ensures h.(reg := h.reg.(byVtoken := h.reg.byVtoken[v := info])).Sound()
  {
    assert v in h.reg.byVtoken[v := info];
  }

  lemma {:induction false} RenameIsSound(h: Hub, oldName: string, newName: string, tag: Option<string>)
    requires h.Sound()
    ensures h.(reg := h.reg.UpdateClient(oldName, newName, tag).0).Sound()
  {
    var (r, outcome) := h.reg.UpdateClient(oldName, newName, tag);
    if outcome.Updated? {
      assert r.byVtoken.Keys == h.reg.byVtoken.Keys;
      assert h.reg.byName[oldName] in r.byVtoken;
    }
  }

  lemma {:induction false} RotateIsInverse(reg: Reg, name: string, minted: string)
    requires reg.Inverse() && name in reg.byName && minted !in reg.byVtoken
    ensures var r := reg.RotateVtoken(name, minted).0;
            r.Inverse() && r.byVtoken.Keys == reg.byVtoken.Keys - {reg.byName[name]} + {minted}
  {
  }

  lemma {:induction false} RemoveIsInverse(reg: Reg, name: string)
    requires reg.Inverse() && name in reg.byName
    ensures var r := reg.Remove(name).0;
            r.Inverse() && r.byVtoken.Keys == reg.byVtoken.Keys - {reg.byName[name]}
  {
  }

  /** A legal pick is a registered client, and there is one when any client is left. */
  lemma {:induction false} PickIsRegistered(reg: Reg, v: string, pick: Option<string>)
    requires reg.Inverse() && v !in reg.byVtoken && reg.MayPick(v, pick)
    ensures pick.Some? <==> reg.byVtoken != map[]
    ensures pick.Some? ==> pick.value in reg.byVtoken
  {
    var others := set w | w in reg.byVtoken && reg.byVtoken[w].vtoken != v;
    assert others == reg.byVtoken.Keys;
  }

  /** Replacing `v` in the registry and clearing its routes leaves the hub sound. */
  lemma {:induction false} ClearIsSound(h: Hub, r: Reg, v: string, pick: Option<string>)
    requires h.Sound() && r.Inverse() && v in h.reg.byVtoken && v !in r.byVtoken
    requires h.reg.byVtoken.Keys - {v} <= r.byVtoken.Keys
    requires r.MayPick(v, pick)
    ensures Hub(r, h.rt.RemoveRoutesFor(v, pick)).Sound()
  {
    PickIsRegistered(r, v, pick);
    if h.rt.default != Some(v) {
      assert h.rt.default.value in r.byVtoken;
    }
  }

  lemma {:induction false} DropIsSound(h: Hub, name: string, pick: Option<string>)
    requires h.Sound() && name in h.reg.byName
    requires h.reg.Remove(name).0.MayPick(h.reg.byName[name], pick)
    ensures h.Drop(name, h.reg.byName[name], pick).0.Sound()
  {
    RemoveIsInverse(h.reg, name);
    ClearIsSound(h, h.reg.Remove(name).0, h.reg.byName[name], pick);
  }

  lemma {:induction false} RevokeIsSound(h: Hub, name: string, minted: string, pick: Option<string>)
    requires h.Sound() && h.Legal(Revoke(name, minted, pick))
    ensures h.Revoke(name, minted, pick).0.Sound()
  {
    if name in h.reg.byName {
      RotateIsInverse(h.reg, name, minted);
      ClearIsSound(h, h.reg.RotateVtoken(name, minted).0, h.reg.byName[name], pick);
    }
  }

  lemma {:induction false} RegisterIsSound(h: Hub, name: string, tag: Option<string>, description: Option<string>,
                                           minted: string)
    requires h.Sound() && minted !in h.reg.byVtoken
    ensures h.Register(name, tag, description, minted).0.Sound()
    ensures h.Pair(name, tag, description, minted).0.Sound()
  {
    if name in h.reg.byName {
      var v := h.reg.byName[name];
      var i := h.reg.byVtoken[v];
      TouchIsSound(h, v, i.(tag := Or(tag, i.tag), description := Or(description, i.description), online := true));
    } else {
      PutIsSound(h, NewClient(name, tag, description, minted));
    }
  }

  lemma {:induction false} UpdateIsSound(h: Hub, op: Op)
    requires h.Sound() && (op.Rename? || op.Presence?)
    ensures h.Apply(op).0.Sound()
  {
    if op.Presence? {
      if op.vtoken in h.reg.byVtoken {
        TouchIsSound(h, op.vtoken, h.reg.byVtoken[op.vtoken].(online := op.online));
      }
    } else {
      var r := h.reg.UpdateClient(op.name, Trim(op.newName), op.tag);
      RenameIsSound(h, op.name, Trim(op.newName), op.tag);
      if r.1.Updated? {
        var i := r.0.byVtoken[r.1.vtoken];
        TouchIsSound(h.(reg := r.0), r.1.vtoken,
                     i.(personaName := Or(op.personaName, i.personaName),
                        personaEmoji := Or(op.personaEmoji, i.personaEmoji)));
      }
    }
  }

  lemma {:induction false} StepIsSound(h: Hub, op: Op)
    requires h.Sound() && h.Legal(op)
    ensures h.Apply(op).0.Sound()
  {
    match op
    case Register(name, tag, description, minted) => RegisterIsSound(h, name, tag, description, minted);
    case Pair(name, tag, description, minted) => RegisterIsSound(h, name, tag, description, minted);
    case Use(user, target, stored) =>
    case Rename(_, _, _, _, _) => UpdateIsSound(h, op);
    case Presence(_, _) => UpdateIsSound(h, op);
    case Revoke(name, minted, pick) => RevokeIsSound(h, name, minted, pick);
    case Unregister(name, force, pick) =>
      if name in h.reg.byName && (force || !h.reg.byVtoken[h.reg.byName[name]].online) {
        DropIsSound(h, name, pick);
      }
    case Rollback(name, v, pick) =>
      if h.TokenOf(name) == Some(v) {
        DropIsSound(h, name, pick);
      }
  }

  /** What the admin's update answers, and what every name finds afterwards. */
  lemma {:induction false} RenameYields(h: Hub, name: string, newName: string, tag: Option<string>,
                                        personaName: Option<string>, personaEmoji: Option<string>, n: string)
    requires h.Sound()
    ensures var (after, reply) := h.Rename(name, newName, tag, personaName, personaEmoji);
            var was, to := h.reg.GetByName(name), Trim(newName);
            && after.rt == h.rt
            && reply == (if to == "" then InvalidName
                         else if was.None? then UnknownClient
                         else if to != name && h.reg.GetByName(to).Some? then NameInUse
                         else Done)
            && after.reg.GetByName(n) ==
               if reply != Done then h.reg.GetByName(n)
               else if n == to then
                 Some(was.value.(name := to, tag := if tag.Some? then tag else was.value.tag,
                                 personaName := if personaName.Some? then personaName else was.value.personaName,
                                 personaEmoji := if personaEmoji.Some? then personaEmoji else was.value.personaEmoji))
               else if n == name then None
               else h.reg.GetByName(n)
  {
    var to := Trim(newName);
    if to != "" {
      UpdateYields(h.reg, name, to, tag, n);
      UpdateYields(h.reg, name, to, tag, to);
      var (r, out) := h.reg.UpdateClient(name, to, tag);
      RenameIsSound(h, name, to, tag);
      if out.Updated? {
        MetadataYields(r, out.vtoken, None, None, personaName, personaEmoji, n);
      }
    }
  }

  /** A replacement default is somebody else, and online if anybody else is. */
  lemma {:induction false} PickPrefersOnline(reg: Reg, removed: string, pick: Option<string>)
    requires reg.Inverse() && reg.MayPick(removed, pick)
    ensures pick.Some? <==> exists v :: v in reg.byVtoken && v != removed
    ensures pick.Some? ==> pick.value in reg.byVtoken && pick.value != removed
    ensures pick.Some? && (exists v :: v in reg.byVtoken && v != removed && reg.byVtoken[v].online) ==>
              reg.byVtoken[pick.value].online
  {
    var others := set v | v in reg.byVtoken && reg.byVtoken[v].vtoken != removed;
    var awake := set v | v in others && reg.byVtoken[v].online;
    if v :| v in reg.byVtoken && v != removed {
      assert v in others;
    }
    if v :| v in reg.byVtoken && v != removed && reg.byVtoken[v].online {
      assert v in awake;
    }
  }

  /** An unregister is refused for an unknown client, and for one that is online unless forced. Otherwise
      the hub forgets the client, its users fall back on the default, and nobody else notices. */
  lemma {:induction false} UnregisterYields(h: Hub, name: string, force: bool, pick: Option<string>, n: string,
                                            user: string)
    requires h.Sound() && h.Legal(Unregister(name, force, pick))
    ensures var (after, reply) := h.Unregister(name, force, pick);
            var was := h.reg.GetByName(name);
            && reply == (if was.None? then UnknownClient
                         else if was.value.online && !force then StillOnline else Done)
            && (reply != Done ==> after == h)
            && (reply == Done ==>
                  && after.Forgotten(was.value.vtoken)
                  && after.reg.GetByName(n) == (if n == name then None else h.reg.GetByName(n))
                  && after.rt.GetRoute(user) ==
                     if user in h.rt.active && h.rt.active[user] != was.value.vtoken then Some(h.rt.active[user])
                     else if h.rt.default == Some(was.value.vtoken) then pick
                     else h.rt.default)
  {
    var was := h.reg.GetByName(name);
    if was.Some? && (force || !was.value.online) {
      RemoveYields(h.reg, name, n);
      RemoveIsInverse(h.reg, name);
      DropIsSound(h, name, pick);
      assert was.value.vtoken !in h.Unregister(name, force, pick).0.reg.byVtoken;
    }
  }

  // ---------- Whole runs ----------

  datatype Event = Event(pre: Hub, op: Op, reply: Reply, post: Hub)

  function MintedBefore(run: seq<Event>, n: nat): set<string>
    requires n <= |run|
  {
    if n == 0 then {} else MintedBefore(run, n - 1) + run[n - 1].op.Minted()
  }

  /** Event `i` follows on from the one before it, and mints nothing that was ever minted. */
  ghost predicate Linked(run: seq<Event>, i: nat)
    requires i < |run|
  {
    var e := run[i];
    && e.pre == (if i == 0 then EMPTY_HUB else run[i - 1].post)
    && e.pre.Legal(e.op)
    && (e.post, e.reply) == e.pre.Apply(e.op)
    && e.op.Minted() !! MintedBefore(run, i)
  }

  ghost predicate IsRun(run: seq<Event>) {
    forall i | 0 <= i < |run| :: Linked(run, i)
  }

  lemma {:induction false} StaysSound(run: seq<Event>, i: nat)
    requires IsRun(run) && i < |run|
    ensures run[i].pre.Sound() && run[i].post.Sound()
  {
    assert Linked(run, i);
    if i > 0 {
      StaysSound(run, i - 1);
    }
    StepIsSound(run[i].pre, run[i].op);
  }

  /** After every operation of every run the two maps are inverse, every user's messages have a
      registered client to go to as soon as there is any client, and nothing else is routed to. */
  lemma {:induction false} RoutingIntegrity(run: seq<Event>, i: nat, user: string)
    requires IsRun(run) && i < |run|
    ensures var h := run[i].post;
            && h.reg.Inverse()
            && (h.rt.default.Some? <==> h.reg.byVtoken != map[])
            && (h.rt.GetRoute(user).Some? <==> h.reg.byVtoken != map[])
            && (h.rt.GetRoute(user).Some? ==> h.Registered(h.rt.GetRoute(user).value))
  {
    StaysSound(run, i);
    var h := run[i].post;
    if user in h.rt.active {
      assert h.rt.active[user] in h.reg.byVtoken;
    }
  }

  /** Tokens enter the registry only by being minted. */
  lemma {:induction false} KeysStep(h: Hub, op: Op, v: string)
    requires v in h.Apply(op).0.reg.byVtoken
    ensures v in h.reg.byVtoken || v in op.Minted()
  {
  }

  lemma {:induction false} KeysWereMinted(run: seq<Event>, i: nat)
    requires IsRun(run) && i < |run|
    ensures run[i].pre.reg.byVtoken.Keys <= MintedBefore(run, i)
    ensures run[i].post.reg.byVtoken.Keys <= MintedBefore(run, i + 1)
  {
    assert Linked(run, i);
    if i > 0 {
      KeysWereMinted(run, i - 1);
    }
    forall v | v in run[i].post.reg.byVtoken ensures v in MintedBefore(run, i + 1) {
      KeysStep(run[i].pre, run[i].op, v);
    }
  }

  lemma {:induction false} MintedGrows(run: seq<Event>, i: nat, j: nat)
    requires i <= j <= |run|
    ensures MintedBefore(run, i) <= MintedBefore(run, j)
    decreases j
  {
    if i < j {
      MintedGrows(run, i, j - 1);
    }
  }

  lemma {:induction false} DeadStaysOut(run: seq<Event>, j: nat, k: nat, v: string)
    requires IsRun(run) && j <= k < |run|
    requires v in MintedBefore(run, j) && v !in run[j].post.reg.byVtoken
    ensures v !in run[k].post.reg.byVtoken
    decreases k
  {
    if j < k {
      DeadStaysOut(run, j, k - 1, v);
      MintedGrows(run, j, k);
      assert Linked(run, k);
      if v in run[k].post.reg.byVtoken {
        KeysStep(run[k].pre, run[k].op, v);
      }
    }
  }

  lemma {:induction false} SoundForgets(h: Hub, v: string)
    requires h.Sound() && v !in h.reg.byVtoken
    ensures h.Forgotten(v)
  {
  }

  ghost predicate TakesOut(e: Event, v: string) {
    e.pre.Registered(v) && !e.post.Registered(v)
  }

  /** A token that an operation took out, whether by revoke, unregister or rollback, is mentioned
      nowhere in the hub from then on. */
  lemma {:induction false} RetiredTokenIsGone(run: seq<Event>, j: nat, k: nat, v: string)
    requires IsRun(run) && j <= k < |run|
    requires TakesOut(run[j], v)
    ensures run[k].post.Forgotten(v)
  {
    KeysWereMinted(run, j);
    DeadStaysOut(run, j, k, v);
    StaysSound(run, k);
    SoundForgets(run[k].post, v);
  }

  /** An operation that takes a token out is a revoke, unregister or rollback of the client that held it. */
  lemma {:induction false} RetiredBy(h: Hub, op: Op, v: string)
    requires h.Sound() && h.Legal(op) && h.Registered(v) && !h.Apply(op).0.Registered(v)
    ensures (op.Revoke? || op.Unregister? || op.Rollback?) && op.name == h.reg.byVtoken[v].name
    ensures op.Rollback? ==> op.vtoken == v
    ensures op.Unregister? ==> op.force || !h.reg.byVtoken[v].online
  {
  }

  /** One user's choice is changed only by that user, or by the end of the chosen token. */
  lemma {:induction false} RouteStep(h: Hub, op: Op, user: string)
    requires h.Sound() && h.Legal(op) && user in h.rt.active
    requires h.Apply(op).0.Registered(h.rt.active[user])
    requires !(op.Use? && op.user == user)
    ensures user in h.Apply(op).0.rt.active && h.Apply(op).0.rt.active[user] == h.rt.active[user]
  {
  }

  lemma {:induction false} AliveBefore(run: seq<Event>, j: nat, k: nat, v: string)
    requires IsRun(run) && j <= k < |run|
    requires run[j].post.Registered(v) && run[k].post.Registered(v)
    ensures forall i | j <= i <= k :: run[i].post.Registered(v)
  {
    KeysWereMinted(run, j);
    forall i | j <= i <= k ensures run[i].post.Registered(v) {
      if i > j && !run[i].post.Registered(v) {
        MintedGrows(run, j + 1, i);
        DeadStaysOut(run, i, k, v);
      }
    }
  }

  lemma {:induction false} StickyPrefix(run: seq<Event>, j: nat, k: nat, user: string, v: string)
    requires IsRun(run) && j <= k < |run|
    requires user in run[j].post.rt.active && run[j].post.rt.active[user] == v
    requires forall i | j < i <= k :: !(run[i].op.Use? && run[i].op.user == user)
    requires forall i | j <= i <= k :: run[i].post.Registered(v)
    ensures user in run[k].post.rt.active && run[k].post.rt.active[user] == v
    decreases k
  {
    if j < k {
      StickyPrefix(run, j, k - 1, user, v);
      assert Linked(run, k);
      StaysSound(run, k);
      RouteStep(run[k].pre, run[k].op, user);
    }
  }

  /** A `/use` holds, whatever anyone else does, until that user's next `/use` or until the chosen
      client's token is retired. */
  lemma {:induction false} RouteSticks(run: seq<Event>, j: nat, k: nat, user: string, v: string)
    requires IsRun(run) && j <= k < |run|
    requires user in run[j].post.rt.active && run[j].post.rt.active[user] == v
    requires forall i | j < i <= k :: !(run[i].op.Use? && run[i].op.user == user)
    requires run[k].post.Registered(v)
    ensures run[k].post.rt.GetRoute(user) == Some(v)
  {
    StaysSound(run, j);
    AliveBefore(run, j, k, v);
    StickyPrefix(run, j, k, user, v);
  }

  // ---------- Undoing and rotating ----------

  lemma {:induction false} RemoveUndoesPut(reg: Reg, info: ClientInfo)
    requires info.name !in reg.byName && info.vtoken !in reg.byVtoken
    ensures reg.Put(info.name, info).Remove(info.name) == (reg, true)
  {
    var r := reg.Put(info.name, info).Remove(info.name).0;
    assert r.byVtoken == reg.byVtoken;
    assert r.byName == reg.byName;
  }

  lemma {:induction false} ClearUndoesDefault(h: Hub, v: string, pick: Option<string>, first: bool)
    requires h.Sound() && v !in h.reg.byVtoken && h.reg.MayPick(v, pick)
    requires first <==> h.reg.byVtoken == map[]
    ensures (if first then h.rt.(default := Some(v)) else h.rt).RemoveRoutesFor(v, pick) == h.rt
  {
    PickIsRegistered(h.reg, v, pick);
    var cleared := map u | u in h.rt.active && h.rt.active[u] != v :: h.rt.active[u];
    assert cleared == h.rt.active;
  }

  /** Rolling back a speculative registration restores the hub exactly, default and routes included,
      whatever default the registry would have picked. */
  lemma {:induction false} RollbackUndoesRegister(h: Hub, name: string, tag: Option<string>,
                                                  description: Option<string>, minted: string, pick: Option<string>)
    requires h.Sound() && h.Legal(Register(name, tag, description, minted))
    requires name !in h.reg.byName
    requires h.Register(name, tag, description, minted).0.Legal(Rollback(name, minted, pick))
    ensures h.Register(name, tag, description, minted).0.Rollback(name, minted, pick).0 == h
  {
    var info := NewClient(name, tag, description, minted);
    var first := |h.reg.Put(name, info).byVtoken| == 1;
    assert first <==> h.reg.byVtoken == map[] by {
      assert |h.reg.Put(name, info).byVtoken| == |h.reg.byVtoken| + 1;
    }
    RemoveUndoesPut(h.reg, info);
    ClearUndoesDefault(h, minted, pick, first);
  }

  /** `h'` is `h` with one more client, on whom no user's route falls. Defaults may differ. */
  ghost predicate Adds(h': Hub, h: Hub, info: ClientInfo) {
    && info.name !in h.reg.byName && info.vtoken !in h.reg.byVtoken
    && h'.reg == h.reg.Put(info.name, info) && h'.rt.active == h.rt.active
  }

  /** The operation concerns neither that name nor that token. */
  predicate Unrelated(op: Op, name: string, v: string) {
    match op
    case Register(n, _, _, minted) => n != name && minted != v
    case Pair(n, _, _, minted) => n != name && minted != v
    case Use(_, target, _) => target.None? || target.value.vtoken != v
    case Rename(n, newName, _, _, _) => n != name && Trim(newName) != name
    case Revoke(n, minted, _) => n != name && minted != v
    case Unregister(n, _, _) => n != name
    case Rollback(n, _, _) => n != name
    case Presence(w, _) => w != v
  }

  /** The same request; the registry may have picked another default. */
  predicate SameButPick(op: Op, op': Op) {
    match op
    case Revoke(n, minted, _) => op'.Revoke? && op'.name == n && op'.minted == minted
    case Unregister(n, force, _) => op'.Unregister? && op'.name == n && op'.force == force
    case Rollback(n, v, _) => op'.Rollback? && op'.name == n && op'.vtoken == v
    case _ => op' == op
  }

  lemma {:induction false} Swap<T>(m: map<string, T>, i: string, x: T, j: string, y: T)
    requires i != j
    ensures m[i := x][j := y] == m[j := y][i := x]
  {}

  lemma {:induction false} PutPut(reg: Reg, a: ClientInfo, b: ClientInfo)
    requires a.name != b.name && a.vtoken != b.vtoken
    ensures reg.Put(a.name, a).Put(b.name, b) == reg.Put(b.name, b).Put(a.name, a)
  {
    Swap(reg.byVtoken, a.vtoken, a, b.vtoken, b);
    Swap(reg.byName, a.name, a.vtoken, b.name, b.vtoken);
  }

  /** Overwriting another client's record commutes with adding one. */
  lemma {:induction false} PutTouch(reg: Reg, info: ClientInfo, v: string, other: ClientInfo)
    requires info.vtoken != v
    ensures var put := reg.Put(info.name, info);
            put.(byVtoken := put.byVtoken[v := other]) ==
            reg.(byVtoken := reg.byVtoken[v := other]).Put(info.name, info)
  {
    assert reg.byVtoken[info.vtoken := info][v := other] == reg.byVtoken[v := other][info.vtoken := info];
  }

  lemma {:induction false} PutRemove(reg: Reg, info: ClientInfo, name: string)
    requires name in reg.byName && name != info.name && reg.byName[name] != info.vtoken
    ensures reg.Put(info.name, info).Remove(name).0 == reg.Remove(name).0.Put(info.name, info)
  {
    var v := reg.byName[name];
    assert reg.byVtoken[info.vtoken := info] - {v} == (reg.byVtoken - {v})[info.vtoken := info];
    assert reg.byName[info.name := info.vtoken] - {name} == (reg.byName - {name})[info.name := info.vtoken];
  }

  lemma {:induction false} PutRotate(reg: Reg, info: ClientInfo, name: string, minted: string)
    requires name in reg.byName && name != info.name && reg.byName[name] != info.vtoken && minted != info.vtoken
    requires reg.byName[name] in reg.byVtoken
    ensures reg.Put(info.name, info).RotateVtoken(name, minted).0 ==
            reg.RotateVtoken(name, minted).0.Put(info.name, info)
  {
    var v := reg.byName[name];
    var moved := reg.byVtoken[v].(vtoken := minted, online := false);
    assert (reg.byVtoken[info.vtoken := info] - {v})[minted := moved] ==
           (reg.byVtoken - {v})[minted := moved][info.vtoken := info];
    assert reg.byName[info.name := info.vtoken][name := minted] == reg.byName[name := minted][info.name := info.vtoken];
  }

  lemma {:induction false} PutUpdate(reg: Reg, info: ClientInfo, name: string, newName: string, tag: Option<string>)
    requires reg.Inverse() && info.name !in reg.byName && info.vtoken !in reg.byVtoken
    requires name != info.name && newName != info.name
    ensures var (r', out') := reg.Put(info.name, info).UpdateClient(name, newName, tag);
            var (r, out) := reg.UpdateClient(name, newName, tag);
            out' == out && r' == r.Put(info.name, info)
  {
    if name in reg.byName && !(newName != name && newName in reg.byName) {
      var v := reg.byName[name];
      var i := reg.byVtoken[v];
      var i' := if newName == name then i else i.(name := newName);
      var other := i'.(tag := Or(tag, i'.tag));
      assert reg.byVtoken[info.vtoken := info][v := other] == reg.byVtoken[v := other][info.vtoken := info];
      assert (reg.byName[info.name := info.vtoken] - {name})[newName := v] ==
             (reg.byName - {name})[newName := v][info.name := info.vtoken];
    }
  }

  lemma {:induction false} AddsRegister(h': Hub, h: Hub, info: ClientInfo, name: string, tag: Option<string>,
                                        description: Option<string>, minted: string)
    requires h.Sound() && Adds(h', h, info)
    requires name != info.name && minted != info.vtoken && minted !in h.reg.byVtoken
    ensures Adds(h'.Register(name, tag, description, minted).0, h.Register(name, tag, description, minted).0, info)
    ensures Adds(h'.Pair(name, tag, description, minted).0, h.Pair(name, tag, description, minted).0, info)
  {
    if name in h.reg.byName {
      var v := h.reg.byName[name];
      var i := h.reg.byVtoken[v];
      PutTouch(h.reg, info, v,
               i.(tag := Or(tag, i.tag), description := Or(description, i.description), online := true));
    } else {
      PutPut(h.reg, info, NewClient(name, tag, description, minted));
    }
  }

  lemma {:induction false} AddsRename(h': Hub, h: Hub, info: ClientInfo, op: Op)
    requires h.Sound() && Adds(h', h, info) && op.Rename? && Unrelated(op, info.name, info.vtoken)
    ensures Adds(h'.Apply(op).0, h.Apply(op).0, info)
  {
    var newName := Trim(op.newName);
    PutUpdate(h.reg, info, op.name, newName, op.tag);
    var (r, out) := h.reg.UpdateClient(op.name, newName, op.tag);
    if out.Updated? {
      var i := r.byVtoken[out.vtoken];
      PutTouch(r, info, out.vtoken, i.(personaName := Or(op.personaName, i.personaName),
                                       personaEmoji := Or(op.personaEmoji, i.personaEmoji)));
    }
  }

  lemma {:induction false} AddsRemoval(h': Hub, h: Hub, info: ClientInfo, op: Op, op': Op)
    requires h.Sound() && Adds(h', h, info) && Unrelated(op, info.name, info.vtoken) && SameButPick(op, op')
    requires (op.Revoke? && op.minted !in h.reg.byVtoken) || op.Unregister? || op.Rollback?
    ensures Adds(h'.Apply(op).0, h.Apply(op').0, info)
  {
    if op.name in h.reg.byName {
      PutRemove(h.reg, info, op.name);
      if op.Revoke? {
        PutRotate(h.reg, info, op.name, op.minted);
      }
    }
  }

  /** An unrelated operation does the same to clients and routes with the extra client as without,
      whichever defaults are picked. */
  lemma {:induction false} AddsStep(h': Hub, h: Hub, info: ClientInfo, op: Op, op': Op)
    requires h.Sound() && Adds(h', h, info) && h'.Legal(op)
    requires Unrelated(op, info.name, info.vtoken) && SameButPick(op, op')
    ensures Adds(h'.Apply(op).0, h.Apply(op').0, info)
  {
    match op
    case Register(n, tag, description, minted) => AddsRegister(h', h, info, n, tag, description, minted);
    case Pair(n, tag, description, minted) => AddsRegister(h', h, info, n, tag, description, minted);
    case Use(_, target, _) =>
    case Rename(_, _, _, _, _) => AddsRename(h', h, info, op);
    case Presence(v, online) =>
      if v in h.reg.byVtoken {
        PutTouch(h.reg, info, v, h.reg.byVtoken[v].(online := online));
      }
    case Revoke(_, _, _) => AddsRemoval(h', h, info, op, op');
    case Unregister(_, _, _) => AddsRemoval(h', h, info, op, op');
    case Rollback(_, _, _) => AddsRemoval(h', h, info, op, op');
  }

  lemma {:induction false} SameDefaultStep(h': Hub, h: Hub, info: ClientInfo, op: Op)
    requires h.Sound() && h.reg.byVtoken != map[] && Adds(h', h, info) && h'.rt.default == h.rt.default
    requires h'.Legal(op) && Unrelated(op, info.name, info.vtoken)
    ensures h'.Apply(op).0.rt.default == h.Apply(op).0.rt.default
  {
    if (op.Register? || op.Pair?) && op.name !in h.reg.byName {
      var other := NewClient(op.name, op.tag, op.description, op.minted);
      assert |h.reg.Put(op.name, other).byVtoken| == |h.reg.byVtoken| + 1;
      assert |h.reg.Put(info.name, info).Put(op.name, other).byVtoken| == |h.reg.byVtoken| + 2;
    }
  }

  ghost predicate StepAt(hs: seq<Hub>, ops: seq<Op>, i: nat)
    requires i < |ops| && |hs| == |ops| + 1
  {
    hs[i + 1] == hs[i].Apply(ops[i]).0
  }

  ghost predicate LegalAt(hs: seq<Hub>, ops: seq<Op>, i: nat)
    requires i < |ops| && |hs| == |ops| + 1
  {
    hs[i].Legal(ops[i])
  }

  /** `hs` are the hubs that a list of completed operations leads through. */
  ghost predicate Plays(hs: seq<Hub>, ops: seq<Op>) {
    |hs| == |ops| + 1 && forall i | 0 <= i < |ops| :: StepAt(hs, ops, i)
  }

  lemma {:induction false} PlaySound(hs: seq<Hub>, ops: seq<Op>, n: nat)
    requires Plays(hs, ops) && hs[0].Sound() && n <= |ops|
    requires forall i | 0 <= i < |ops| :: LegalAt(hs, ops, i)
    ensures hs[n].Sound()
  {
    if n > 0 {
      PlaySound(hs, ops, n - 1);
      assert StepAt(hs, ops, n - 1) && LegalAt(hs, ops, n - 1);
      StepIsSound(hs[n - 1], ops[n - 1]);
    }
  }

  /** Two plays of the same unrelated requests, with and without the extra client. */
  ghost predicate Twins(hs': seq<Hub>, ops: seq<Op>, hs: seq<Hub>, ops': seq<Op>, name: string, v: string) {
    && Plays(hs', ops) && Plays(hs, ops') && |ops'| == |ops|
    && (forall i | 0 <= i < |ops| :: LegalAt(hs', ops, i))
    && (forall i | 0 <= i < |ops'| :: LegalAt(hs, ops', i))
    && (forall i | 0 <= i < |ops| :: Unrelated(ops[i], name, v))
    && (forall i | 0 <= i < |ops| :: SameButPick(ops[i], ops'[i]))
  }

  lemma {:induction false} AddsThroughout(hs': seq<Hub>, ops: seq<Op>, hs: seq<Hub>, ops': seq<Op>, info: ClientInfo,
                                          n: nat)
    requires Twins(hs', ops, hs, ops', info.name, info.vtoken) && n <= |ops|
    requires hs[0].Sound() && Adds(hs'[0], hs[0], info)
    ensures Adds(hs'[n], hs[n], info)
  {
    if n > 0 {
      var m := n - 1;
      AddsThroughout(hs', ops, hs, ops', info, m);
      PlaySound(hs, ops', m);
      assert LegalAt(hs', ops, m) && StepAt(hs', ops, m) && StepAt(hs, ops', m);
      AddsStep(hs'[m], hs[m], info, ops[m], ops'[m]);
    }
  }

  lemma {:induction false} RollbackAdded(h': Hub, h: Hub, info: ClientInfo, pick: Option<string>)
    requires h.Sound() && Adds(h', h, info)
    ensures h'.Rollback(info.name, info.vtoken, pick).0 ==
            Hub(h.reg, Routes(h.rt.active, if h'.rt.default == Some(info.vtoken) then pick else h'.rt.default))
  {
    RemoveUndoesPut(h.reg, info);
    var cleared := map u | u in h.rt.active && h.rt.active[u] != info.vtoken :: h.rt.active[u];
    assert cleared == h.rt.active;
  }

  /** The same with other completed operations in between, from any sound hub, an empty one included.
      If they concern other clients, rolling the registration back leaves exactly the clients and
      routes that the same requests alone would have left. The default stays as it is, unless it fell
      on the rolled-back client; then it is the one picked now. Either way the hub is sound. */
  lemma {:induction false} RollbackLeavesTheRest(hs': seq<Hub>, ops: seq<Op>, hs: seq<Hub>, ops': seq<Op>, name: string,
                                                 tag: Option<string>, description: Option<string>, minted: string,
                                                 pick: Option<string>)
    requires Twins(hs', ops, hs, ops', name, minted) && hs[0].Sound()
    requires name !in hs[0].reg.byName && minted !in hs[0].reg.byVtoken
    requires hs'[0] == hs[0].Register(name, tag, description, minted).0
    requires hs'[|ops|].Legal(Rollback(name, minted, pick))
    ensures var before, after := hs'[|ops|], hs'[|ops|].Rollback(name, minted, pick).0;
            && after.reg == hs[|ops|].reg && after.rt.active == hs[|ops|].rt.active
            && after.rt.default == (if before.rt.default == Some(minted) then pick else before.rt.default)
            && after.Sound()
  {
    var info := NewClient(name, tag, description, minted);
    RegisterIsSound(hs[0], name, tag, description, minted);
    AddsThroughout(hs', ops, hs, ops', info, |ops|);
    PlaySound(hs, ops', |ops|);
    PlaySound(hs', ops, |ops|);
    RollbackAdded(hs'[|ops|], hs[|ops|], info, pick);
    StepIsSound(hs'[|ops|], Rollback(name, minted, pick));
  }

  lemma {:induction false} SameDefaultThroughout(hs': seq<Hub>, hs: seq<Hub>, ops: seq<Op>, info: ClientInfo, n: nat)
    requires Twins(hs', ops, hs, ops, info.name, info.vtoken) && n <= |ops|
    requires hs[0].Sound() && hs[0].reg.byVtoken != map[] && hs'[0].Sound()
    requires Adds(hs'[0], hs[0], info) && hs'[0].rt.default == hs[0].rt.default
    ensures hs'[n].rt.default == hs[n].rt.default && hs[n].reg.byVtoken != map[]
  {
    if n > 0 {
      var m := n - 1;
      SameDefaultThroughout(hs', hs, ops, info, m);
      AddsThroughout(hs', ops, hs, ops, info, m);
      AddsThroughout(hs', ops, hs, ops, info, n);
      PlaySound(hs, ops, m);
      PlaySound(hs, ops, n);
      PlaySound(hs', ops, n);
      assert LegalAt(hs', ops, m) && StepAt(hs', ops, m) && StepAt(hs, ops, m);
      SameDefaultStep(hs'[m], hs[m], info, ops[m]);
      assert info.vtoken in hs'[n].reg.byVtoken;
    }
  }

  /** If there was a client to begin with and the picks made are legal without the new one as well, so
      that none falls on it, the rollback leaves no trace at all: the default too is what it would have
      been. */
  lemma {:induction false} RollbackLeavesNoTrace(hs': seq<Hub>, hs: seq<Hub>, ops: seq<Op>, name: string,
                                                 tag: Option<string>, description: Option<string>, minted: string,
                                                 pick: Option<string>)
    requires Twins(hs', ops, hs, ops, name, minted) && hs[0].Sound() && hs[0].reg.byVtoken != map[]
    requires name !in hs[0].reg.byName && minted !in hs[0].reg.byVtoken
    requires hs'[0] == hs[0].Register(name, tag, description, minted).0
    requires hs'[|ops|].Legal(Rollback(name, minted, pick))
    ensures hs'[|ops|].Rollback(name, minted, pick).0 == hs[|ops|]
  {
    var info := NewClient(name, tag, description, minted);
    RegisterIsSound(hs[0], name, tag, description, minted);
    assert |hs[0].reg.Put(name, info).byVtoken| == |hs[0].reg.byVtoken| + 1;
    AddsThroughout(hs', ops, hs, ops, info, |ops|);
    SameDefaultThroughout(hs', hs, ops, info, |ops|);
    PlaySound(hs, ops, |ops|);
    RollbackAdded(hs'[|ops|], hs[|ops|], info, pick);
  }

  /** A rollback that comes late, its token already taken out by someone else, changes nothing: it
      cannot evict a client registered under the name since. */
  lemma {:induction false} StaleRollbackIsNoOp(run: seq<Event>, j: nat, k: nat, v: string)
    requires IsRun(run) && j < k < |run|
    requires TakesOut(run[j], v) && run[k].op.Rollback? && run[k].op.vtoken == v
    ensures run[k].post == run[k].pre
  {
    RetiredTokenIsGone(run, j, k - 1, v);
    assert Linked(run, k);
    StaysSound(run, k);
  }

  /** Revoking leaves no trace of the old token, keeps the client's identity under the new one, and
      changes no other client. */
  lemma {:induction false} RevokeKeepsIdentity(h: Hub, name: string, minted: string, pick: Option<string>)
    requires h.Sound() && h.Legal(Revoke(name, minted, pick)) && name in h.reg.byName
    ensures var was := h.reg.byVtoken[h.reg.byName[name]];
            var after := h.Revoke(name, minted, pick).0;
            && after.Forgotten(was.vtoken)
            && after.reg.GetByName(name) == Some(was.(vtoken := minted, online := false))
            && (forall n | n != name :: after.reg.GetByName(n) == h.reg.GetByName(n))
            && (forall u | u in after.rt.active ::
                  u in h.rt.active && after.rt.active[u] == h.rt.active[u] != was.vtoken)
  {
    var v := h.reg.byName[name];
    var after := h.Revoke(name, minted, pick).0;
    RevokeIsSound(h, name, minted, pick);
    RotateIsInverse(h.reg, name, minted);
    SoundForgets(after, v);
    forall n | n != name ensures after.reg.GetByName(n) == h.reg.GetByName(n) {
      if n in h.reg.byName {
        assert h.reg.byName[n] != v;
      }
    }
  }

  /** A token stays registered until an event takes it out. */
  lemma {:induction false} AliveUntilTakenOut(run: seq<Event>, i: nat, k: nat, v: string)
    requires IsRun(run) && i <= k < |run| && run[i].post.Registered(v)
    requires forall j | i < j <= k :: !TakesOut(run[j], v)
    ensures run[k].post.Registered(v)
    decreases k
  {
    if i < k {
      AliveUntilTakenOut(run, i, k - 1, v);
      assert Linked(run, k);
    }
  }

  /** A route to a token keeps a sound hub sound only if the token is registered. */
  lemma {:induction false} RouteNeedsToken(h: Hub, user: string, target: ClientInfo)
    requires h.Sound()
    ensures h.Use(user, Some(target), true).0.Sound() <==> h.Registered(target.vtoken)
  {
    var after := h.Use(user, Some(target), true).0;
    assert user in after.rt.active && after.rt.active[user] == target.vtoken;
  }

  /** `/use` looks its target up before it writes the route, and the run goes on in between. Whatever
      happens there, the route written is sound if and only if no event in between takes the target's
      token out; otherwise the user's messages are routed to a token that is mentioned nowhere else. */
  lemma {:induction false} LateUseIsSoundIff(run: seq<Event>, i: nat, k: nat, user: string, target: ClientInfo)
    requires IsRun(run) && i <= k < |run| && run[i].post.reg.Visible(None, target)
    ensures var late := run[k].post.Use(user, Some(target), true).0;
            && (late.Sound() <==> forall j | i < j <= k :: !TakesOut(run[j], target.vtoken))
            && late.rt.GetRoute(user) == Some(target.vtoken)
            && (!late.Sound() ==> run[k].post.Forgotten(target.vtoken))
  {
    var v := target.vtoken;
    StaysSound(run, i);
    StaysSound(run, k);
    assert run[i].post.Registered(v);
    RouteNeedsToken(run[k].post, user, target);
    if forall j | i < j <= k :: !TakesOut(run[j], v) {
      AliveUntilTakenOut(run, i, k, v);
    } else {
      var j :| i < j <= k && TakesOut(run[j], v);
      RetiredTokenIsGone(run, j, k, v);
    }
  }

  /** It need not be: an unregister may fall between the look-up and the write. */
  lemma {:induction false} LateUseDangles(name: string, minted: string, user: string)
    ensures var h := EMPTY_HUB.Register(name, None, None, minted).0;
            var target := h.reg.GetByName(name);
            var gone := h.Unregister(name, false, None).0;
            && target.Some? && h.Legal(Unregister(name, false, None))
            && gone.Use(user, target, true).0.rt.GetRoute(user) == Some(minted)
            && !gone.Registered(minted)
  {
    var h := EMPTY_HUB.Register(name, None, None, minted).0;
    assert h.reg.Remove(name).0.byVtoken == map[];
  }

  // ---------- The hub object ----------

  class HubState {
    const registry: ClientRegistry
    const router: Router

    function View(): Hub
      reads registry, router
    {
      Hub(registry.View(), router.View())
    }

    constructor ()
      ensures View() == EMPTY_HUB
      ensures fresh(registry) && fresh(router)
    {
      registry := new ClientRegistry();
      router := new Router();
    }

    method RegisterClientInHub(name: string, tag: Option<string>, description: Option<string>, minted: string)
      returns (hash: string, isNew: bool)
      modifies registry, router
      ensures (View(), Reply.Registered(hash, isNew)) == old(View()).Register(name, tag, description, minted)
    {
      hash, isNew := registry.Register(name, tag, description, minted);
      var isFirst := isNew && |registry.byVtoken| == 1;
      if isFirst {
        router.SetDefault(hash);
      }
    }

    method RegisterConfirmedClientInHub(name: string, tag: Option<string>, description: Option<string>, hash: string)
      returns (r: Reply)
      modifies registry, router
      ensures (View(), r) == old(View()).Pair(name, tag, description, hash)
    {
      var ok := registry.RegisterConfirmed(name, tag, description, hash);
      if !ok {
        return NameCollision;
      }
      if |registry.byVtoken| == 1 {
        router.SetDefault(hash);
      }
      return Reply.Registered(hash, true);
    }

    method UnregisterClientInHub(name: string, force: bool) returns (r: Reply, ghost pick: Option<string>)
      modifies registry, router
      ensures (View(), r) == old(View()).Unregister(name, force, pick)
      ensures old(View().Legal(Unregister(name, force, pick)))
    {
      var client := registry.View().GetByName(name);
      if client.None? {
        return UnknownClient, None;
      }
      if client.value.online && !force {
        return StillOnline, None;
      }
      var vtoken := client.value.vtoken;
      var ok := registry.Remove(name);
      var newDefault := registry.PickDefaultAfterRemove(vtoken);
      router.RemoveRoutesForVtoken(vtoken, newDefault);
      return Done, newDefault;
    }

    method RevokeClientInHub(name: string, minted: string) returns (r: Reply, ghost pick: Option<string>)
      requires minted !in registry.byVtoken
      modifies registry, router
      ensures (View(), r) == old(View()).Revoke(name, minted, pick)
      ensures old(View().Legal(Revoke(name, minted, pick)))
    {
      var client := registry.View().GetByName(name);
      if client.None? {
        return UnknownClient, None;
      }
      var oldHash := client.value.vtoken;
      var ok := registry.RotateVtoken(name, minted);
      var newDefault := registry.PickDefaultAfterRemove(oldHash);
      router.RemoveRoutesForVtoken(oldHash, newDefault);
      return Done, newDefault;
    }

    method UpdateClientInHub(oldName: string, newName: string, tag: Option<string>,
                             personaName: Option<string>, personaEmoji: Option<string>) returns (r: Reply)
      modifies registry
      ensures (View(), r) == old(View()).Rename(oldName, newName, tag, personaName, personaEmoji)
    {
      var trimmed := Trim(newName);
      if trimmed == "" {
        return InvalidName;
      }
      var outcome := registry.UpdateClient(oldName, trimmed, tag);
      if outcome.NotFound? {
        return UnknownClient;
      }
      if outcome.NameTaken? {
        return NameInUse;
      }
      registry.UpdateMetadata(outcome.vtoken, None, None, personaName, personaEmoji);
      return Done;
    }

    method RollbackSpeculativeRegister(name: string, vtoken: string) returns (ghost pick: Option<string>)
      modifies registry, router
      ensures View() == old(View()).Rollback(name, vtoken, pick).0
      ensures old(View().Legal(Rollback(name, vtoken, pick)))
    {
      var client := registry.View().GetByName(name);
      if client.None? || client.value.vtoken != vtoken {
        return None;
      }
      var ok := registry.Remove(name);
      var newDefault := registry.PickDefaultAfterRemove(vtoken);
      router.RemoveRoutesForVtoken(vtoken, newDefault);
      return newDefault;
    }

    /** A poll marks its client online; the health checker marks a silent one offline. */
    method SetPresence(vtoken: string, online: bool)
      modifies registry
      ensures View() == old(View()).Apply(Presence(vtoken, online)).0
      ensures old(View().Sound()) ==> View().Sound()
    {
      if View().Sound() {
        UpdateIsSound(View(), Presence(vtoken, online));
      }
      if online {
        registry.MarkOnline(vtoken);
      } else {
        registry.MarkOffline(vtoken);
      }
    }

    /** `/use`: `stored` says whether the route could be persisted. */
    method HandleCmdUse(user: string, name: string, visible: Option<set<string>>, stored: bool)
      returns (r: Reply, ghost target: Option<ClientInfo>)
      requires View().Sound()
      modifies router
      ensures (View(), r) == old(View()).Use(user, target, stored)
      ensures old(View().Legal(Use(user, target, stored)))
      ensures forall xs :: registry.View().Listing(visible, xs) ==>
                             target == Resolve(registry.View(), visible, xs, name)
      ensures r == Done && name in registry.byName ==>
                router.View().GetRoute(user) == Some(registry.byName[name])
    {
      var client := registry.GetByAliasIn(name, visible);
      target := client;
      if client.None? {
        return NoSuchBackend, target;
      }
      if !stored {
        return StoreFailed, target;
      }
      router.SetRoute(user, client.value.vtoken);
      return Done, target;
    }
  }
}
