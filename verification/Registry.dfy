/** The client registry: clients by hashed vtoken, and the name index that must mirror it.
    Hash maps are iterated in no particular order. */
module Registry {
  import opened Base
  import opened Text

  datatype ClientInfo = ClientInfo(
    name: string,
    vtoken: string,
    tag: Option<string>,
    description: Option<string>,
    online: bool,
    personaName: Option<string>,
    personaEmoji: Option<string>)

  function NewClient(name: string, tag: Option<string>, description: Option<string>, hash: string): ClientInfo {
    ClientInfo(name, hash, tag, description, false, None, None)
  }

  function Or<T>(a: Option<T>, b: Option<T>): Option<T> {
    if a.Some? then a else b
  }

  datatype Reg = Reg(byVtoken: map<string, ClientInfo>, byName: map<string, string>) {

    /** The two maps are mutually inverse. */
    ghost predicate Inverse() {
      && (forall n | n in byName :: byName[n] in byVtoken && byVtoken[byName[n]].name == n)
      && (forall v | v in byVtoken ::
            byVtoken[v].vtoken == v && byVtoken[v].name in byName && byName[byVtoken[v].name] == v)
    }

    function GetByName(name: string): Option<ClientInfo> {
      if name in byName && byName[name] in byVtoken then Some(byVtoken[byName[name]]) else None
    }

    function Put(name: string, info: ClientInfo): Reg {
      Reg(byVtoken[info.vtoken := info], byName[name := info.vtoken])
    }

    /** A known name keeps its token and is marked online; a new one is entered under `minted`. */
    function Register(name: string, tag: Option<string>, description: Option<string>, minted: string)
      : (Reg, string, bool)
    {
      if name in byName then
        var v := byName[name];
        var reg := if v in byVtoken then
          var i := byVtoken[v];
          this.(byVtoken := byVtoken[v := i.(tag := Or(tag, i.tag), description := Or(description, i.description),
                                             online := true)])
        else this;
        (reg, v, false)
      else (Put(name, NewClient(name, tag, description, minted)), minted, true)
    }

    function RegisterConfirmed(name: string, tag: Option<string>, description: Option<string>, hash: string)
      : (Reg, bool)
    {
      if name in byName then (this, false) else (Put(name, NewClient(name, tag, description, hash)), true)
    }

    function RotateVtoken(name: string, minted: string): (Reg, bool) {
      if name !in byName || byName[name] !in byVtoken then (this, false)
      else
        var info := byVtoken[byName[name]].(vtoken := minted, online := false);
        (Reg((byVtoken - {byName[name]})[minted := info], byName[name := minted]), true)
    }

    function Remove(name: string): (Reg, bool) {
      if name in byName then (Reg(byVtoken - {byName[name]}, byName - {name}), true) else (this, false)
    }

    function UpdateClient(oldName: string, newName: string, tag: Option<string>): (Reg, UpdateResult) {
      if oldName !in byName then (this, NotFound)
      else if newName != oldName && newName in byName then (this, NameTaken)
      else
        var v := byName[oldName];
        if v !in byVtoken then (this, NotFound)
        else
          var i := byVtoken[v];
          var i := if newName == oldName then i else i.(name := newName);
          var names := if newName == oldName then byName else (byName - {oldName})[newName := v];
          (Reg(byVtoken[v := i.(tag := Or(tag, i.tag))], names), Updated(v))
    }

    function UpdateMetadata(v: string, tag: Option<string>, description: Option<string>,
                            personaName: Option<string>, personaEmoji: Option<string>): Reg {
      if v !in byVtoken then this
      else
        var i := byVtoken[v];
        this.(byVtoken := byVtoken[v := i.(tag := Or(tag, i.tag), description := Or(description, i.description),
                                           personaName := Or(personaName, i.personaName),
                                           personaEmoji := Or(personaEmoji, i.personaEmoji))])
    }

    function SetOnline(v: string, online: bool): Reg {
      if v in byVtoken then this.(byVtoken := byVtoken[v := byVtoken[v].(online := online)]) else this
    }

    /** `pick` is a token other than `removed`: of an online client if there is one, else of any. */
    ghost predicate MayPick(removed: string, pick: Option<string>) {
      var others := set v | v in byVtoken && byVtoken[v].vtoken != removed;
      var awake := set v | v in others && byVtoken[v].online;
      if others == {} then pick.None?
      else pick.Some? && exists v | v in (if awake == {} then others else awake) :: byVtoken[v].vtoken == pick.value
    }

    /** The clients a caller may see; `None` allows all. */
    ghost predicate Visible(allowed: Option<set<string>>, c: ClientInfo) {
      (exists v | v in byVtoken :: byVtoken[v] == c) && (allowed.None? || c.name in allowed.value)
    }

    /** `xs` lists the visible clients in order of name. */
    ghost predicate Listing(allowed: Option<set<string>>, xs: seq<ClientInfo>) {
      Ascending(xs) && forall c :: c in xs <==> Visible(allowed, c)
    }
  }

  datatype UpdateResult = Updated(vtoken: string) | NotFound | NameTaken

  ghost predicate Ascending(xs: seq<ClientInfo>) {
    forall i, j | 0 <= i < j < |xs| :: LexLess(xs[i].name, xs[j].name)
  }

  // ---------- What each operation yields, name by name ----------

  /** Registering a known name returns the token it has, marks it online and overwrites what was given;
      a new name is entered offline under the new token. Nobody else is touched. */
  lemma {:induction false} RegisterYields(reg: Reg, name: string, tag: Option<string>, description: Option<string>,
                                          minted: string, n: string)
    requires reg.Inverse() && minted !in reg.byVtoken
    ensures var (r, hash, isNew) := reg.Register(name, tag, description, minted);
            var was := reg.GetByName(name);
            && (isNew <==> was.None?)
            && hash == (if was.Some? then was.value.vtoken else minted)
            && r.GetByName(n) ==
               if n != name then reg.GetByName(n)
               else if was.None? then Some(ClientInfo(name, minted, tag, description, false, None, None))
               else Some(was.value.(tag := if tag.Some? then tag else was.value.tag,
                                    description := if description.Some? then description else was.value.description,
                                    online := true))
  {}

  lemma {:induction false} RegisterConfirmedYields(reg: Reg, name: string, tag: Option<string>,
                                                   description: Option<string>, hash: string, n: string)
    requires reg.Inverse() && hash !in reg.byVtoken
    ensures var (r, ok) := reg.RegisterConfirmed(name, tag, description, hash);
            && (ok <==> reg.GetByName(name).None?)
            && r.GetByName(n) ==
               if n == name && ok then Some(ClientInfo(name, hash, tag, description, false, None, None))
               else reg.GetByName(n)
  {}

  /** After a removal nobody has the name, and everybody else is as before. */
  lemma {:induction false} RemoveYields(reg: Reg, name: string, n: string)
    requires reg.Inverse()
    ensures var (r, ok) := reg.Remove(name);
            (ok <==> reg.GetByName(name).Some?) && r.GetByName(n) == if n == name then None else reg.GetByName(n)
  {}

  /** A rename is refused for an unknown client, and for a new name that another client has. Otherwise the
      new name finds the client, token and details kept, and the old one finds nobody. */
  lemma {:induction false} UpdateYields(reg: Reg, oldName: string, newName: string, tag: Option<string>, n: string)
    requires reg.Inverse()
    ensures var (r, out) := reg.UpdateClient(oldName, newName, tag);
            var was := reg.GetByName(oldName);
            && (out.NotFound? <==> was.None?)
            && (out.NameTaken? <==> was.Some? && newName != oldName && reg.GetByName(newName).Some?)
            && (out.Updated? ==> out.vtoken == was.value.vtoken)
            && r.GetByName(n) ==
               if !out.Updated? then reg.GetByName(n)
               else if n == newName then
                 Some(was.value.(name := newName, tag := if tag.Some? then tag else was.value.tag))
               else if n == oldName then None
               else reg.GetByName(n)
  {}

  /** The client that has token `v` gets the details given; everybody else is as before. */
  lemma {:induction false} MetadataYields(reg: Reg, v: string, tag: Option<string>, description: Option<string>,
                                          personaName: Option<string>, personaEmoji: Option<string>, n: string)
    requires reg.Inverse()
    ensures var was := reg.GetByName(n);
            reg.UpdateMetadata(v, tag, description, personaName, personaEmoji).GetByName(n) ==
            if was.None? || was.value.vtoken != v then was
            else Some(was.value.(tag := if tag.Some? then tag else was.value.tag,
                                 description := if description.Some? then description else was.value.description,
                                 personaName := if personaName.Some? then personaName else was.value.personaName,
                                 personaEmoji := if personaEmoji.Some? then personaEmoji else was.value.personaEmoji))
  {}

  lemma {:induction false} PresenceYields(reg: Reg, v: string, online: bool, n: string)
    requires reg.Inverse()
    ensures var was := reg.GetByName(n);
            reg.SetOnline(v, online).GetByName(n) ==
            if was.Some? && was.value.vtoken == v then Some(was.value.(online := online)) else was
  {}

  // ---------- Order ----------

  /** Sorted lists are determined by their elements, so iteration order cannot show. */
  lemma {:induction false} AscendingIsUnique(xs: seq<ClientInfo>, ys: seq<ClientInfo>)
    requires Ascending(xs) && Ascending(ys)
    requires forall c :: c in xs <==> c in ys
    ensures xs == ys
    decreases |xs|
  {
    assert ys == [] || ys[0] in xs;
    if xs != [] {
      assert xs[0] in ys;
      SameHead(xs, ys);
      forall c ensures c in xs[1..] <==> c in ys[1..] {
        HeadNotInTail(xs);
        HeadNotInTail(ys);
        assert c in xs <==> c == xs[0] || c in xs[1..];
        assert c in ys <==> c == ys[0] || c in ys[1..];
      }
      AscendingIsUnique(xs[1..], ys[1..]);
      assert xs == [xs[0]] + xs[1..] && ys == [ys[0]] + ys[1..];
    }
  }

  lemma {:induction false} HeadNotInTail(xs: seq<ClientInfo>)
    requires Ascending(xs) && xs != []
    ensures xs[0] !in xs[1..]
  {
    LexIrreflexive(xs[0].name);
  }

  lemma {:induction false} SameHead(xs: seq<ClientInfo>, ys: seq<ClientInfo>)
    requires Ascending(xs) && Ascending(ys) && xs != [] && ys != []
    requires xs[0] in ys && ys[0] in xs
    ensures xs[0] == ys[0]
  {
    var i :| 0 <= i < |ys| && ys[i] == xs[0];
    var j :| 0 <= j < |xs| && xs[j] == ys[0];
    if i > 0 && j > 0 {
      LexTransitive(xs[0].name, ys[0].name, xs[0].name);
      LexIrreflexive(xs[0].name);
    }
  }

  lemma {:induction false} ListingIsUnique(reg: Reg, allowed: Option<set<string>>, xs: seq<ClientInfo>,
                                           ys: seq<ClientInfo>)
    requires reg.Listing(allowed, xs) && reg.Listing(allowed, ys)
    ensures xs == ys
  {
    forall c ensures c in xs <==> c in ys {
      assert c in xs <==> reg.Visible(allowed, c);
    }
    AscendingIsUnique(xs, ys);
  }

  function InsertByName(xs: seq<ClientInfo>, c: ClientInfo): seq<ClientInfo> {
    if xs == [] || LexLess(c.name, xs[0].name) then [c] + xs else [xs[0]] + InsertByName(xs[1..], c)
  }

  lemma {:induction false} InsertElements(xs: seq<ClientInfo>, c: ClientInfo, x: ClientInfo)
    ensures x in InsertByName(xs, c) <==> x == c || x in xs
  {
    if xs != [] && !LexLess(c.name, xs[0].name) {
      InsertElements(xs[1..], c, x);
      assert x in xs <==> x == xs[0] || x in xs[1..];
    }
  }

  lemma {:induction false} InsertKeepsOrder(xs: seq<ClientInfo>, c: ClientInfo)
    requires Ascending(xs) && forall i | 0 <= i < |xs| :: xs[i].name != c.name
    ensures Ascending(InsertByName(xs, c))
  {
    if xs != [] {
      if LexLess(c.name, xs[0].name) {
        forall j | 0 < j < |xs| ensures LexLess(c.name, xs[j].name) {
          LexTransitive(c.name, xs[0].name, xs[j].name);
        }
      } else {
        LexTotal(c.name, xs[0].name);
        InsertKeepsOrder(xs[1..], c);
        var rest := InsertByName(xs[1..], c);
        forall j | 0 <= j < |rest| ensures LexLess(xs[0].name, rest[j].name) {
          InsertElements(xs[1..], c, rest[j]);
        }
      }
    }
  }

  /** What a numeral or name resolves to, given the listing. An exact name wins over its index. */
  function Resolve(reg: Reg, allowed: Option<set<string>>, xs: seq<ClientInfo>, name: string): Option<ClientInfo> {
    match reg.GetByName(name)
    case Some(c) => if allowed.None? || c.name in allowed.value then Some(c) else None
    case None =>
      var n := ParseU64(name);
      if n.Some? && 0 < n.value <= |xs| then Some(xs[n.value - 1]) else None
  }

  /** Whatever order the map was iterated in for either command, `/use k` means line `k` of `/list`,
      unless a client bears that numeral as its name; and nothing hidden can be reached. */
  lemma {:induction false} UseMeansListedLine(reg: Reg, allowed: Option<set<string>>, name: string,
                           listed: seq<ClientInfo>, seen: seq<ClientInfo>)
    requires reg.Inverse() && reg.Listing(allowed, listed) && reg.Listing(allowed, seen)
    ensures var r := Resolve(reg, allowed, seen, name);
            && (r.Some? ==> reg.Visible(allowed, r.value) && r.value in listed)
            && (name !in reg.byName ==>
                  match ParseU64(name)
                  case Some(k) => r == if 1 <= k <= |listed| then Some(listed[k - 1]) else None
                  case None => r == None)
            && (name in reg.byName ==> forall c :: r == Some(c) <==> c in listed && c.name == name)
  {
    ListingIsUnique(reg, allowed, listed, seen);
    var r := Resolve(reg, allowed, seen, name);
    if r.Some? {
      assert reg.Visible(allowed, r.value) by {
        if name in reg.byName {
          assert reg.byVtoken[reg.byName[name]] == r.value;
        } else {
          assert r.value in seen;
        }
      }
    }
    if name in reg.byName {
      forall c ensures r == Some(c) <==> c in listed && c.name == name {
        assert c in listed <==> reg.Visible(allowed, c);
      }
    }
  }

  /** Typing the number shown beside a line picks that line, and any other number picks nothing. */
  lemma {:induction false} NumeralMeansListedLine(reg: Reg, allowed: Option<set<string>>, k: nat,
                               listed: seq<ClientInfo>, seen: seq<ClientInfo>)
    requires reg.Inverse() && reg.Listing(allowed, listed) && reg.Listing(allowed, seen)
    requires Decimal(k) !in reg.byName && |listed| <= U64_MAX
    ensures Resolve(reg, allowed, seen, Decimal(k)) == if 1 <= k <= |listed| then Some(listed[k - 1]) else None
  {
    ParseDecimal(k);
    UseMeansListedLine(reg, allowed, Decimal(k), listed, seen);
  }

  // ---------- Iterating the map ----------

  /** `cs` holds the visible clients with tokens in `done`, each once. */
  ghost predicate Enumerates(reg: Reg, allowed: Option<set<string>>, done: set<string>, cs: seq<ClientInfo>) {
    && (forall i | 0 <= i < |cs| ::
          cs[i].vtoken in done && cs[i].vtoken in reg.byVtoken && reg.byVtoken[cs[i].vtoken] == cs[i]
          && (allowed.None? || cs[i].name in allowed.value))
    && (forall v | v in done && v in reg.byVtoken ::
          allowed.None? || reg.byVtoken[v].name in allowed.value ==> reg.byVtoken[v] in cs)
    && forall i, j | 0 <= i < j < |cs| :: cs[i].vtoken != cs[j].vtoken
  }

  lemma {:induction false} EnumeratesNext(reg: Reg, allowed: Option<set<string>>, done: set<string>,
                                          cs: seq<ClientInfo>, v: string)
    requires reg.Inverse() && Enumerates(reg, allowed, done, cs) && v in reg.byVtoken && v !in done
    ensures var c := reg.byVtoken[v];
            Enumerates(reg, allowed, done + {v}, if allowed.None? || c.name in allowed.value then cs + [c] else cs)
  {
  }

  lemma {:induction false} EnumeratesAll(reg: Reg, allowed: Option<set<string>>, cs: seq<ClientInfo>)
    requires reg.Inverse() && Enumerates(reg, allowed, reg.byVtoken.Keys, cs)
    ensures forall c :: c in cs <==> reg.Visible(allowed, c)
    ensures forall i, j | 0 <= i < j < |cs| :: cs[i].name != cs[j].name
  {
    forall c ensures c in cs <==> reg.Visible(allowed, c) {
      if c in cs {
        assert reg.byVtoken[c.vtoken] == c;
      }
    }
    forall i, j | 0 <= i < j < |cs| ensures cs[i].name != cs[j].name {
      assert reg.byName[cs[i].name] == cs[i].vtoken && reg.byName[cs[j].name] == cs[j].vtoken;
    }
  }

  // ---------- The registry object ----------

  class ClientRegistry {
    var byVtoken: map<string, ClientInfo>
    var byName: map<string, string>

    function View(): Reg
      reads this
    {
      Reg(byVtoken, byName)
    }

    constructor ()
      ensures View() == Reg(map[], map[])
    {
      byVtoken, byName := map[], map[];
    }

    method Register(name: string, tag: Option<string>, description: Option<string>, minted: string)
      returns (hash: string, isNew: bool)
      modifies this
      ensures (View(), hash, isNew) == old(View()).Register(name, tag, description, minted)
    {
      if name in byName {
        var existing := byName[name];
        if existing in byVtoken {
          var info := byVtoken[existing];
          if tag.Some? {
            info := info.(tag := tag);
          }
          if description.Some? {
            info := info.(description := description);
          }
          byVtoken := byVtoken[existing := info.(online := true)];
        }
        return existing, false;
      }
      byName := byName[name := minted];
      byVtoken := byVtoken[minted := NewClient(name, tag, description, minted)];
      return minted, true;
    }

    method RegisterConfirmed(name: string, tag: Option<string>, description: Option<string>, hash: string)
      returns (ok: bool)
      modifies this
      ensures (View(), ok) == old(View()).RegisterConfirmed(name, tag, description, hash)
    {
      if name in byName {
        return false;
      }
      byName := byName[name := hash];
      byVtoken := byVtoken[hash := NewClient(name, tag, description, hash)];
      return true;
    }

    method RotateVtoken(name: string, minted: string) returns (ok: bool)
      modifies this
      ensures (View(), ok) == old(View()).RotateVtoken(name, minted)
    {
      if name !in byName || byName[name] !in byVtoken {
        return false;
      }
      var oldHash := byName[name];
      var info := byVtoken[oldHash];
      byVtoken := byVtoken - {oldHash};
      info := info.(vtoken := minted, online := false);
      byVtoken := byVtoken[minted := info];
      byName := byName[name := minted];
      return true;
    }

    method Remove(name: string) returns (ok: bool)
      modifies this
      ensures (View(), ok) == old(View()).Remove(name)
    {
      if name in byName {
        var vtoken := byName[name];
        byName := byName - {name};
        byVtoken := byVtoken - {vtoken};
        return true;
      }
      return false;
    }

    method UpdateClient(oldName: string, newName: string, tag: Option<string>) returns (r: UpdateResult)
      modifies this
      ensures (View(), r) == old(View()).UpdateClient(oldName, newName, tag)
    {
      if oldName !in byName {
        return NotFound;
      }
      var vtoken := byName[oldName];
      if newName != oldName && newName in byName {
        return NameTaken;
      }
      if vtoken !in byVtoken {
        return NotFound;
      }
      var info := byVtoken[vtoken];
      if newName != oldName {
        byName := byName - {oldName};
        info := info.(name := newName);
        byName := byName[newName := vtoken];
      }
      if tag.Some? {
        info := info.(tag := tag);
      }
      byVtoken := byVtoken[vtoken := info];
      return Updated(vtoken);
    }

    method UpdateMetadata(vtoken: string, tag: Option<string>, description: Option<string>,
                          personaName: Option<string>, personaEmoji: Option<string>)
      modifies this`byVtoken
      ensures View() == old(View()).UpdateMetadata(vtoken, tag, description, personaName, personaEmoji)
    {
      if vtoken in byVtoken {
        var info := byVtoken[vtoken];
        if tag.Some? {
          info := info.(tag := tag);
        }
        if description.Some? {
          info := info.(description := description);
        }
        if personaName.Some? {
          info := info.(personaName := personaName);
        }
        if personaEmoji.Some? {
          info := info.(personaEmoji := personaEmoji);
        }
        byVtoken := byVtoken[vtoken := info];
      }
    }

    method MarkOnline(vtoken: string)
      modifies this`byVtoken
      ensures View() == old(View()).SetOnline(vtoken, true)
    {
      if vtoken in byVtoken {
        byVtoken := byVtoken[vtoken := byVtoken[vtoken].(online := true)];
      }
    }

    method MarkOffline(vtoken: string)
      modifies this`byVtoken
      ensures View() == old(View()).SetOnline(vtoken, false)
    {
      if vtoken in byVtoken {
        byVtoken := byVtoken[vtoken := byVtoken[vtoken].(online := false)];
      }
    }

    /** All visible clients, in whatever order the map yields them. */
    method AllClientsIn(allowed: Option<set<string>>) returns (cs: seq<ClientInfo>)
      requires View().Inverse()
      ensures forall c :: c in cs <==> View().Visible(allowed, c)
      ensures forall i, j | 0 <= i < j < |cs| :: cs[i].name != cs[j].name
    {
      cs := [];
      var rest := byVtoken.Keys;
      while rest != {}
        invariant rest <= byVtoken.Keys
        invariant Enumerates(View(), allowed, byVtoken.Keys - rest, cs)
        decreases |rest|
      {
        var v :| v in rest;
        ghost var done := byVtoken.Keys - rest;
        rest := rest - {v};
        assert byVtoken.Keys - rest == done + {v};
        EnumeratesNext(View(), allowed, done, cs, v);
        if allowed.None? || byVtoken[v].name in allowed.value {
          cs := cs + [byVtoken[v]];
        }
      }
      assert byVtoken.Keys - rest == byVtoken.Keys;
      EnumeratesAll(View(), allowed, cs);
    }

    static method SortByName(cs: seq<ClientInfo>) returns (sorted: seq<ClientInfo>)
      requires forall i, j | 0 <= i < j < |cs| :: cs[i].name != cs[j].name
      ensures Ascending(sorted) && forall c :: c in sorted <==> c in cs
    {
      sorted := [];
      for n := 0 to |cs|
        invariant Ascending(sorted)
        invariant forall c :: c in sorted <==> c in cs[..n]
      {
        forall c ensures c in InsertByName(sorted, cs[n]) <==> c in cs[..n + 1] {
          InsertElements(sorted, cs[n], c);
          assert cs[..n + 1] == cs[..n] + [cs[n]];
        }
        forall i | 0 <= i < |sorted| ensures sorted[i].name != cs[n].name {
          assert sorted[i] in cs[..n];
        }
        InsertKeepsOrder(sorted, cs[n]);
        sorted := InsertByName(sorted, cs[n]);
      }
      assert cs[..|cs|] == cs;
    }

    /** The lines of `/list`. */
    method ListClients(allowed: Option<set<string>>) returns (lines: seq<ClientInfo>)
      requires View().Inverse()
      ensures View().Listing(allowed, lines)
    {
      var cs := AllClientsIn(allowed);
      lines := SortByName(cs);
    }

    method GetByAliasIn(name: string, allowed: Option<set<string>>) returns (r: Option<ClientInfo>)
      requires View().Inverse()
      ensures forall xs :: View().Listing(allowed, xs) ==> r == Resolve(View(), allowed, xs, name)
      ensures r.Some? ==> View().Visible(allowed, r.value)
      ensures r.Some? && name in byName ==> r.value.name == name && r.value.vtoken == byName[name]
    {
      var c := View().GetByName(name);
      if c.Some? {
        return if allowed.None? || c.value.name in allowed.value then c else None;
      }
      var n := ParseU64(name);
      if n.None? || n.value == 0 {
        return None;
      }
      var sorted := ListClients(allowed);
      r := if n.value <= |sorted| then Some(sorted[n.value - 1]) else None;
      forall xs | View().Listing(allowed, xs) ensures r == Resolve(View(), allowed, xs, name) {
        ListingIsUnique(View(), allowed, sorted, xs);
      }
    }

    /** A replacement default: the first online client that is not `removed`, else the first other. */
    method PickDefaultAfterRemove(removed: string) returns (pick: Option<string>)
      ensures View().MayPick(removed, pick)
    {
      var others := set v | v in byVtoken && byVtoken[v].vtoken != removed;
      var awake := set v | v in others && byVtoken[v].online;
      if awake != {} {
        var v :| v in awake;
        return Some(byVtoken[v].vtoken);
      }
      if others != {} {
        var v :| v in others;
        return Some(byVtoken[v].vtoken);
      }
      return None;
    }
  }
}
