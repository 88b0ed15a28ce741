/** The agent allowlist: a comma-separated spec, parsed into A2A edges and WeChat visibility. */
module Acl {
  import opened Base
  import opened Text

  const WILDCARD: string := "*"

  datatype AgentAcl = AgentAcl(
    a2a: map<string, set<string>>,
    wechatUsers: map<string, set<string>>,
    wechatPublic: set<string>,
    specPresent: bool)

  const EMPTY := AgentAcl(map[], map[], {}, false)

  /** What one comma-separated entry says. */
  datatype Entry =
    | Blank
    | Malformed
    | Edge(caller: string, target: string)
    | UserEdge(uid: string, backend: string)
    | Everyone(backend: string)

  function ReadEntry(raw: string): Entry {
    var entry := Trim(raw);
    if entry == [] then Blank
    else match Find(entry, "->")
      case Some(i) =>
        var lhs, rhs := Trim(entry[..i]), Trim(entry[i + 2..]);
        if lhs == [] || rhs == [] then Malformed
        else if "user:" <= lhs then
          var uid := Trim(lhs[5..]);
          if uid == [] || uid == WILDCARD || rhs == WILDCARD then Malformed else UserEdge(uid, rhs)
        else Edge(lhs, rhs)
      case None =>
        if entry == WILDCARD then Edge(WILDCARD, WILDCARD)
        else if "user:" <= entry then Malformed
        else Everyone(entry)
  }

  function Row(m: map<string, set<string>>, k: string): set<string> {
    if k in m then m[k] else {}
  }

  function Insert(m: map<string, set<string>>, k: string, v: string): map<string, set<string>> {
    m[k := Row(m, k) + {v}]
  }

  function Add(acl: AgentAcl, e: Entry): AgentAcl {
    match e
    case Blank => acl
    case Malformed => acl.(specPresent := true)
    case Edge(c, t) => acl.(specPresent := true, a2a := Insert(acl.a2a, c, t))
    case UserEdge(u, b) => acl.(specPresent := true, wechatUsers := Insert(acl.wechatUsers, u, b))
    case Everyone(b) => acl.(specPresent := true, wechatPublic := acl.wechatPublic + {b})
  }

  function ReadAll(raws: seq<string>): seq<Entry> {
    seq(|raws|, i requires 0 <= i < |raws| => ReadEntry(raws[i]))
  }

  /** The entries of a spec, in order. */
  function Entries(spec: string): seq<Entry> {
    ReadAll(Split(spec, ","))
  }

  function FromEntries(es: seq<Entry>): AgentAcl {
    if es == [] then EMPTY else Add(FromEntries(es[..|es| - 1]), es[|es| - 1])
  }

  function Meaning(spec: string): AgentAcl {
    FromEntries(Entries(spec))
  }

  lemma {:induction false} AddLast(es: seq<Entry>, n: nat)
    requires n < |es|
    ensures FromEntries(es[..n + 1]) == Add(FromEntries(es[..n]), es[n])
  {
    assert es[..n + 1][..n] == es[..n];
  }

  method Parse(spec: string) returns (acl: AgentAcl)
    ensures acl == Meaning(spec)
  {
    acl := EMPTY;
    var raws := Split(spec, ",");
    ghost var es := Entries(spec);
    for n := 0 to |raws|
      invariant acl == FromEntries(es[..n])
    {
      AddLast(es, n);
      assert es[n] == ReadEntry(raws[n]);
      var entry := Trim(raws[n]);
      if entry == [] {
        continue;
      }
      acl := acl.(specPresent := true);
      var arrow := Find(entry, "->");
      if arrow.Some? {
        var lhs, rhs := Trim(entry[..arrow.value]), Trim(entry[arrow.value + 2..]);
        if lhs == [] || rhs == [] {
          continue;
        }
        if "user:" <= lhs {
          var uid := Trim(lhs[5..]);
          if uid == [] || uid == WILDCARD || rhs == WILDCARD {
            continue;
          }
          acl := acl.(wechatUsers := Insert(acl.wechatUsers, uid, rhs));
        } else {
          acl := acl.(a2a := Insert(acl.a2a, lhs, rhs));
        }
      } else if entry == WILDCARD {
        acl := acl.(a2a := Insert(acl.a2a, WILDCARD, WILDCARD));
      } else if "user:" <= entry {
        continue;
      } else {
        acl := acl.(wechatPublic := acl.wechatPublic + {entry});
      }
    }
    assert es[..|raws|] == es;
  }

  // ---------- Meaning of a spec ----------

  ghost predicate NoEmptyRow(m: map<string, set<string>>) {
    forall k | k in m :: m[k] != {}
  }

  ghost predicate Holds(acl: AgentAcl, e: Entry) {
    match e
    case Edge(c, t) => t in Row(acl.a2a, c)
    case UserEdge(u, b) => b in Row(acl.wechatUsers, u)
    case Everyone(b) => b in acl.wechatPublic
    case _ => acl.specPresent
  }

  /** The ACL holds exactly what the well-formed entries say, and is present if any entry is. */
  lemma {:induction false} AclIsWhatEntriesSay(es: seq<Entry>)
    ensures var acl := FromEntries(es);
            && NoEmptyRow(acl.a2a) && NoEmptyRow(acl.wechatUsers)
            && (forall e: Entry | !e.Blank? && !e.Malformed? :: Holds(acl, e) <==> e in es)
            && (acl.specPresent <==> exists i | 0 <= i < |es| :: !es[i].Blank?)
  {
    if es != [] {
      var rest, last := es[..|es| - 1], es[|es| - 1];
      AclIsWhatEntriesSay(rest);
      assert es == rest + [last];
      assert FromEntries(es).specPresent <==> FromEntries(rest).specPresent || !last.Blank?;
      forall e: Entry | !e.Blank? && !e.Malformed?
        ensures Holds(FromEntries(es), e) <==> e in es
      {
        assert Holds(FromEntries(rest), e) <==> e in rest;
      }
    }
  }

  lemma {:induction false} RowsDecide(m: map<string, set<string>>, m': map<string, set<string>>)
    requires NoEmptyRow(m) && NoEmptyRow(m')
    requires forall k :: Row(m, k) == Row(m', k)
    ensures m == m'
  {
    forall k ensures k in m <==> k in m' {
      assert Row(m, k) == Row(m', k);
    }
    forall k | k in m && k in m' ensures m[k] == m'[k] {
      assert Row(m, k) == Row(m', k);
    }
  }

  /** Order and repetition of entries never matter. */
  lemma {:induction false} EntryOrderIsIrrelevant(es: seq<Entry>, es': seq<Entry>)
    requires forall e :: e in es <==> e in es'
    ensures FromEntries(es) == FromEntries(es')
  {
    var acl, acl' := FromEntries(es), FromEntries(es');
    AclIsWhatEntriesSay(es);
    AclIsWhatEntriesSay(es');
    forall k, v
      ensures v in Row(acl.a2a, k) <==> v in Row(acl'.a2a, k)
      ensures v in Row(acl.wechatUsers, k) <==> v in Row(acl'.wechatUsers, k)
    {
      assert Holds(acl, Edge(k, v)) <==> Holds(acl', Edge(k, v));
      assert Holds(acl, UserEdge(k, v)) <==> Holds(acl', UserEdge(k, v));
    }
    forall b ensures b in acl.wechatPublic <==> b in acl'.wechatPublic {
      assert Holds(acl, Everyone(b)) <==> Holds(acl', Everyone(b));
    }
    RowsDecide(acl.a2a, acl'.a2a);
    RowsDecide(acl.wechatUsers, acl'.wechatUsers);
    SamePresence(es, es');
    SamePresence(es', es);
  }

  lemma {:induction false} SamePresence(es: seq<Entry>, es': seq<Entry>)
    requires forall e :: e in es ==> e in es'
    ensures (exists i | 0 <= i < |es| :: !es[i].Blank?) ==> (exists j | 0 <= j < |es'| :: !es'[j].Blank?)
  {
    if i :| 0 <= i < |es| && !es[i].Blank? {
      assert es[i] in es';
    }
  }

  function MergeRows(m: map<string, set<string>>, m': map<string, set<string>>): map<string, set<string>> {
    map k | k in m.Keys + m'.Keys :: Row(m, k) + Row(m', k)
  }

  function Union(a: AgentAcl, b: AgentAcl): AgentAcl {
    AgentAcl(MergeRows(a.a2a, b.a2a), MergeRows(a.wechatUsers, b.wechatUsers),
             a.wechatPublic + b.wechatPublic, a.specPresent || b.specPresent)
  }

  lemma {:induction false} MergedRow(m: map<string, set<string>>, m': map<string, set<string>>, k: string)
    ensures Row(MergeRows(m, m'), k) == Row(m, k) + Row(m', k)
  {}

  lemma {:induction false} MergeInsert(m: map<string, set<string>>, m': map<string, set<string>>, k: string, v: string)
    ensures MergeRows(m, Insert(m', k, v)) == Insert(MergeRows(m, m'), k, v)
  {
    var l, r := MergeRows(m, Insert(m', k, v)), Insert(MergeRows(m, m'), k, v);
    MergedRow(m, m', k);
    assert l.Keys == r.Keys;
    assert l[k] == r[k];
    assert forall j | j in l && j != k :: l[j] == r[j];
  }

  lemma {:induction false} MergeNothing(m: map<string, set<string>>)
    ensures MergeRows(m, map[]) == m
  {
    assert forall k | k in m :: MergeRows(m, map[])[k] == m[k] + {} == m[k];
  }

  lemma {:induction false} UnionAdd(a: AgentAcl, b: AgentAcl, e: Entry)
    ensures Union(a, Add(b, e)) == Add(Union(a, b), e)
  {
    match e
    case Edge(c, t) => MergeInsert(a.a2a, b.a2a, c, t);
    case UserEdge(u, x) => MergeInsert(a.wechatUsers, b.wechatUsers, u, x);
    case Everyone(x) => assert a.wechatPublic + (b.wechatPublic + {x}) == (a.wechatPublic + b.wechatPublic) + {x};
    case _ =>
  }

  lemma {:induction false} EntriesConcat(xs: seq<Entry>, ys: seq<Entry>)
    ensures FromEntries(xs + ys) == Union(FromEntries(xs), FromEntries(ys))
    decreases |ys|
  {
    if ys == [] {
      assert xs + ys == xs;
      MergeNothing(FromEntries(xs).a2a);
      MergeNothing(FromEntries(xs).wechatUsers);
    } else {
      var rest, y := ys[..|ys| - 1], ys[|ys| - 1];
      assert (xs + ys)[..|xs + ys| - 1] == xs + rest;
      EntriesConcat(xs, rest);
      UnionAdd(FromEntries(xs), FromEntries(rest), y);
    }
  }

  lemma {:induction false} EntriesOfComma(a: string, b: string)
    ensures Entries(a + "," + b) == Entries(a) + Entries(b)
  {
    SplitConcat(a, ',', b);
    assert ReadAll(Split(a, ",") + Split(b, ",")) == ReadAll(Split(a, ",")) + ReadAll(Split(b, ","));
  }

  /** Parsing `a,b` is the component-wise union of parsing `a` and parsing `b`. */
  lemma {:induction false} CommaIsUnion(a: string, b: string)
    ensures Meaning(a + "," + b) == Union(Meaning(a), Meaning(b))
  {
    EntriesOfComma(a, b);
    EntriesConcat(Entries(a), Entries(b));
  }

  // ---------- Agent-to-agent calls ----------

  predicate AllowsA2a(acl: AgentAcl, caller: string, target: string) {
    || (caller in acl.a2a && (target in acl.a2a[caller] || WILDCARD in acl.a2a[caller]))
    || (WILDCARD in acl.a2a && (target in acl.a2a[WILDCARD] || WILDCARD in acl.a2a[WILDCARD]))
  }

  /** `None` is unrestricted. */
  function VisibleTargets(acl: AgentAcl, caller: string): Option<set<string>> {
    var all := Row(acl.a2a, caller) + Row(acl.a2a, WILDCARD);
    if WILDCARD in all then None else Some(all)
  }

  /** Adds one row to `seen`, unless the row holds the wildcard. */
  method Collect(row: set<string>, seen: set<string>) returns (all: Option<set<string>>)
    requires WILDCARD !in seen
    ensures all == if WILDCARD in row then None else Some(seen + row)
  {
    var visible := seen;
    var rest := row;
    while rest != {}
      invariant rest <= row && visible == seen + (row - rest) && WILDCARD !in visible
      decreases |rest|
    {
      var target :| target in rest;
      if target == WILDCARD {
        return None;
      }
      visible := visible + {target};
      rest := rest - {target};
    }
    assert row - rest == row;
    return Some(visible);
  }

  method VisibleTargetsForAgent(acl: AgentAcl, caller: string) returns (visible: Option<set<string>>)
    ensures visible == VisibleTargets(acl, caller)
  {
    visible := Collect(Row(acl.a2a, caller), {});
    assert {} + Row(acl.a2a, caller) == Row(acl.a2a, caller);
    if visible.Some? {
      visible := Collect(Row(acl.a2a, WILDCARD), visible.value);
    }
  }

  /** A caller may invoke exactly the targets it is shown. */
  lemma {:induction false} AllowedIffVisible(acl: AgentAcl, caller: string, target: string)
    ensures AllowsA2a(acl, caller, target) <==>
            var visible := VisibleTargets(acl, caller);
            visible.None? || target in visible.value
  {}

  /** Every grant is witnessed by a well-formed edge naming the pair, up to wildcards. */
  lemma {:induction false} AllowedIffSaid(spec: string, caller: string, target: string)
    ensures AllowsA2a(Meaning(spec), caller, target) <==>
            || Edge(caller, target) in Entries(spec) || Edge(caller, WILDCARD) in Entries(spec)
            || Edge(WILDCARD, target) in Entries(spec) || Edge(WILDCARD, WILDCARD) in Entries(spec)
  {
    AclIsWhatEntriesSay(Entries(spec));
    var acl := Meaning(spec);
    assert forall c, t :: Holds(acl, Edge(c, t)) <==> Edge(c, t) in Entries(spec);
    assert AllowsA2a(acl, caller, target) <==>
           || Holds(acl, Edge(caller, target)) || Holds(acl, Edge(caller, WILDCARD))
           || Holds(acl, Edge(WILDCARD, target)) || Holds(acl, Edge(WILDCARD, WILDCARD));
  }

  /** Appending entries never revokes an A2A grant, and only edges add any: a malformed entry cannot
      widen A2A. */
  lemma {:induction false} OnlyEdgesGrant(a: string, b: string, caller: string, target: string)
    ensures AllowsA2a(Meaning(a), caller, target) ==> AllowsA2a(Meaning(a + "," + b), caller, target)
    ensures (forall e | e in Entries(b) :: !e.Edge?) ==>
              (AllowsA2a(Meaning(a + "," + b), caller, target) <==> AllowsA2a(Meaning(a), caller, target))
  {
    EntriesOfComma(a, b);
    AllowedIffSaid(a, caller, target);
    AllowedIffSaid(a + "," + b, caller, target);
  }

  // ---------- WeChat visibility ----------

  function WechatVisible(acl: AgentAcl, user: string, registered: seq<string>): Option<set<string>> {
    if acl.wechatPublic == {} && acl.wechatUsers == map[] then None
    else Some(set name | name in acl.wechatPublic + Row(acl.wechatUsers, user) && name in registered)
  }

  /** Visibility is unrestricted, for every user, exactly when no well-formed WeChat entry is present.
      So a spec whose only WeChat entry is malformed hides nothing. */
  lemma {:induction false} UnrestrictedIffNoWechatEntry(spec: string, user: string, registered: seq<string>)
    ensures WechatVisible(Meaning(spec), user, registered).None? <==>
            forall e | e in Entries(spec) :: !e.UserEdge? && !e.Everyone?
  {
    var acl := Meaning(spec);
    AclIsWhatEntriesSay(Entries(spec));
    if acl.wechatPublic != {} {
      var b :| b in acl.wechatPublic;
      assert Holds(acl, Everyone(b));
    }
    if acl.wechatUsers != map[] {
      var u :| u in acl.wechatUsers;
      var b :| b in acl.wechatUsers[u];
      assert Holds(acl, UserEdge(u, b));
    }
    if e :| e in Entries(spec) && (e.UserEdge? || e.Everyone?) {
      assert Holds(acl, e);
    }
  }

  /** Once any WeChat entry is well formed, a user sees exactly the registered backends that an entry
      shows to everyone or to that user. */
  lemma {:induction false} SeenIffSaid(spec: string, user: string, registered: seq<string>, name: string)
    requires WechatVisible(Meaning(spec), user, registered).Some?
    ensures name in WechatVisible(Meaning(spec), user, registered).value <==>
            && name in registered
            && (Everyone(name) in Entries(spec) || UserEdge(user, name) in Entries(spec))
  {
    AclIsWhatEntriesSay(Entries(spec));
    var acl := Meaning(spec);
    assert Holds(acl, Everyone(name)) <==> Everyone(name) in Entries(spec);
    assert Holds(acl, UserEdge(user, name)) <==> UserEdge(user, name) in Entries(spec);
  }
}
