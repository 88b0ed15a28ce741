/** Which text spells which entry of an allowlist spec. `Acl` says what entries mean; here entries are
    characterised by the characters an administrator writes, white space included. */
module AclSyntax {
  import opened Base
  import opened Text
  import opened Acl

  const ARROW: string := "->"
  const USER: string := "user:"

  ghost predicate Word(s: string) {
    s != [] && Trimmed(s)
  }

  ghost predicate NoArrow(s: string) {
    forall i :: !OccursAt(s, ARROW, i)
  }

  /** White space that may surround the parts of an entry. */
  datatype Pads = Pads(a: string, b: string, c: string, d: string, e: string) {
    ghost predicate Valid() {
      AllSpace(a) && AllSpace(b) && AllSpace(c) && AllSpace(d) && AllSpace(e)
    }
  }

  ghost predicate WordText(raw: string, s: string, p: Pads) {
    p.Valid() && raw == p.a + s + p.e
  }

  ghost predicate EdgeText(raw: string, lhs: string, rhs: string, p: Pads) {
    p.Valid() && raw == p.a + lhs + p.b + ARROW + p.c + rhs + p.e
  }

  ghost predicate UserText(raw: string, uid: string, rhs: string, p: Pads) {
    p.Valid() && raw == p.a + USER + p.d + uid + p.b + ARROW + p.c + rhs + p.e
  }

  /** `raw` spells the entry `e`. A malformed entry is one that nothing else is spelt by. */
  ghost predicate Spells(raw: string, e: Entry) {
    match e
    case Blank => AllSpace(raw)
    case Edge(c, t) =>
      || (c == WILDCARD && t == WILDCARD && exists p :: WordText(raw, WILDCARD, p))
      || (Word(c) && Word(t) && NoArrow(c) && !(USER <= c) && exists p :: EdgeText(raw, c, t, p))
    case UserEdge(u, b) =>
      Word(u) && Word(b) && u != WILDCARD && b != WILDCARD && NoArrow(u) && exists p :: UserText(raw, u, b, p)
    case Everyone(b) =>
      Word(b) && b != WILDCARD && NoArrow(b) && !(USER <= b) && exists p :: WordText(raw, b, p)
    case Malformed =>
      false
  }

  // ---------- The arrow ----------

  /** The first arrow is the one after an arrowless left side. */
  lemma {:induction false} FirstArrow(l: string, r: string)
    requires NoArrow(l)
    ensures Find(l + ARROW + r, ARROW) == Some(|l|)
  {
    var s := l + ARROW + r;
    assert OccursAt(s, ARROW, |l|);
    forall j | 0 <= j < |l| ensures !OccursAt(s, ARROW, j) {
      if j + 1 < |l| {
        assert s[j..j + 2] == l[j..j + 2];
        assert !OccursAt(l, ARROW, j);
      } else {
        OccursChar(s, ARROW, j, 1);
      }
    }
  }

  lemma {:induction false} NoDashNoArrow(s: string)
    requires '-' !in s
    ensures NoArrow(s)
  {
    forall i ensures !OccursAt(s, ARROW, i) {
      OccursChar(s, ARROW, i, 0);
    }
  }

  /** White space and a prefix without dashes bring no arrow with them. */
  lemma {:induction false} NoArrowAround(p: string, s: string, q: string)
    requires NoArrow(s) && '-' !in p && AllSpace(q)
    ensures NoArrow(p + s + q)
  {
    var t := p + s + q;
    forall i ensures !OccursAt(t, ARROW, i) {
      OccursChar(t, ARROW, i, 0);
      OccursChar(t, ARROW, i, 1);
      if |p| <= i && i + 2 <= |p| + |s| {
        assert t[i..i + 2] == s[i - |p|..i - |p| + 2];
        assert !OccursAt(s, ARROW, i - |p|);
      }
    }
  }

  lemma {:induction false} NoArrowInside(p: string, s: string, q: string)
    requires NoArrow(p + s + q)
    ensures NoArrow(s)
  {
    var t := p + s + q;
    forall i ensures !OccursAt(s, ARROW, i) {
      if 0 <= i && i + 2 <= |s| {
        assert t[|p| + i..|p| + i + 2] == s[i..i + 2];
        assert !OccursAt(t, ARROW, |p| + i);
      }
    }
  }

  lemma {:induction false} NoArrowBefore(s: string, i: nat)
    requires Find(s, ARROW) == Some(i)
    ensures NoArrow(s[..i])
  {
    forall j ensures !OccursAt(s[..i], ARROW, j) {
      if 0 <= j && j + 2 <= i {
        assert s[..i][j..j + 2] == s[j..j + 2];
        assert !OccursAt(s, ARROW, j);
      }
    }
  }

  // ---------- What is spelt is read ----------

  /** An entry with an arrow, however padded, is split into its two sides. */
  lemma {:induction false} EdgeSides(raw: string, lhs: string, rhs: string, p: Pads)
    requires EdgeText(raw, lhs, rhs, p) && Word(lhs) && Word(rhs) && NoArrow(lhs)
    ensures var entry := Trim(raw);
            && entry != [] && Find(entry, ARROW).Some?
            && var i := Find(entry, ARROW).value; Trim(entry[..i]) == lhs && Trim(entry[i + 2..]) == rhs
  {
    var l, r := lhs + p.b, p.c + rhs;
    var entry := l + ARROW + r;
    assert raw == p.a + entry + p.e;
    assert entry[0] == lhs[0] && entry[|entry| - 1] == rhs[|rhs| - 1];
    TrimPadded(p.a, entry, p.e);
    assert [] + lhs + p.b == l;
    NoArrowAround([], lhs, p.b);
    FirstArrow(l, r);
    assert entry[..|l|] == l && entry[|l| + 2..] == r;
    TrimPadded([], lhs, p.b);
    assert p.c + rhs + [] == r;
    TrimPadded(p.c, rhs, []);
  }

  lemma {:induction false} SpaceHasNoDash(s: string)
    requires AllSpace(s)
    ensures '-' !in s
  {}

  lemma {:induction false} UserIsRead(raw: string, uid: string, rhs: string, p: Pads)
    requires UserText(raw, uid, rhs, p) && Word(uid) && Word(rhs) && NoArrow(uid)
    requires uid != WILDCARD && rhs != WILDCARD
    ensures ReadEntry(raw) == UserEdge(uid, rhs)
  {
    var lhs := USER + p.d + uid;
    assert EdgeText(raw, lhs, rhs, p) by {
      assert p.a + lhs == p.a + USER + p.d + uid;
    }
    assert lhs[0] == 'u' && lhs[|lhs| - 1] == uid[|uid| - 1];
    SpaceHasNoDash(p.d);
    assert (USER + p.d) + uid + [] == lhs;
    NoArrowAround(USER + p.d, uid, []);
    EdgeSides(raw, lhs, rhs, p);
    assert lhs[5..] == p.d + uid + [];
    TrimPadded(p.d, uid, []);
  }

  lemma {:induction false} WordIsRead(raw: string, s: string, p: Pads)
    requires WordText(raw, s, p) && Word(s)
    ensures Trim(raw) == s
  {
    TrimPadded(p.a, s, p.e);
  }

  lemma {:induction false} BareIsRead(raw: string, s: string)
    requires Trim(raw) == s && s != [] && NoArrow(s)
    ensures ReadEntry(raw) ==
            if s == WILDCARD then Edge(WILDCARD, WILDCARD) else if USER <= s then Malformed else Everyone(s)
  {
    assert Find(s, ARROW).None?;
  }

  lemma {:induction false} StarIsRead(raw: string, p: Pads)
    requires WordText(raw, WILDCARD, p)
    ensures ReadEntry(raw) == Edge(WILDCARD, WILDCARD)
  {
    WordIsRead(raw, WILDCARD, p);
    NoDashNoArrow(WILDCARD);
    BareIsRead(raw, WILDCARD);
  }

  lemma {:induction false} EdgeIsRead(raw: string, c: string, t: string)
    requires Spells(raw, Edge(c, t))
    ensures ReadEntry(raw) == Edge(c, t)
  {
    if c == WILDCARD && t == WILDCARD && exists p :: WordText(raw, WILDCARD, p) {
      var p :| WordText(raw, WILDCARD, p);
      StarIsRead(raw, p);
    } else {
      var p :| EdgeText(raw, c, t, p);
      EdgeSides(raw, c, t, p);
    }
  }

  lemma {:induction false} SpeltIsRead(raw: string, e: Entry)
    requires Spells(raw, e)
    ensures ReadEntry(raw) == e
  {
    match e
    case Blank =>
      assert raw + [] + [] == raw;
      TrimPadded(raw, [], []);
    case Edge(c, t) =>
      EdgeIsRead(raw, c, t);
    case UserEdge(u, b) =>
      var p :| UserText(raw, u, b, p);
      UserIsRead(raw, u, b, p);
    case Everyone(b) =>
      var p :| WordText(raw, b, p);
      WordIsRead(raw, b, p);
      BareIsRead(raw, b);
  }

  // ---------- What is read was spelt ----------

  /** The sides found around the first arrow put the entry back together, with white space between. */
  lemma {:induction false} SidesSpell(raw: string, i: nat) returns (p: Pads)
    requires Find(Trim(raw), ARROW) == Some(i)
    ensures EdgeText(raw, Trim(Trim(raw)[..i]), Trim(Trim(raw)[i + 2..]), p)
    ensures NoArrow(Trim(Trim(raw)[..i]))
  {
    var entry := Trim(raw);
    var l, r := entry[..i], entry[i + 2..];
    var a, e := TrimCut(raw);
    var a1, b := TrimCut(l);
    var c, e1 := TrimCut(r);
    p := Pads(a + a1, b, c, [], e1 + e);
    assert entry == l + ARROW + r by {
      assert entry[i..i + 2] == ARROW;
    }
    Regroup(a, a1, Trim(l), b, c, Trim(r), e1, e);
    AllSpaceJoined(a, a1);
    AllSpaceJoined(e1, e);
    NoArrowBefore(entry, i);
    NoArrowInside(a1, Trim(l), b);
  }

  lemma {:induction false} AllSpaceJoined(a: string, b: string)
    requires AllSpace(a) && AllSpace(b)
    ensures AllSpace(a + b)
  {}

  lemma {:induction false} Regroup(a: string, a1: string, x: string, b: string, c: string, y: string, e1: string,
                                   e: string)
    ensures a + ((a1 + x + b) + ARROW + (c + y + e1)) + e == (a + a1) + x + b + ARROW + c + y + (e1 + e)
  {
    var l, r := a1 + x + b, c + y + e1;
    assert a + (l + ARROW + r) + e == (a + l) + ARROW + (r + e);
    assert a + l == (a + a1) + x + b;
    assert r + e == c + y + (e1 + e);
    var left := (a + a1) + x + b + ARROW;
    assert left + (c + y + (e1 + e)) == left + c + y + (e1 + e);
  }

  lemma {:induction false} BareSpells(raw: string) returns (p: Pads)
    ensures WordText(raw, Trim(raw), p)
  {
    var a, e := TrimCut(raw);
    p := Pads(a, [], [], [], e);
  }

  lemma {:induction false} UserSpells(raw: string, lhs: string, rhs: string, p: Pads) returns (p': Pads)
    requires EdgeText(raw, lhs, rhs, p) && USER <= lhs && NoArrow(lhs)
    ensures UserText(raw, Trim(lhs[5..]), rhs, p') && NoArrow(Trim(lhs[5..]))
  {
    var uid := Trim(lhs[5..]);
    var d, b := TrimCut(lhs[5..]);
    p' := p.(d := d, b := b + p.b);
    assert lhs == USER + (d + uid + b);
    UserRegroup(p.a, d, uid, b, p.b);
    AllSpaceJoined(b, p.b);
    assert lhs == (USER + d) + uid + b;
    NoArrowInside(USER + d, uid, b);
  }

  lemma {:induction false} UserRegroup(a: string, d: string, uid: string, b: string, b': string)
    ensures a + (USER + (d + uid + b)) + b' == a + USER + d + uid + (b + b')
  {}

  lemma {:induction false} BareWasSpelt(raw: string)
    requires Trim(raw) != [] && Find(Trim(raw), ARROW).None? && !ReadEntry(raw).Malformed?
    ensures Spells(raw, ReadEntry(raw))
  {
    TrimIsTrimmed(raw);
    var p := BareSpells(raw);
    assert NoArrow(Trim(raw));
  }

  lemma {:induction false} SidesWereSpelt(raw: string, i: nat)
    requires Find(Trim(raw), ARROW) == Some(i) && !ReadEntry(raw).Malformed?
    ensures Spells(raw, ReadEntry(raw))
  {
    var l, r := Trim(raw)[..i], Trim(raw)[i + 2..];
    var p := SidesSpell(raw, i);
    TrimIsTrimmed(l);
    TrimIsTrimmed(r);
    if USER <= Trim(l) {
      var p' := UserSpells(raw, Trim(l), Trim(r), p);
      TrimIsTrimmed(Trim(l)[5..]);
    }
  }

  lemma {:induction false} ReadWasSpelt(raw: string)
    requires !ReadEntry(raw).Malformed?
    ensures Spells(raw, ReadEntry(raw))
  {
    if Trim(raw) == [] {
      var a, e := TrimCut(raw);
    } else if Find(Trim(raw), ARROW).None? {
      BareWasSpelt(raw);
    } else {
      SidesWereSpelt(raw, Find(Trim(raw), ARROW).value);
    }
  }

  /** An entry is read from a text exactly when the text spells it: the parts in order, none of them
      blank, with any white space around them and around the first arrow. */
  lemma {:induction false} ReadIffSpelt(raw: string, e: Entry)
    requires !e.Malformed?
    ensures ReadEntry(raw) == e <==> Spells(raw, e)
  {
    if ReadEntry(raw) == e {
      ReadWasSpelt(raw);
    }
    if Spells(raw, e) {
      SpeltIsRead(raw, e);
    }
  }

  /** A text is malformed exactly when it spells nothing. */
  lemma {:induction false} MalformedIffNothingSpelt(raw: string)
    ensures ReadEntry(raw).Malformed? <==> forall e :: !Spells(raw, e)
  {
    if !ReadEntry(raw).Malformed? {
      ReadWasSpelt(raw);
    }
    forall e ensures ReadEntry(raw).Malformed? ==> !Spells(raw, e) {
      if Spells(raw, e) {
        SpeltIsRead(raw, e);
      }
    }
  }

  // ---------- Specs ----------

  /** Some comma-separated piece of the spec spells `e`. */
  ghost predicate Written(spec: string, e: Entry) {
    exists i | 0 <= i < |Split(spec, ",")| :: Spells(Split(spec, ",")[i], e)
  }

  lemma {:induction false} WrittenIsEntry(spec: string, e: Entry)
    requires !e.Malformed?
    ensures e in Entries(spec) <==> Written(spec, e)
  {
    var raws := Split(spec, ",");
    forall i | 0 <= i < |raws| ensures ReadEntry(raws[i]) == e <==> Spells(raws[i], e) {
      ReadIffSpelt(raws[i], e);
    }
    if e in Entries(spec) {
      var i :| 0 <= i < |Entries(spec)| && Entries(spec)[i] == e;
      assert Spells(raws[i], e);
    }
    if Written(spec, e) {
      var i :| 0 <= i < |raws| && Spells(raws[i], e);
      assert Entries(spec)[i] == e;
    }
  }

  /** Texts without commas, joined by commas, are the pieces of the spec. */
  lemma {:induction false} PiecesOfSpec(raws: seq<string>, e: Entry)
    requires raws != [] && forall i | 0 <= i < |raws| :: ',' !in raws[i]
    ensures Written(JoinWith(raws, ","), e) <==> exists i | 0 <= i < |raws| :: Spells(raws[i], e)
  {
    SplitJoined(raws, ",", 0);
  }

  /** An agent may call another exactly when the spec spells an edge for the pair, up to wildcards. */
  lemma {:induction false} AllowedIffWritten(spec: string, caller: string, target: string)
    ensures AllowsA2a(Meaning(spec), caller, target) <==>
            || Written(spec, Edge(caller, target)) || Written(spec, Edge(caller, WILDCARD))
            || Written(spec, Edge(WILDCARD, target)) || Written(spec, Edge(WILDCARD, WILDCARD))
  {
    AllowedIffSaid(spec, caller, target);
    WrittenIsEntry(spec, Edge(caller, target));
    WrittenIsEntry(spec, Edge(caller, WILDCARD));
    WrittenIsEntry(spec, Edge(WILDCARD, target));
    WrittenIsEntry(spec, Edge(WILDCARD, WILDCARD));
  }

  /** WeChat visibility is restricted exactly when the spec spells some WeChat entry, and then a user
      sees exactly the registered backends it spells for everyone or for that user. */
  lemma {:induction false} SeenIffWritten(spec: string, user: string, registered: seq<string>)
    ensures var visible := WechatVisible(Meaning(spec), user, registered);
            && (visible.Some? <==> exists e: Entry :: (e.UserEdge? || e.Everyone?) && Written(spec, e))
            && (visible.Some? ==> forall name :: name in visible.value <==>
                  && name in registered
                  && (Written(spec, Everyone(name)) || Written(spec, UserEdge(user, name))))
  {
    UnrestrictedIffNoWechatEntry(spec, user, registered);
    forall e: Entry | !e.Malformed? ensures e in Entries(spec) <==> Written(spec, e) {
      WrittenIsEntry(spec, e);
    }
    var visible := WechatVisible(Meaning(spec), user, registered);
    if visible.Some? {
      forall name ensures name in visible.value <==>
          name in registered && (Written(spec, Everyone(name)) || Written(spec, UserEdge(user, name)))
      {
        SeenIffSaid(spec, user, registered, name);
      }
    }
  }

  lemma {:induction false} OnePiece(raw: string)
    requires ',' !in raw
    ensures Entries(raw) == [ReadEntry(raw)]
  {
    NoSepBefore(raw, ",", 0, []);
  }

  lemma {:induction false} PrefixAloneIsMalformed(uid: string)
    requires Word(USER + uid) && '-' !in uid
    ensures ReadEntry(USER + uid) == Malformed
  {
    var raw := USER + uid;
    TrimIsTrimmed(raw);
    NoDashNoArrow(raw);
    BareIsRead(raw, raw);
  }

  lemma {:induction false} LostArrow(uid: string, user: string, registered: seq<string>)
    requires Word(USER + uid) && '-' !in uid && ',' !in uid
    ensures WechatVisible(Meaning(USER + uid), user, registered).None?
  {
    PrefixAloneIsMalformed(uid);
    OnePiece(USER + uid);
    UnrestrictedIffNoWechatEntry(USER + uid, user, registered);
  }

  /** A WeChat entry that lost its arrow spells nothing, so everyone goes on seeing everything. */
  lemma {:induction false} LostArrowHidesNothing(user: string, registered: seq<string>)
    ensures WechatVisible(Meaning("user:alice"), user, registered).None?
  {
    LostArrow("alice", user, registered);
    assert "user:alice" == USER + "alice";
  }

  /** A WeChat entry that lost its prefix spells an edge: well formed, and a grant nobody meant. */
  lemma {:induction false} LostPrefixGrants(u: string, b: string)
    requires Word(u) && Word(b) && NoArrow(u) && !(USER <= u) && u != WILDCARD && b != WILDCARD
    requires ',' !in u && ',' !in b
    ensures AllowsA2a(Meaning(u + ARROW + b), u, b)
    ensures !AllowsA2a(Meaning(USER + u + ARROW + b), u, b)
  {
    PlainEdge(u, b);
    OnePiece(u + ARROW + b);
    AllowedIffSaid(u + ARROW + b, u, b);
    PlainUser(u, b);
    OnePiece(USER + u + ARROW + b);
    AllowedIffSaid(USER + u + ARROW + b, u, b);
  }

  const NO_PADS := Pads([], [], [], [], [])

  lemma {:induction false} PlainEdge(u: string, b: string)
    requires Word(u) && Word(b) && NoArrow(u) && !(USER <= u)
    ensures ReadEntry(u + ARROW + b) == Edge(u, b)
  {
    assert EdgeText(u + ARROW + b, u, b, NO_PADS);
    SpeltIsRead(u + ARROW + b, Edge(u, b));
  }

  lemma {:induction false} PlainUser(u: string, b: string)
    requires Word(u) && Word(b) && NoArrow(u) && u != WILDCARD && b != WILDCARD
    ensures ReadEntry(USER + u + ARROW + b) == UserEdge(u, b)
  {
    assert UserText(USER + u + ARROW + b, u, b, NO_PADS);
    UserIsRead(USER + u + ARROW + b, u, b, NO_PADS);
  }
}
