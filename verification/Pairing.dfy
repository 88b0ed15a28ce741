/** Client pairing: a timed state machine Wait -> Scanned -> Confirmed kept in two maps.

    Every operation first purges stale rows and then does its work; `Clock` carries one reading
    for each half, so a row may pass the purge and still be found expired a moment later.
    `Story` is the reference: what one pairing code went through, with no maps, no eviction and
    no other codes. The registry is proved to answer as the story of the code at hand says. */
module Pairing {
  import opened Base

  const PAIRING_TTL: nat := 600 * NANOS_PER_SEC
  const SCANNED_TTL: nat := 60 * NANOS_PER_SEC
  const CONFIRMED_TTL: nat := 86_400 * NANOS_PER_SEC
  const VTOKEN_CLAIM_WINDOW: nat := 120 * NANOS_PER_SEC
  const MAX_PAIRING_SESSIONS: nat := 1024

  datatype Status = Wait | Scanned | Confirmed | Expired

  datatype PairingError =
    NotFound | SessionExpired | AlreadyConfirmed | NotScanned | CsrfMismatch | TooManySessions

  datatype Outcome = Ok | Err(error: PairingError)

  type Token = seq<bv8>

  datatype Clock = Clock(purgeAt: int, now: int)

  datatype Session = Session(
    code: string,
    createdAt: int,
    scannedAt: Option<int>,
    status: Status,
    vtoken: Option<string>,
    clientName: Option<string>,
    clientLabel: Option<string>,
    csrf: Option<Token>)
  {
    predicate IsExpired(now: int) {
      match status
      case Confirmed => false
      case Scanned =>
        if scannedAt.Some? then Elapsed(now, scannedAt.value) > SCANNED_TTL
        else Elapsed(now, createdAt) > PAIRING_TTL
      case _ => Elapsed(now, createdAt) > PAIRING_TTL
    }

    predicate ShouldEvict(now: int) {
      if status.Confirmed? then Elapsed(now, createdAt) > CONFIRMED_TTL else IsExpired(now)
    }
  }

  function NewSession(code: string, now: int): Session {
    Session(code, now, None, Wait, None, None, None, None)
  }

  // ---------- The operations, on values ----------

  datatype Registry = Registry(sessions: map<string, Session>, confirmed: map<string, (Session, int)>) {

    function Purged(at: int): Registry {
      Registry(
        map c | c in sessions && !sessions[c].ShouldEvict(at) :: sessions[c],
        map c | c in confirmed && Elapsed(at, confirmed[c].1) < CONFIRMED_TTL :: confirmed[c])
    }

    function Size(): nat {
      |sessions| + |confirmed|
    }

    function Create(clock: Clock, code: string): (Registry, Outcome) {
      var p := Purged(clock.purgeAt);
      if p.Size() >= MAX_PAIRING_SESSIONS then (p, Err(TooManySessions))
      else (p.(sessions := p.sessions[code := NewSession(code, clock.now)]), Ok)
    }

    function MarkScanned(clock: Clock, code: string, mint: Token): (Registry, bool) {
      Purged(clock.purgeAt).ScanNow(clock.now, code, mint)
    }

    function ScanNow(now: int, code: string, mint: Token): (Registry, bool) {
      if code !in sessions then (this, false)
      else
        var s := sessions[code];
        if s.IsExpired(now) then (this.(sessions := sessions[code := s.(status := Expired)]), false)
        else
          var s1 := if s.status.Wait? then s.(status := Scanned, scannedAt := Some(now)) else s;
          var s2 := if s1.csrf.None? then s1.(csrf := Some(mint)) else s1;
          (this.(sessions := sessions[code := s2]), true)
    }

    function PreCheckConfirm(clock: Clock, code: string, header: Token): (Registry, Outcome) {
      var p := Purged(clock.purgeAt);
      if code in p.confirmed then (p, Err(AlreadyConfirmed))
      else if code !in p.sessions then (p, Err(NotFound))
      else (p, ConfirmVerdict(p.sessions[code], clock.now, header))
    }

    function Confirm(clock: Clock, code: string, name: string, lbl: Option<string>, vtoken: string,
                     header: Token): (Registry, Outcome)
    {
      Purged(clock.purgeAt).ConfirmNow(clock.now, code, name, lbl, vtoken, header)
    }

    function ConfirmNow(now: int, code: string, name: string, lbl: Option<string>, vtoken: string,
                        header: Token): (Registry, Outcome)
    {
      if code in confirmed then (this, Err(AlreadyConfirmed))
      else if code !in sessions then (this, Err(NotFound))
      else
        var s := sessions[code];
        var verdict := ConfirmVerdict(s, now, header);
        // The pending row is gone whatever the verdict.
        var q := this.(sessions := sessions - {code});
        if verdict.Err? then (q, verdict)
        else
          var done := s.(csrf := None, status := Confirmed, vtoken := Some(vtoken),
                         clientName := Some(name), clientLabel := lbl);
          (q.(confirmed := q.confirmed[code := (done, now)]), Ok)
    }

    function Claim(clock: Clock, code: string): (Registry, Option<(Session, Option<string>)>) {
      Purged(clock.purgeAt).ClaimNow(clock.now, code)
    }

    function ClaimNow(now: int, code: string): (Registry, Option<(Session, Option<string>)>) {
      if code in confirmed then
        var (s, at) := confirmed[code];
        if s.vtoken.None? then (this, Some((s, None)))
        else if Elapsed(now, at) < VTOKEN_CLAIM_WINDOW then (this, Some((s, s.vtoken)))
        else
          var cleared := s.(vtoken := None);
          (this.(confirmed := confirmed[code := (cleared, at)]), Some((cleared, None)))
      else if code in sessions then (this, Some((sessions[code], None)))
      else (this, None)
    }

    function RemoveConfirmed(code: string): Registry {
      this.(confirmed := confirmed - {code})
    }

    /** The two maps never share a code, hold at most 1024 rows together, and every row is in a
        shape its status allows. */
    ghost predicate Valid() {
      && sessions.Keys !! confirmed.Keys
      && Size() <= MAX_PAIRING_SESSIONS
      && (forall c | c in sessions :: PendingOk(sessions[c]))
      && (forall c | c in confirmed :: confirmed[c].0.status.Confirmed? && confirmed[c].0.csrf.None?)
    }
  }

  ghost predicate PendingOk(s: Session) {
    && !s.status.Confirmed? && s.vtoken.None?
    && (s.status.Wait? ==> s.scannedAt.None? && s.csrf.None?)
    && (s.status.Scanned? ==> s.scannedAt.Some? && s.csrf.Some?)
  }

  /** The order of the checks is part of the contract: expiry, then confirmation, token, scan. */
  function ConfirmVerdict(s: Session, now: int, header: Token): Outcome {
    if s.IsExpired(now) then Err(SessionExpired)
    else if s.status.Confirmed? then Err(AlreadyConfirmed)
    else if s.csrf != Some(header) then Err(CsrfMismatch)
    else if !s.status.Scanned? then Err(NotScanned)
    else Ok
  }

  // ---------- The registry object ----------

  /** Byte comparison without an early exit, by accumulating differences. */
  method ConstantTimeEq(a: Token, b: Token) returns (eq: bool)
    ensures eq <==> a == b
  {
    if |a| != |b| {
      return false;
    }
    var diff: bv8 := 0;
    for i := 0 to |a|
      invariant diff == 0 <==> a[..i] == b[..i]
    {
      DiffBit(diff, a[i], b[i]);
      assert a[..i + 1] == a[..i] + [a[i]] && b[..i + 1] == b[..i] + [b[i]];
      diff := diff | (a[i] ^ b[i]);
    }
    assert a[..|a|] == a && b[..|b|] == b;
    return diff == 0;
  }

  lemma {:induction false} DiffBit(diff: bv8, x: bv8, y: bv8)
    ensures (diff | (x ^ y)) == 0 <==> diff == 0 && x == y
  {}

  class PairingRegistry {
    var sessions: map<string, Session>
    var confirmedSessions: map<string, (Session, int)>

    function View(): Registry
      reads this
    {
      Registry(sessions, confirmedSessions)
    }

    constructor ()
      ensures View() == Registry(map[], map[])
    {
      sessions, confirmedSessions := map[], map[];
    }

    method PurgeExpired(at: int)
      modifies this
      ensures View() == old(View()).Purged(at)
    {
      sessions := map c | c in sessions && !sessions[c].ShouldEvict(at) :: sessions[c];
      confirmedSessions :=
        map c | c in confirmedSessions && Elapsed(at, confirmedSessions[c].1) < CONFIRMED_TTL :: confirmedSessions[c];
    }

    method Create(clock: Clock, code: string) returns (r: Outcome)
      modifies this
      ensures (View(), r) == old(View()).Create(clock, code)
    {
      PurgeExpired(clock.purgeAt);
      if |sessions| + |confirmedSessions| >= MAX_PAIRING_SESSIONS {
        return Err(TooManySessions);
      }
      sessions := sessions[code := NewSession(code, clock.now)];
      return Ok;
    }

    method MarkScanned(clock: Clock, code: string, mint: Token) returns (ok: bool)
      modifies this
      ensures (View(), ok) == old(View()).MarkScanned(clock, code, mint)
    {
      PurgeExpired(clock.purgeAt);
      if code in sessions {
        if sessions[code].IsExpired(clock.now) {
          sessions := sessions[code := sessions[code].(status := Expired)];
          return false;
        }
        var session := sessions[code];
        if session.status == Wait {
          session := session.(status := Scanned, scannedAt := Some(clock.now));
        }
        if session.csrf.None? {
          session := session.(csrf := Some(mint));
        }
        sessions := sessions[code := session];
        return true;
      }
      return false;
    }

    method PreCheckConfirm(clock: Clock, code: string, header: Token) returns (r: Outcome)
      modifies this
      ensures (View(), r) == old(View()).PreCheckConfirm(clock, code, header)
    {
      PurgeExpired(clock.purgeAt);
      if code in confirmedSessions {
        return Err(AlreadyConfirmed);
      }
      if code !in sessions {
        return Err(NotFound);
      }
      var session := sessions[code];
      r := Check(session, clock.now, header);
    }

    method Check(session: Session, now: int, header: Token) returns (r: Outcome)
      ensures r == ConfirmVerdict(session, now, header)
    {
      if session.IsExpired(now) {
        return Err(SessionExpired);
      }
      if session.status == Confirmed {
        return Err(AlreadyConfirmed);
      }
      var same := false;
      if session.csrf.Some? {
        same := ConstantTimeEq(session.csrf.value, header);
      }
      if !same {
        return Err(CsrfMismatch);
      }
      return if session.status == Scanned then Ok else Err(NotScanned);
    }

    method Confirm(clock: Clock, code: string, name: string, lbl: Option<string>, vtoken: string,
                   header: Token)
      returns (r: Outcome)
      modifies this
      ensures (View(), r) == old(View()).Confirm(clock, code, name, lbl, vtoken, header)
    {
      PurgeExpired(clock.purgeAt);
      if code in confirmedSessions {
        return Err(AlreadyConfirmed);
      }
      if code !in sessions {
        return Err(NotFound);
      }
      var session := sessions[code];
      sessions := sessions - {code};
      r := Check(session, clock.now, header);
      if r.Ok? {
        session := session.(csrf := None);
        session := session.(status := Confirmed, vtoken := Some(vtoken));
        session := session.(clientName := Some(name), clientLabel := lbl);
        confirmedSessions := confirmedSessions[code := (session, clock.now)];
      }
    }

    method ClaimConfirmedVtoken(clock: Clock, code: string) returns (r: Option<(Session, Option<string>)>)
      modifies this
      ensures (View(), r) == old(View()).Claim(clock, code)
    {
      PurgeExpired(clock.purgeAt);
      if code in confirmedSessions {
        var (session, confirmedAt) := confirmedSessions[code];
        if session.vtoken.None? {
          return Some((session, None));
        }
        if Elapsed(clock.now, confirmedAt) < VTOKEN_CLAIM_WINDOW {
          return Some((session, session.vtoken));
        }
        session := session.(vtoken := None);
        confirmedSessions := confirmedSessions[code := (session, confirmedAt)];
        return Some((session, None));
      }
      return if code in sessions then Some((sessions[code], None)) else None;
    }

    method RemoveConfirmed(code: string)
      modifies this
      ensures View() == old(View()).RemoveConfirmed(code)
    {
      confirmedSessions := confirmedSessions - {code};
    }
  }

  // ---------- Runs ----------

  datatype Call =
    | Create(code: string)
    | MarkScanned(code: string, mint: Token)
    | PreCheckConfirm(code: string, header: Token)
    | Confirm(code: string, name: string, lbl: Option<string>, vtoken: string, header: Token)
    | Claim(code: string)
    | RemoveConfirmed(code: string)

  datatype Reply =
    | Done(outcome: Outcome)
    | Scan(ok: bool)
    | Claimed(answer: Option<(Session, Option<string>)>)
    | NoReply

  /** One transition: a call, the clock readings it saw, and what it did. */
  datatype Event = Event(clock: Clock, call: Call, pre: Registry, post: Registry, reply: Reply)

  function Apply(r: Registry, clock: Clock, call: Call): (Registry, Reply) {
    match call
    case Create(c) => var (r', o) := r.Create(clock, c); (r', Done(o))
    case MarkScanned(c, mint) => var (r', ok) := r.MarkScanned(clock, c, mint); (r', Scan(ok))
    case PreCheckConfirm(c, h) => var (r', o) := r.PreCheckConfirm(clock, c, h); (r', Done(o))
    case Confirm(c, n, l, v, h) => var (r', o) := r.Confirm(clock, c, n, l, v, h); (r', Done(o))
    case Claim(c) => var (r', a) := r.Claim(clock, c); (r', Claimed(a))
    case RemoveConfirmed(c) => (r.RemoveConfirmed(c), NoReply)
  }

  ghost predicate Legal(e: Event) {
    e.clock.purgeAt <= e.clock.now && Apply(e.pre, e.clock, e.call) == (e.post, e.reply)
  }

  /** Transition `i` is legal and starts where the one before it ended. */
  ghost predicate Linked(run: seq<Event>, i: nat)
    requires i < |run|
  {
    Legal(run[i]) && run[i].pre == if i == 0 then Registry(map[], map[]) else run[i - 1].post
  }

  /** A run from the empty registry: time does not run backwards, and `create` hands out a code at
      most once. */
  ghost predicate IsRun(run: seq<Event>) {
    && (forall i | 0 <= i < |run| :: Linked(run, i))
    && (forall i, j | 0 <= i < j < |run| :: run[i].clock.now <= run[j].clock.purgeAt)
    && (forall i, j | 0 <= i < j < |run| && run[i].call.Create? && run[j].call.Create? ::
          run[i].call.code != run[j].call.code)
  }

  predicate CreateOk(e: Event, c: string) {
    e.call == Create(c) && e.reply == Done(Ok)
  }

  predicate ScanOk(e: Event, c: string) {
    e.call.MarkScanned? && e.call.code == c && e.reply == Scan(true)
  }

  predicate IsConfirm(e: Event, c: string) {
    e.call.Confirm? && e.call.code == c
  }

  predicate ConfirmOk(e: Event, c: string) {
    IsConfirm(e, c) && e.reply == Done(Ok)
  }

  /** The event is a claim for `c` that was answered with bearer token `v`. */
  predicate ClaimGot(e: Event, c: string, v: string) {
    e.call == Claim(c) && e.reply.Claimed? && e.reply.answer.Some? && e.reply.answer.value.1 == Some(v)
  }

  // ---------- The story of one code ----------

  datatype Story =
    | Unborn
    | Waiting(created: int)
    | ScannedOnce(created: int, scanned: int, mint: Token)
    | Paired(created: int, scanned: int, mint: Token, at: int, vtoken: string, name: string, lbl: Option<string>)
    | Spent

  function NextStory(st: Story, c: string, e: Event): Story {
    var now := e.clock.now;
    match e.call
    case Create(_) => if CreateOk(e, c) then Waiting(now) else st
    case MarkScanned(d, mint) =>
      if d == c && st.Waiting? && Elapsed(now, st.created) <= PAIRING_TTL
      then ScannedOnce(st.created, now, mint) else st
    case Confirm(d, name, lbl, v, h) =>
      if d != c || st.Unborn? || st.Paired? then st
      else if CanConfirm(st, now, h) then Paired(st.created, st.scanned, st.mint, now, v, name, lbl)
      else Spent
    case RemoveConfirmed(d) => if d == c && st.Paired? then Spent else st
    case _ => st
  }

  /** A confirm succeeds on a scanned code, with the minted token, within a minute of the scan. */
  predicate CanConfirm(st: Story, now: int, header: Token) {
    st.ScannedOnce? && header == st.mint && Elapsed(now, st.scanned) <= SCANNED_TTL
  }

  predicate CanClaim(st: Story, now: int, vtoken: string) {
    st.Paired? && vtoken == st.vtoken && Elapsed(now, st.at) < VTOKEN_CLAIM_WINDOW
  }

  /** The story of `c` after the first `n` events. */
  function StoryOf(run: seq<Event>, n: nat, c: string): Story
    requires n <= |run|
  {
    if n == 0 then Unborn else NextStory(StoryOf(run, n - 1, c), c, run[n - 1])
  }

  /** How the registry may represent a story at time `t`: rows disappear, are marked expired or lose
      their token only once they can no longer matter. */
  ghost predicate Represents(r: Registry, c: string, st: Story, t: int) {
    match st
    case Unborn => c !in r.sessions && c !in r.confirmed
    case Spent => c !in r.sessions && c !in r.confirmed
    case Waiting(cr) =>
      && c !in r.confirmed && cr <= t
      && if c in r.sessions then
           var s := r.sessions[c];
           && s.code == c && s.createdAt == cr && s.scannedAt.None? && s.csrf.None? && s.vtoken.None?
           && (s.status.Wait? || (s.status.Expired? && t - cr > PAIRING_TTL))
         else t - cr > PAIRING_TTL
    case ScannedOnce(cr, sc, mint) =>
      && c !in r.confirmed && cr <= sc <= t && sc - cr <= PAIRING_TTL
      && if c in r.sessions then
           var s := r.sessions[c];
           && s.code == c && s.createdAt == cr && s.scannedAt == Some(sc) && s.csrf == Some(mint) && s.vtoken.None?
           && (s.status.Scanned? || (s.status.Expired? && t - sc > SCANNED_TTL))
         else t - sc > SCANNED_TTL
    case Paired(cr, sc, mint, at, v, name, lbl) =>
      && c !in r.sessions && cr <= sc <= at <= t && sc - cr <= PAIRING_TTL && at - sc <= SCANNED_TTL
      && if c in r.confirmed then
           var (s, when) := r.confirmed[c];
           && when == at && s.code == c && s.status.Confirmed? && s.csrf.None?
           && s.clientName == Some(name) && s.clientLabel == lbl
           && (s.vtoken == Some(v) || (s.vtoken.None? && t - at >= VTOKEN_CLAIM_WINDOW))
         else t - at >= CONFIRMED_TTL
  }

  lemma {:induction false} RepresentsLater(r: Registry, c: string, st: Story, t: int, t': int)
    requires Represents(r, c, st, t) && t <= t'
    ensures Represents(r, c, st, t')
  {}

  lemma {:induction false} PurgeRepresents(r: Registry, c: string, st: Story, t: int, at: int)
    requires Represents(r, c, st, t) && t <= at
    ensures Represents(r.Purged(at), c, st, at)
  {}

  /** What the answer to `e` must be, given the story of `c` so far. */
  ghost predicate AnswersAs(st: Story, c: string, e: Event) {
    && (IsConfirm(e, c) ==> (ConfirmOk(e, c) <==> CanConfirm(st, e.clock.now, e.call.header)))
    && (e.call == Claim(c) ==> forall v :: ClaimGot(e, c, v) <==> CanClaim(st, e.clock.now, v))
    && (e.call.MarkScanned? && e.call.code == c && !st.ScannedOnce? ==>
          (ScanOk(e, c) <==> NextStory(st, c, e).ScannedOnce?))
  }

  /** Rows of other codes do not matter. */
  lemma {:induction false} RepresentsRow(r: Registry, r': Registry, c: string, st: Story, t: int)
    requires Represents(r, c, st, t)
    requires c in r'.sessions <==> c in r.sessions
    requires c in r'.confirmed <==> c in r.confirmed
    requires c in r.sessions ==> r'.sessions[c] == r.sessions[c]
    requires c in r.confirmed ==> r'.confirmed[c] == r.confirmed[c]
    ensures Represents(r', c, st, t)
  {}

  lemma {:induction false} ScanStep(c: string, st: Story, t: int, e: Event)
    requires e.call.MarkScanned?
    requires Legal(e) && Represents(e.pre, c, st, t) && t <= e.clock.purgeAt
    ensures Represents(e.post, c, NextStory(st, c, e), e.clock.now) && AnswersAs(st, c, e)
  {
    var p := e.pre.Purged(e.clock.purgeAt);
    PurgeRepresents(e.pre, c, st, t, e.clock.purgeAt);
    RepresentsLater(p, c, st, e.clock.purgeAt, e.clock.now);
    assert (e.post, e.reply.ok) == p.ScanNow(e.clock.now, e.call.code, e.call.mint);
    if e.call.code == c {
      ScanOwn(p, c, st, e);
    } else {
      RepresentsRow(p, e.post, c, st, e.clock.now);
    }
  }

  lemma {:induction false} ScanOwn(p: Registry, c: string, st: Story, e: Event)
    requires e.call.MarkScanned? && e.call.code == c && e.reply.Scan? && e.clock.purgeAt <= e.clock.now
    requires Represents(p, c, st, e.clock.purgeAt) && (e.post, e.reply.ok) == p.ScanNow(e.clock.now, c, e.call.mint)
    ensures Represents(e.post, c, NextStory(st, c, e), e.clock.now) && AnswersAs(st, c, e)
  {}

  lemma {:induction false} ConfirmStep(c: string, st: Story, t: int, e: Event)
    requires e.call.Confirm?
    requires Legal(e) && Represents(e.pre, c, st, t) && t <= e.clock.purgeAt
    ensures Represents(e.post, c, NextStory(st, c, e), e.clock.now) && AnswersAs(st, c, e)
  {
    var p := e.pre.Purged(e.clock.purgeAt);
    PurgeRepresents(e.pre, c, st, t, e.clock.purgeAt);
    RepresentsLater(p, c, st, e.clock.purgeAt, e.clock.now);
    if e.call.code == c {
      ConfirmOwn(p, c, st, e);
    } else {
      RepresentsRow(p, e.post, c, st, e.clock.now);
    }
  }

  lemma {:induction false} ConfirmOwn(p: Registry, c: string, st: Story, e: Event)
    requires e.call.Confirm? && e.call.code == c && e.reply.Done? && e.clock.purgeAt <= e.clock.now
    requires Represents(p, c, st, e.clock.purgeAt)
    requires (e.post, e.reply.outcome) ==
             p.ConfirmNow(e.clock.now, c, e.call.name, e.call.lbl, e.call.vtoken, e.call.header)
    ensures Represents(e.post, c, NextStory(st, c, e), e.clock.now) && AnswersAs(st, c, e)
  {}

  lemma {:induction false} ClaimStep(c: string, st: Story, t: int, e: Event)
    requires e.call.Claim?
    requires Legal(e) && Represents(e.pre, c, st, t) && t <= e.clock.purgeAt
    ensures Represents(e.post, c, NextStory(st, c, e), e.clock.now) && AnswersAs(st, c, e)
  {
    var p := e.pre.Purged(e.clock.purgeAt);
    PurgeRepresents(e.pre, c, st, t, e.clock.purgeAt);
    RepresentsLater(p, c, st, e.clock.purgeAt, e.clock.now);
    if e.call.code == c {
      ClaimOwn(p, c, st, e);
    } else {
      RepresentsRow(p, e.post, c, st, e.clock.now);
    }
  }

  lemma {:induction false} ClaimOwn(p: Registry, c: string, st: Story, e: Event)
    requires e.call == Claim(c) && e.reply.Claimed? && e.clock.purgeAt <= e.clock.now
    requires Represents(p, c, st, e.clock.purgeAt) && (e.post, e.reply.answer) == p.ClaimNow(e.clock.now, c)
    ensures Represents(e.post, c, NextStory(st, c, e), e.clock.now) && AnswersAs(st, c, e)
  {}

  lemma {:induction false} OtherStep(c: string, st: Story, t: int, e: Event)
    requires || e.call.PreCheckConfirm? || e.call.RemoveConfirmed?
             || (e.call.Create? && (e.call == Create(c) ==> st.Unborn?))
    requires Legal(e) && Represents(e.pre, c, st, t) && t <= e.clock.purgeAt
    ensures Represents(e.post, c, NextStory(st, c, e), e.clock.now) && AnswersAs(st, c, e)
  {
    PurgeRepresents(e.pre, c, st, t, e.clock.purgeAt);
  }

  /** One operation keeps the representation and answers as the story says. */
  lemma {:induction false} StepRepresents(c: string, st: Story, t: int, e: Event)
    requires Legal(e) && Represents(e.pre, c, st, t) && t <= e.clock.purgeAt
    requires e.call == Create(c) ==> st.Unborn?
    ensures Represents(e.post, c, NextStory(st, c, e), e.clock.now) && AnswersAs(st, c, e)
  {
    match e.call {
      case MarkScanned(_, _) => ScanStep(c, st, t, e);
      case Confirm(_, _, _, _, _) => ConfirmStep(c, st, t, e);
      case Claim(_) => ClaimStep(c, st, t, e);
      case _ => OtherStep(c, st, t, e);
    }
  }

  // ---------- Whole runs ----------

  lemma {:induction false} UnbornUntilCreated(run: seq<Event>, n: nat, c: string)
    requires n <= |run|
    requires forall i | 0 <= i < n :: run[i].call != Create(c)
    ensures StoryOf(run, n, c) == Unborn
  {
    if n > 0 {
      UnbornUntilCreated(run, n - 1, c);
    }
  }

  /** In every run the registry represents every code's story, so evicting rows is invisible. */
  lemma {:induction false} RunRepresents(run: seq<Event>, i: nat, c: string)
    requires IsRun(run) && i < |run|
    ensures Represents(run[i].pre, c, StoryOf(run, i, c), run[i].clock.purgeAt)
  {
    assert Linked(run, i);
    if i > 0 {
      var d := run[i - 1];
      RunRepresents(run, i - 1, c);
      assert Linked(run, i - 1);
      if d.call == Create(c) {
        UnbornUntilCreated(run, i - 1, c);
      }
      StepRepresents(c, StoryOf(run, i - 1, c), d.clock.purgeAt, d);
      RepresentsLater(d.post, c, StoryOf(run, i, c), d.clock.now, run[i].clock.purgeAt);
    }
  }

  /** Answers depend only on the code's own story: a confirm or claim succeeds exactly when the story
      allows it, whatever was evicted and whatever other codes did. */
  lemma {:induction false} AnswersFollowStory(run: seq<Event>, i: nat, c: string)
    requires IsRun(run) && i < |run|
    ensures AnswersAs(StoryOf(run, i, c), c, run[i])
  {
    RunRepresents(run, i, c);
    assert Linked(run, i);
    if run[i].call == Create(c) {
      UnbornUntilCreated(run, i, c);
    }
    StepRepresents(c, StoryOf(run, i, c), run[i].clock.purgeAt, run[i]);
  }

  /** A story past its beginning has a `create` behind it. */
  lemma {:induction false} BornByCreate(run: seq<Event>, n: nat, c: string) returns (a: nat)
    requires n <= |run| && !StoryOf(run, n, c).Unborn?
    ensures a < n && CreateOk(run[a], c)
    ensures StoryOf(run, n, c).Waiting? ==> StoryOf(run, n, c).created == run[a].clock.now
  {
    if CreateOk(run[n - 1], c) {
      a := n - 1;
    } else {
      a := BornByCreate(run, n - 1, c);
    }
  }

  lemma {:induction false} FinishedStep(st: Story, c: string, e: Event)
    requires (st.Paired? || st.Spent?) && e.call != Create(c)
    ensures NextStory(st, c, e) == if st.Paired? && e.call != RemoveConfirmed(c) then st else Spent
  {}

  /** Codes are not reused, so a finished story stays finished. */
  lemma {:induction false} FinishedStays(run: seq<Event>, i: nat, n: nat, c: string)
    requires IsRun(run) && i <= n <= |run|
    requires StoryOf(run, i, c).Paired? || StoryOf(run, i, c).Spent?
    ensures StoryOf(run, n, c) ==
            if StoryOf(run, i, c).Paired? && (forall j | i <= j < n :: run[j].call != RemoveConfirmed(c))
            then StoryOf(run, i, c) else Spent
  {
    if i < n {
      FinishedStays(run, i, n - 1, c);
      var a := BornByCreate(run, i, c);
      FinishedStep(StoryOf(run, n - 1, c), c, run[n - 1]);
    }
  }

  /** The scan a story remembers: created first, then the first successful scan, which minted the token. */
  lemma {:induction false} ScanBehindStory(run: seq<Event>, n: nat, c: string) returns (a: nat, b: nat)
    requires IsRun(run) && n <= |run|
    requires StoryOf(run, n, c).ScannedOnce?
    ensures a < b < n && CreateOk(run[a], c) && ScanOk(run[b], c)
    ensures forall j | 0 <= j < b :: !ScanOk(run[j], c)
    ensures StoryOf(run, n, c) == ScannedOnce(run[a].clock.now, run[b].clock.now, run[b].call.mint)
    ensures run[b].clock.now - run[a].clock.now <= PAIRING_TTL
  {
    if StoryOf(run, n - 1, c).ScannedOnce? {
      a, b := ScanBehindStory(run, n - 1, c);
    } else {
      a := BornByCreate(run, n - 1, c);
      b := n - 1;
      AnswersFollowStory(run, b, c);
      NoScanYet(run, n - 1, c);
    }
  }

  lemma {:induction false} NoScanYet(run: seq<Event>, n: nat, c: string)
    requires IsRun(run) && n <= |run|
    requires StoryOf(run, n, c).Unborn? || StoryOf(run, n, c).Waiting?
    ensures forall j | 0 <= j < n :: !ScanOk(run[j], c)
  {
    if n > 0 {
      if run[n - 1].call == Create(c) {
        UnbornUntilCreated(run, n - 1, c);
      }
      NoScanYet(run, n - 1, c);
      AnswersFollowStory(run, n - 1, c);
    }
  }

  /** A successful confirm presents the token minted by the first scan, at most 60 s after that
      scan, which came at most 600 s after creation. Re-scans changed neither. */
  lemma {:induction false} ConfirmIsTimely(run: seq<Event>, k: nat, c: string) returns (a: nat, b: nat)
    requires IsRun(run) && k < |run| && ConfirmOk(run[k], c)
    ensures a < b < k && CreateOk(run[a], c) && ScanOk(run[b], c)
    ensures forall j | 0 <= j < b :: !ScanOk(run[j], c)
    ensures run[k].call.header == run[b].call.mint
    ensures run[k].clock.now - run[b].clock.now <= 60 * NANOS_PER_SEC
    ensures run[b].clock.now - run[a].clock.now <= 600 * NANOS_PER_SEC
  {
    AnswersFollowStory(run, k, c);
    a, b := ScanBehindStory(run, k, c);
  }

  /** Code `c` was created at event `a`, and no confirm of it was tried between there and event `n`. */
  ghost predicate Alive(run: seq<Event>, a: nat, n: nat, c: string)
    requires n <= |run|
  {
    a < n && CreateOk(run[a], c) && forall j | a < j < n :: !IsConfirm(run[j], c)
  }

  lemma {:induction false} BeforeCreate(run: seq<Event>, a: nat, c: string)
    requires IsRun(run) && a < |run| && CreateOk(run[a], c)
    ensures StoryOf(run, a, c) == Unborn && StoryOf(run, a + 1, c) == Waiting(run[a].clock.now)
  {
    UnbornUntilCreated(run, a, c);
  }

  /** Created, not confirmed and not yet scanned: the code waits. */
  lemma {:induction false} WaitsUntilScan(run: seq<Event>, a: nat, n: nat, c: string)
    requires IsRun(run) && n <= |run| && Alive(run, a, n, c)
    requires forall j | 0 <= j < n :: !ScanOk(run[j], c)
    ensures StoryOf(run, n, c) == Waiting(run[a].clock.now)
  {
    BeforeCreate(run, a, c);
    if a + 1 < n {
      assert Alive(run, a, n - 1, c);
      WaitsUntilScan(run, a, n - 1, c);
      AnswersFollowStory(run, n - 1, c);
    }
  }

  /** A first scan succeeds if and only if the code was created, at most 600 s ago, and no confirm of it
      has been tried. */
  lemma {:induction false} FirstScanIff(run: seq<Event>, b: nat, c: string)
    requires IsRun(run) && b < |run| && run[b].call.MarkScanned? && run[b].call.code == c
    requires forall j | 0 <= j < b :: !ScanOk(run[j], c)
    ensures ScanOk(run[b], c) <==>
            exists a: nat :: Alive(run, a, b, c) && run[b].clock.now - run[a].clock.now <= 600 * NANOS_PER_SEC
  {
    AnswersFollowStory(run, b, c);
    if ScanOk(run[b], c) {
      var a, b' := ScanBehindStory(run, b + 1, c) by {
        NotScannedYet(run, b, c);
      }
      assert b' == b;
      WaitingIsAlive(run, a, b, c);
    }
    if a: nat :| Alive(run, a, b, c) && run[b].clock.now - run[a].clock.now <= 600 * NANOS_PER_SEC {
      WaitsUntilScan(run, a, b, c);
      Ordered(run, a, b);
    }
  }

  lemma {:induction false} Ordered(run: seq<Event>, i: nat, j: nat)
    requires IsRun(run) && i < j < |run|
    ensures run[i].clock.now <= run[j].clock.now
  {
    assert Linked(run, j);
  }

  lemma {:induction false} NotScannedYet(run: seq<Event>, n: nat, c: string)
    requires IsRun(run) && n <= |run|
    requires forall j | 0 <= j < n :: !ScanOk(run[j], c)
    ensures !StoryOf(run, n, c).ScannedOnce?
  {
    if StoryOf(run, n, c).ScannedOnce? {
      var a, b := ScanBehindStory(run, n, c);
    }
  }

  lemma {:induction false} WaitingIsAlive(run: seq<Event>, a: nat, n: nat, c: string)
    requires IsRun(run) && a < n <= |run| && CreateOk(run[a], c)
    requires StoryOf(run, n, c).Waiting? || StoryOf(run, n, c).ScannedOnce?
    ensures Alive(run, a, n, c)
  {
    forall j | a < j < n ensures !IsConfirm(run[j], c) {
      BeforeCreate(run, a, c);
      BornStays(run, a + 1, j, c);
      if IsConfirm(run[j], c) {
        FinishedStays(run, j + 1, n, c);
      }
    }
  }

  /** The first successful scan of `c`, at event `b`, follows its creation at `a`, and a confirm at `k`
      with that scan's token comes within a minute of it, the first to be tried. */
  ghost predicate Confirmable(run: seq<Event>, a: nat, b: nat, k: nat, c: string)
    requires k < |run| && IsConfirm(run[k], c)
  {
    && a < b < k && Alive(run, a, k, c) && ScanOk(run[b], c) && (forall j | 0 <= j < b :: !ScanOk(run[j], c))
    && run[b].clock.now - run[a].clock.now <= 600 * NANOS_PER_SEC
    && run[k].clock.now - run[b].clock.now <= 60 * NANOS_PER_SEC
    && run[k].call.header == run[b].call.mint
  }

  lemma {:induction false} StaysScanned(run: seq<Event>, a: nat, b: nat, n: nat, c: string)
    requires IsRun(run) && b < n <= |run| && a < b && Alive(run, a, n, c)
    requires ScanOk(run[b], c) && forall j | 0 <= j < b :: !ScanOk(run[j], c)
    ensures StoryOf(run, n, c) == ScannedOnce(run[a].clock.now, run[b].clock.now, run[b].call.mint)
  {
    if n == b + 1 {
      assert Alive(run, a, b, c);
      WaitsUntilScan(run, a, b, c);
      AnswersFollowStory(run, b, c);
    } else {
      assert Alive(run, a, n - 1, c);
      StaysScanned(run, a, b, n - 1, c);
    }
  }

  /** Exactly when a confirm succeeds, from the events alone: the code was created, first scanned at most
      600 s later, and this is the first confirm of it, at most 60 s after that scan and with the token
      that scan minted. */
  lemma {:induction false} ConfirmIff(run: seq<Event>, k: nat, c: string)
    requires IsRun(run) && k < |run| && IsConfirm(run[k], c)
    ensures ConfirmOk(run[k], c) <==> exists a: nat, b: nat :: Confirmable(run, a, b, k, c)
  {
    if ConfirmOk(run[k], c) {
      var a, b := ConfirmIsTimely(run, k, c);
      AnswersFollowStory(run, k, c);
      WaitingIsAlive(run, a, k, c);
      assert Confirmable(run, a, b, k, c);
    }
    if a: nat, b: nat :| Confirmable(run, a, b, k, c) {
      StaysScanned(run, a, b, k, c);
      AnswersFollowStory(run, k, c);
      Ordered(run, b, k);
    }
  }

  /** A code gets one confirm attempt: once a created code has seen one, no later confirm succeeds,
      whether the first succeeded or failed (a wrong token included). */
  lemma {:induction false} OneConfirmAttempt(run: seq<Event>, a: nat, i: nat, j: nat, c: string)
    requires IsRun(run) && a < i < j < |run|
    requires CreateOk(run[a], c) && IsConfirm(run[i], c)
    ensures !ConfirmOk(run[j], c)
  {
    BornStays(run, a + 1, i, c);
    FinishedStays(run, i + 1, j, c);
    AnswersFollowStory(run, j, c);
  }

  lemma {:induction false} BornStays(run: seq<Event>, i: nat, n: nat, c: string)
    requires i <= n <= |run| && !StoryOf(run, i, c).Unborn?
    ensures !StoryOf(run, n, c).Unborn?
  {
    if i < n {
      BornStays(run, i, n - 1, c);
    }
  }

  /** At most one successful confirm per code. */
  lemma {:induction false} OneConfirm(run: seq<Event>, i: nat, j: nat, c: string)
    requires IsRun(run) && i < |run| && j < |run|
    requires ConfirmOk(run[i], c) && ConfirmOk(run[j], c)
    ensures i == j
  {
    if i != j {
      var first, second := Min(i, j), Max(i, j);
      var a, b := ConfirmIsTimely(run, first, c);
      OneConfirmAttempt(run, a, first, second, c);
    }
  }

  /** The confirm a paired story remembers. */
  lemma {:induction false} ConfirmBehindStory(run: seq<Event>, n: nat, c: string) returns (k: nat)
    requires IsRun(run) && n <= |run| && StoryOf(run, n, c).Paired?
    ensures k < n && ConfirmOk(run[k], c)
    ensures StoryOf(run, n, c).at == run[k].clock.now && StoryOf(run, n, c).vtoken == run[k].call.vtoken
    ensures StoryOf(run, k + 1, c) == StoryOf(run, n, c)
  {
    if StoryOf(run, n - 1, c).Paired? {
      k := ConfirmBehindStory(run, n - 1, c);
    } else {
      k := n - 1;
      AnswersFollowStory(run, k, c);
    }
  }

  /** The confirm at `k` is still claimable at event `i`. */
  ghost predicate Claimable(run: seq<Event>, k: nat, i: nat, c: string)
    requires k < i < |run|
  {
    && ConfirmOk(run[k], c)
    && run[i].clock.now - run[k].clock.now < 120 * NANOS_PER_SEC
    && forall j | k < j < i :: run[j].call != RemoveConfirmed(c)
  }

  lemma {:induction false} TokenOnlyIfClaimable(run: seq<Event>, i: nat, c: string, v: string) returns (k: nat)
    requires IsRun(run) && i < |run| && ClaimGot(run[i], c, v)
    ensures k < i && Claimable(run, k, i, c) && run[k].call.vtoken == v
  {
    AnswersFollowStory(run, i, c);
    k := ConfirmBehindStory(run, i, c);
    FinishedStays(run, k + 1, i, c);
  }

  lemma {:induction false} TokenIfClaimable(run: seq<Event>, i: nat, c: string, k: nat)
    requires IsRun(run) && k < i < |run| && run[i].call == Claim(c) && Claimable(run, k, i, c)
    ensures ClaimGot(run[i], c, run[k].call.vtoken)
  {
    AnswersFollowStory(run, k, c);
    FinishedStays(run, k + 1, i, c);
    AnswersFollowStory(run, i, c);
    assert CanClaim(StoryOf(run, i, c), run[i].clock.now, run[k].call.vtoken);
  }

  /** A claim is answered with a token exactly while the code's confirm is under 120 s old and has
      not been rolled back, and then with the token that confirm was given. */
  lemma {:induction false} TokenIffClaimable(run: seq<Event>, i: nat, c: string, v: string)
    requires IsRun(run) && i < |run| && run[i].call == Claim(c)
    ensures ClaimGot(run[i], c, v) <==>
            exists k | 0 <= k < i :: Claimable(run, k, i, c) && run[k].call.vtoken == v
  {
    if ClaimGot(run[i], c, v) {
      var k := TokenOnlyIfClaimable(run, i, c, v);
    }
    if k: nat :| k < i && Claimable(run, k, i, c) && run[k].call.vtoken == v {
      TokenIfClaimable(run, i, c, k);
    }
  }

  /** The claim answers for one code have the shape none*, token*, none*: between two answers that
      carry a token every answer carries the same one. */
  lemma {:induction false} ClaimAnswersAreConvex(run: seq<Event>, i: nat, j: nat, k: nat, c: string, v: string,
                                                 w: string)
    requires IsRun(run) && i < j < k < |run|
    requires ClaimGot(run[i], c, v) && run[j].call == Claim(c) && ClaimGot(run[k], c, w)
    ensures v == w && ClaimGot(run[j], c, v)
  {
    var p := TokenOnlyIfClaimable(run, i, c, v);
    var q := TokenOnlyIfClaimable(run, k, c, w);
    OneConfirm(run, p, q, c);
    assert Linked(run, k);
    assert Claimable(run, p, j, c);
    TokenIfClaimable(run, j, c, p);
  }
}
