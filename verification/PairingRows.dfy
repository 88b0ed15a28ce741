/** The rows behind the pairing protocol: the invariant both maps keep in every run, and which answer a
    code is given, errors included. */
module PairingRows {
  import opened Base
  import opened Pairing

  // ---------- The registry invariant ----------

  lemma {:induction false} PurgeKeepsValid(r: Registry, at: int)
    requires r.Valid()
    ensures r.Purged(at).Valid()
  {
    SubsetSize(r.Purged(at).sessions.Keys, r.sessions.Keys);
    SubsetSize(r.Purged(at).confirmed.Keys, r.confirmed.Keys);
  }

  lemma {:induction false} SizeOfInsert<T>(m: map<string, T>, c: string, v: T)
    requires c !in m
    ensures |m[c := v]| == |m| + 1
  {
    assert m[c := v].Keys == m.Keys + {c};
  }

  lemma {:induction false} SizeOfRemove<T>(m: map<string, T>, c: string)
    requires c in m
    ensures |m - {c}| == |m| - 1
  {
    assert (m - {c}).Keys == m.Keys - {c};
  }

  lemma {:induction false} CreateKeepsValid(p: Registry, c: string, now: int)
    requires p.Valid() && p.Size() < MAX_PAIRING_SESSIONS && c !in p.confirmed && c !in p.sessions
    ensures p.(sessions := p.sessions[c := NewSession(c, now)]).Valid()
  {
    SizeOfInsert(p.sessions, c, NewSession(c, now));
  }

  lemma {:induction false} SessionUpdateKeepsValid(p: Registry, c: string, s: Session)
    requires p.Valid() && c in p.sessions && PendingOk(s)
    ensures p.(sessions := p.sessions[c := s]).Valid()
  {
    assert p.sessions[c := s].Keys == p.sessions.Keys;
  }

  lemma {:induction false} MoveKeepsValid(p: Registry, c: string, row: (Session, int))
    requires p.Valid() && c in p.sessions && row.0.status.Confirmed? && row.0.csrf.None?
    ensures Registry(p.sessions - {c}, p.confirmed).Valid()
    ensures Registry(p.sessions - {c}, p.confirmed[c := row]).Valid()
  {
    SizeOfRemove(p.sessions, c);
    SizeOfInsert(p.confirmed, c, row);
  }

  lemma {:induction false} ScanKeepsValid(r: Registry, clock: Clock, c: string, mint: Token)
    requires r.Purged(clock.purgeAt).Valid()
    ensures r.MarkScanned(clock, c, mint).0.Valid()
  {
    var p := r.Purged(clock.purgeAt);
    if c in p.sessions {
      SessionUpdateKeepsValid(p, c, r.MarkScanned(clock, c, mint).0.sessions[c]);
    }
  }

  lemma {:induction false} ConfirmKeepsValid(r: Registry, clock: Clock, c: string, n: string, l: Option<string>,
                                             v: string, h: Token)
    requires r.Purged(clock.purgeAt).Valid()
    ensures r.Confirm(clock, c, n, l, v, h).0.Valid()
  {
    var p := r.Purged(clock.purgeAt);
    if c !in p.confirmed && c in p.sessions {
      var done := p.sessions[c].(csrf := None, status := Confirmed, vtoken := Some(v),
                                 clientName := Some(n), clientLabel := l);
      MoveKeepsValid(p, c, (done, clock.now));
    }
  }

  lemma {:induction false} ClaimKeepsValid(r: Registry, clock: Clock, c: string)
    requires r.Purged(clock.purgeAt).Valid()
    ensures r.Claim(clock, c).0.Valid()
  {
    assert r.Claim(clock, c).0.confirmed.Keys == r.Purged(clock.purgeAt).confirmed.Keys;
  }

  lemma {:induction false} StepKeepsValid(r: Registry, clock: Clock, call: Call)
    requires r.Valid()
    requires call.Create? ==> call.code !in r.confirmed && call.code !in r.sessions
    ensures Apply(r, clock, call).0.Valid()
  {
    var p := r.Purged(clock.purgeAt);
    PurgeKeepsValid(r, clock.purgeAt);
    match call {
      case Create(c) =>
        if p.Size() < MAX_PAIRING_SESSIONS {
          CreateKeepsValid(p, c, clock.now);
        }
      case MarkScanned(c, mint) => ScanKeepsValid(r, clock, c, mint);
      case PreCheckConfirm(_, _) =>
      case Confirm(c, n, l, v, h) => ConfirmKeepsValid(r, clock, c, n, l, v, h);
      case Claim(c) => ClaimKeepsValid(r, clock, c);
      case RemoveConfirmed(c) => SubsetSize((r.confirmed - {c}).Keys, r.confirmed.Keys);
    }
  }

  /** In every run: at most 1024 rows in all, no code both pending and confirmed, no pending row with
      a bearer token, every scanned row with its scan time and token, no confirmed row with one. */
  lemma {:induction false} RunsStayValid(run: seq<Event>, i: nat)
    requires IsRun(run) && i < |run|
    ensures run[i].pre.Valid() && run[i].post.Valid()
  {
    assert Linked(run, i);
    if i > 0 {
      RunsStayValid(run, i - 1);
    }
    var e := run[i];
    if e.call.Create? {
      UnbornUntilCreated(run, i, e.call.code);
      RunRepresents(run, i, e.call.code);
    }
    StepKeepsValid(e.pre, e.clock, e.call);
  }

  // ---------- Which answer ----------

  /** The pre-check gives the verdict that a confirm would, and changes nothing but the purge. */
  lemma {:induction false} PreCheckAgrees(r: Registry, clock: Clock, c: string, name: string, lbl: Option<string>,
                                          vtoken: string, header: Token)
    ensures r.PreCheckConfirm(clock, c, header).0 == r.Purged(clock.purgeAt)
    ensures r.PreCheckConfirm(clock, c, header).1 == r.Confirm(clock, c, name, lbl, vtoken, header).1
  {}

  /** The verdict a code's story calls for. A scanned code that was over a minute old at the purge is
      refused, but its row may linger, marked expired, and then the reason differs. */
  function Verdict(st: Story, clock: Clock, header: Token): Option<Outcome> {
    match st
    case Unborn => Some(Err(NotFound))
    case Spent => Some(Err(NotFound))
    case Waiting(created) =>
      if clock.purgeAt - created > 600 * NANOS_PER_SEC then Some(Err(NotFound))
      else if clock.now - created > 600 * NANOS_PER_SEC then Some(Err(SessionExpired))
      else Some(Err(CsrfMismatch))
    case ScannedOnce(_, scanned, mint) =>
      if clock.purgeAt - scanned > 60 * NANOS_PER_SEC then None
      else if clock.now - scanned > 60 * NANOS_PER_SEC then Some(Err(SessionExpired))
      else if header != mint then Some(Err(CsrfMismatch))
      else Some(Ok)
    case Paired(_, _, _, at, _, _, _) =>
      if clock.purgeAt - at < 86_400 * NANOS_PER_SEC then Some(Err(AlreadyConfirmed)) else Some(Err(NotFound))
  }

  /** The verdict called for; without one, some refusal. */
  predicate Meets(verdict: Option<Outcome>, outcome: Outcome) {
    if verdict.Some? then outcome == verdict.value else outcome.Err?
  }

  /** A confirm and its pre-check are answered as the code's story calls for. */
  lemma {:induction false} VerdictFollowsStory(run: seq<Event>, i: nat, c: string)
    requires IsRun(run) && i < |run| && (run[i].call.Confirm? || run[i].call.PreCheckConfirm?)
    requires run[i].call.code == c
    ensures run[i].reply.Done?
    ensures Meets(Verdict(StoryOf(run, i, c), run[i].clock, run[i].call.header), run[i].reply.outcome)
  {
    var e := run[i];
    RunRepresents(run, i, c);
    assert Linked(run, i);
    VerdictStep(e.pre, c, StoryOf(run, i, c), e.clock, e.call.header);
    if e.call.Confirm? {
      PreCheckAgrees(e.pre, e.clock, c, e.call.name, e.call.lbl, e.call.vtoken, e.call.header);
    }
  }

  lemma {:induction false} VerdictStep(r: Registry, c: string, st: Story, clock: Clock, header: Token)
    requires Represents(r, c, st, clock.purgeAt) && clock.purgeAt <= clock.now
    ensures Meets(Verdict(st, clock, header), r.PreCheckConfirm(clock, c, header).1)
  {
    PurgeRepresents(r, c, st, clock.purgeAt, clock.purgeAt);
  }

  /** What a claim shows of a code: nothing of one that is unknown, used up or timed out; else its session
      as it stands, with the name and label it was confirmed under. */
  ghost predicate ShownAs(st: Story, c: string, purgeAt: int, answer: Option<(Session, Option<string>)>) {
    match st
    case Unborn => answer.None?
    case Spent => answer.None?
    case Waiting(created) =>
      if purgeAt - created > 600 * NANOS_PER_SEC then answer.None?
      else answer.Some? && var s := answer.value.0;
           s.code == c && s.createdAt == created && s.status == Wait && answer.value.1.None?
    case ScannedOnce(created, scanned, _) =>
      purgeAt - scanned <= 60 * NANOS_PER_SEC ==>
        answer.Some? && var s := answer.value.0;
        && s.code == c && s.createdAt == created && s.scannedAt == Some(scanned) && s.status == Scanned
        && answer.value.1.None?
    case Paired(_, _, _, at, _, name, lbl) =>
      if purgeAt - at >= 86_400 * NANOS_PER_SEC then answer.None?
      else answer.Some? && var s := answer.value.0;
           s.code == c && s.status == Confirmed && s.clientName == Some(name) && s.clientLabel == lbl
  }

  lemma {:induction false} ClaimShows(run: seq<Event>, i: nat, c: string)
    requires IsRun(run) && i < |run| && run[i].call == Claim(c)
    ensures run[i].reply.Claimed? && ShownAs(StoryOf(run, i, c), c, run[i].clock.purgeAt, run[i].reply.answer)
  {
    RunRepresents(run, i, c);
    assert Linked(run, i);
    ClaimShownStep(run[i].pre, c, StoryOf(run, i, c), run[i].clock);
  }

  lemma {:induction false} ClaimShownStep(r: Registry, c: string, st: Story, clock: Clock)
    requires Represents(r, c, st, clock.purgeAt)
    ensures ShownAs(st, c, clock.purgeAt, r.Claim(clock, c).1)
  {
    PurgeRepresents(r, c, st, clock.purgeAt, clock.purgeAt);
  }

  /** A code is refused exactly when 1024 rows, pending and confirmed, outlast the purge. */
  lemma {:induction false} CreateIff(run: seq<Event>, i: nat, c: string)
    requires IsRun(run) && i < |run| && run[i].call == Create(c)
    ensures var kept := run[i].pre.Purged(run[i].clock.purgeAt);
            && (CreateOk(run[i], c) <==> |kept.sessions| + |kept.confirmed| < 1024)
            && (!CreateOk(run[i], c) ==> run[i].reply == Done(Err(TooManySessions)))
  {
    assert Linked(run, i);
  }
}
