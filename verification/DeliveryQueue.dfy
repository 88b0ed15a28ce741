/** The per-client delivery queue: bounded, at-least-once, with stable ids and ack cursors.

    `Log` is the abstract view: every message ever accepted, plus the mark up to which
    messages have been retired. `PerClientSlot` is the buffer the Hub keeps, and
    `InMemoryQueue` the table of slots; both are proved to behave like logs. */
module DeliveryQueue {
  import opened Base
  import Text

  /** A queued message: its content, and the delivery id the slot stamps on it. */
  datatype Message = Message(payload: string, seqId: Option<int>)

  datatype PollBatch = PollBatch(msgs: seq<Message>, cursor: nat)

  // ---------- The abstract log ----------

  datatype Log = Log(accepted: seq<Message>, mark: nat, limit: nat) {

    /** Ids are 1, 2, 3, ... in order of acceptance, and at most `limit` messages are pending. */
    ghost predicate Valid() {
      && mark <= |accepted|
      && |accepted| - mark <= limit
      && forall i | 0 <= i < |accepted| :: accepted[i].seqId == Some(i + 1)
    }

    function Pending(): seq<Message>
      requires mark <= |accepted|
    {
      accepted[mark..]
    }

    predicate Full() {
      |accepted| - mark >= limit
    }

    function Push(msg: Message): Log {
      if Full() then this
      else this.(accepted := accepted + [msg.(seqId := Some(|accepted| + 1))])
    }

    /** An ack is clamped to the highest id allocated when it arrives. */
    function Watermark(ack: Option<nat>): Option<nat> {
      match ack
      case None => None
      case Some(a) => Some(Min(a, |accepted|))
    }

    function Poll(ack: Option<nat>): Log {
      match Watermark(ack)
      case None => this
      case Some(w) => this.(mark := Max(mark, w))
    }

    /** What a poll answers: everything above the mark, and the cursor to echo. */
    function Batch(ack: Option<nat>): PollBatch
      requires mark <= |accepted|
    {
      var rest := Poll(ack).Pending();
      var w := Watermark(ack);
      PollBatch(rest, if rest != [] || w.None? then |accepted| else w.value)
    }
  }

  function EmptyLog(limit: nat): (log: Log)
    ensures log.Valid()
  {
    Log([], 0, limit)
  }

  // ---------- The slot ----------

  /** One client's buffer. `log` is the abstract log it implements, `owner` the client it is for. */
  class PerClientSlot {
    var messages: seq<Message>
    var nextSeq: nat
    const maxQueueSize: nat
    ghost const owner: string
    ghost var log: Log

    ghost predicate Valid()
      reads this
    {
      && log.Valid()
      && log.limit == maxQueueSize
      && messages == log.Pending()
      && nextSeq == |log.accepted| + 1
    }

    constructor (maxQueueSize: nat, ghost owner: string)
      ensures Valid() && log == EmptyLog(maxQueueSize) && this.owner == owner
    {
      this.maxQueueSize, this.owner := maxQueueSize, owner;
      messages, nextSeq := [], 1;
      log := EmptyLog(maxQueueSize);
    }

    method Push(msg: Message) returns (rejected: bool)
      requires Valid()
      modifies this
      ensures Valid()
      ensures rejected == old(log).Full()
      ensures log == old(log).Push(msg)
    {
      if |messages| >= maxQueueSize {
        return true;
      }
      messages := messages + [msg.(seqId := Some(nextSeq))];
      nextSeq := nextSeq + 1;
      log := log.Push(msg);
      return false;
    }

    method Poll(ack: Option<nat>) returns (batch: PollBatch)
      requires Valid()
      modifies this
      ensures Valid()
      ensures log == old(log).Poll(ack)
      ensures batch == old(log).Batch(ack)
    {
      var allocatedMax := nextSeq - 1;
      var watermark := if ack.Some? then Some(Min(ack.value, allocatedMax)) else None;
      ghost var k := log.mark;
      if watermark.Some? {
        while messages != [] && messages[0].seqId.Some? && 0 <= messages[0].seqId.value <= watermark.value
          invariant log == old(log) && nextSeq == old(nextSeq)
          invariant log.mark <= k <= Max(log.mark, watermark.value) <= |log.accepted|
          invariant messages == log.accepted[k..]
          decreases |messages|
        {
          messages := messages[1..];
          k := k + 1;
        }
      }
      log := log.Poll(ack);
      var last := if messages == [] then None else messages[|messages| - 1].seqId;
      var cursor := if last.Some? && last.value >= 0 then last.value
      else if watermark.Some? then watermark.value
      else allocatedMax;
      return PollBatch(messages, cursor);
    }
  }

  // ---------- Runs of one slot ----------

  datatype Op = Push(msg: Message) | Poll(ack: Option<nat>)

  function Step(log: Log, op: Op): Log {
    match op
    case Push(msg) => log.Push(msg)
    case Poll(ack) => log.Poll(ack)
  }

  /** The log after a run of pushes and polls, from whichever clients they come. */
  function After(limit: nat, ops: seq<Op>): (log: Log)
    ensures log.Valid() && log.limit == limit
  {
    if ops == [] then EmptyLog(limit) else Step(After(limit, ops[..|ops| - 1]), ops[|ops| - 1])
  }

  /** The batch the `i`-th operation, a poll, is answered with. */
  function BatchAt(limit: nat, ops: seq<Op>, i: nat): PollBatch
    requires i < |ops| && ops[i].Poll?
  {
    After(limit, ops[..i]).Batch(ops[i].ack)
  }

  /** Message `m` was part of the answer to one of the first `n` operations. */
  ghost predicate Delivered(limit: nat, ops: seq<Op>, n: nat, m: Message)
    requires n <= |ops|
  {
    exists j | 0 <= j < n :: ops[j].Poll? && m in BatchAt(limit, ops, j).msgs
  }

  /** After the first `n` operations no accepted message is both retired and undelivered. */
  ghost predicate NothingLost(limit: nat, ops: seq<Op>, n: nat)
    requires n <= |ops|
  {
    var log := After(limit, ops[..n]);
    forall k | 0 <= k < |log.accepted| ::
      log.accepted[k] in log.Pending() || Delivered(limit, ops, n, log.accepted[k])
  }

  /** The highest id any answer to the first `n` operations carried; 0 if none did. */
  function HighWater(limit: nat, ops: seq<Op>, n: nat): nat
    requires n <= |ops|
  {
    if n == 0 then 0
    else if ops[n - 1].Poll? && BatchAt(limit, ops, n - 1).msgs != [] then |After(limit, ops[..n - 1]).accepted|
    else HighWater(limit, ops, n - 1)
  }

  /** The client acknowledges at poll `i` no id above those it has been sent. */
  ghost predicate SafeAck(limit: nat, ops: seq<Op>, i: nat)
    requires i < |ops| && ops[i].Poll?
  {
    var w := After(limit, ops[..i]).Watermark(ops[i].ack);
    w.None? || w.value <= HighWater(limit, ops, i)
  }

  ghost predicate SafeAcks(limit: nat, ops: seq<Op>, n: nat)
    requires n <= |ops|
  {
    forall i | 0 <= i < n && ops[i].Poll? :: SafeAck(limit, ops, i)
  }

  lemma {:induction false} AfterStep(limit: nat, ops: seq<Op>, i: nat)
    requires i < |ops|
    ensures After(limit, ops[..i + 1]) == Step(After(limit, ops[..i]), ops[i])
  {
    assert ops[..i + 1][..i] == ops[..i];
  }

  /** Under safe acks retirement never overtakes delivery, and the delivered ids are exactly
      those up to the high-water mark. */
  lemma {:induction false} RetiredWereDelivered(limit: nat, ops: seq<Op>, n: nat)
    requires n <= |ops| && SafeAcks(limit, ops, n)
    ensures After(limit, ops[..n]).mark <= HighWater(limit, ops, n) <= |After(limit, ops[..n]).accepted|
    ensures forall k | 0 <= k < HighWater(limit, ops, n) ::
              Delivered(limit, ops, n, After(limit, ops[..n]).accepted[k])
  {
    if n > 0 {
      RetiredWereDelivered(limit, ops, n - 1);
      AfterStep(limit, ops, n - 1);
      var before, now := After(limit, ops[..n - 1]), After(limit, ops[..n]);
      assert before.accepted <= now.accepted;
      forall k | 0 <= k < HighWater(limit, ops, n)
        ensures Delivered(limit, ops, n, now.accepted[k])
      {
        if k < HighWater(limit, ops, n - 1) {
          assert Delivered(limit, ops, n - 1, before.accepted[k]);
        } else {
          var batch := BatchAt(limit, ops, n - 1);
          assert batch.msgs == before.Poll(ops[n - 1].ack).Pending();
          assert batch.msgs[k - before.Poll(ops[n - 1].ack).mark] == now.accepted[k];
        }
      }
    }
  }

  lemma {:induction false} SafeAcksLoseNothing(limit: nat, ops: seq<Op>, n: nat)
    requires n <= |ops| && SafeAcks(limit, ops, n)
    ensures NothingLost(limit, ops, n)
  {
    RetiredWereDelivered(limit, ops, n);
    var log := After(limit, ops[..n]);
    forall k | 0 <= k < |log.accepted|
      ensures log.accepted[k] in log.Pending() || Delivered(limit, ops, n, log.accepted[k])
    {
      if log.mark <= k {
        assert log.Pending()[k - log.mark] == log.accepted[k];
      }
    }
  }

  lemma {:induction false} BatchIds(log: Log, ack: Option<nat>, m: Message)
    requires log.Valid() && m in log.Batch(ack).msgs
    ensures m.seqId.Some? && m.seqId.value <= |log.accepted|
  {}

  lemma {:induction false} HighWaterGrows(limit: nat, ops: seq<Op>, n: nat)
    requires n < |ops| && SafeAcks(limit, ops, n)
    ensures HighWater(limit, ops, n) <= HighWater(limit, ops, n + 1)
  {
    RetiredWereDelivered(limit, ops, n);
  }

  /** No answer carries an id above the high-water mark. */
  lemma {:induction false} NothingAboveHighWater(limit: nat, ops: seq<Op>, n: nat, j: nat, m: Message)
    requires j < n <= |ops| && SafeAcks(limit, ops, n)
    requires ops[j].Poll? && m in BatchAt(limit, ops, j).msgs
    ensures m.seqId.Some? && m.seqId.value <= HighWater(limit, ops, n)
  {
    if j == n - 1 {
      BatchIds(After(limit, ops[..j]), ops[j].ack, m);
    } else {
      NothingAboveHighWater(limit, ops, n - 1, j, m);
      HighWaterGrows(limit, ops, n - 1);
    }
  }

  /** The first unsafe ack loses a message: the one it names. */
  lemma {:induction false} UnsafeAckLoses(limit: nat, ops: seq<Op>, i: nat)
    requires i < |ops| && ops[i].Poll?
    requires SafeAcks(limit, ops, i) && !SafeAck(limit, ops, i)
    ensures !NothingLost(limit, ops, i + 1)
  {
    RetiredWereDelivered(limit, ops, i);
    AfterStep(limit, ops, i);
    var before, log := After(limit, ops[..i]), After(limit, ops[..i + 1]);
    var w := before.Watermark(ops[i].ack).value;
    var m := log.accepted[w - 1];
    assert log.mark == w;
    assert m !in log.Pending();
    if Delivered(limit, ops, i + 1, m) {
      var j :| 0 <= j < i + 1 && ops[j].Poll? && m in BatchAt(limit, ops, j).msgs;
      assert BatchAt(limit, ops, i).msgs == log.Pending();
      NothingAboveHighWater(limit, ops, i, j, m);
    }
  }

  /** Delivery is at least once exactly for clients that acknowledge only what they were sent:
      clamping to the highest *allocated* id alone does not prevent loss. */
  lemma {:induction false} NothingLostIffSafeAcks(limit: nat, ops: seq<Op>, n: nat)
    requires n <= |ops|
    ensures (forall p | 0 <= p <= n :: NothingLost(limit, ops, p)) <==> SafeAcks(limit, ops, n)
  {
    if SafeAcks(limit, ops, n) {
      forall p | 0 <= p <= n
        ensures NothingLost(limit, ops, p)
      {
        SafeAcksLoseNothing(limit, ops, p);
      }
    } else {
      NothingLostIffSafeAcks(limit, ops, n - 1);
      if SafeAcks(limit, ops, n - 1) {
        UnsafeAckLoses(limit, ops, n - 1);
      }
    }
  }

  /** If operation `i` is a poll, its ack is absent, the neutral 0, or a cursor returned earlier. */
  ghost predicate Echoes(limit: nat, ops: seq<Op>, i: nat)
    requires i < |ops|
  {
    ops[i].Poll? && ops[i].ack.Some? && ops[i].ack.value != 0 ==>
      exists j | 0 <= j < i :: ops[j].Poll? && BatchAt(limit, ops, j).cursor == ops[i].ack.value
  }

  ghost predicate EchoesOnly(limit: nat, ops: seq<Op>) {
    forall i | 0 <= i < |ops| :: Echoes(limit, ops, i)
  }

  /** Every cursor among the first `n` answers lies within what had been sent. */
  ghost predicate CursorsSent(limit: nat, ops: seq<Op>, n: nat)
    requires n <= |ops|
  {
    forall j | 0 <= j < n && ops[j].Poll? :: BatchAt(limit, ops, j).cursor <= HighWater(limit, ops, n)
  }

  /** A safe poll returns a cursor its client has been sent in full. */
  lemma {:induction false} CursorWasSent(limit: nat, ops: seq<Op>, i: nat)
    requires i < |ops| && ops[i].Poll? && SafeAcks(limit, ops, i + 1)
    ensures BatchAt(limit, ops, i).cursor <= HighWater(limit, ops, i + 1)
  {
    RetiredWereDelivered(limit, ops, i);
    assert SafeAck(limit, ops, i);
  }

  lemma {:induction false} EchoIsSafe(limit: nat, ops: seq<Op>, i: nat)
    requires i < |ops| && ops[i].Poll?
    requires Echoes(limit, ops, i) && CursorsSent(limit, ops, i)
    ensures SafeAck(limit, ops, i)
  {
  }

  /** A client that echoes cursors verbatim never acknowledges more than it was sent. */
  lemma {:induction false} EchoesAreSafe(limit: nat, ops: seq<Op>, n: nat)
    requires n <= |ops| && EchoesOnly(limit, ops)
    ensures SafeAcks(limit, ops, n) && CursorsSent(limit, ops, n)
  {
    if n > 0 {
      EchoesAreSafe(limit, ops, n - 1);
      HighWaterGrows(limit, ops, n - 1);
      assert Echoes(limit, ops, n - 1);
      if ops[n - 1].Poll? {
        EchoIsSafe(limit, ops, n - 1);
        CursorWasSent(limit, ops, n - 1);
      }
    }
  }

  /** At-least-once delivery over every interleaving of pushes and polls. */
  lemma {:induction false} AtLeastOnce(limit: nat, ops: seq<Op>)
    requires EchoesOnly(limit, ops)
    ensures NothingLost(limit, ops, |ops|)
  {
    EchoesAreSafe(limit, ops, |ops|);
    SafeAcksLoseNothing(limit, ops, |ops|);
  }

  /** The largest acknowledgement so far, each clamped when it was received. */
  function LargestAck(limit: nat, ops: seq<Op>): nat {
    if ops == [] then 0 else
      var rest := ops[..|ops| - 1];
      var op := ops[|ops| - 1];
      var w := if op.Poll? then After(limit, rest).Watermark(op.ack) else None;
      Max(LargestAck(limit, rest), if w.Some? then w.value else 0)
  }

  /** The messages of `log` that a run of pushes was allowed to append. */
  function AcceptedPayloads(limit: nat, ops: seq<Op>): seq<string> {
    if ops == [] then [] else
      var rest := ops[..|ops| - 1];
      var op := ops[|ops| - 1];
      if op.Push? && !After(limit, rest).Full() then AcceptedPayloads(limit, rest) + [op.msg.payload]
      else AcceptedPayloads(limit, rest)
  }

  /** For arbitrary acks, forged ones included: the pending messages are exactly the accepted ones
      above the largest clamped ack, in order, with contiguous ids ending at the last one allocated.
      A rejected push leaves no trace. */
  lemma {:induction false} QueueIsLogAboveMark(limit: nat, ops: seq<Op>)
    ensures var log := After(limit, ops); var accepted := AcceptedPayloads(limit, ops);
            && log.mark == LargestAck(limit, ops)
            && |log.accepted| == |accepted|
            && |log.Pending()| == |accepted| - log.mark <= limit
            && forall i | 0 <= i < |log.Pending()| ::
                 log.Pending()[i] == Message(accepted[log.mark + i], Some(log.mark + i + 1))
  {
    if ops != [] {
      QueueIsLogAboveMark(limit, ops[..|ops| - 1]);
    }
    AcceptedAre(limit, ops);
  }

  lemma {:induction false} AcceptedAre(limit: nat, ops: seq<Op>)
    ensures var log := After(limit, ops); var accepted := AcceptedPayloads(limit, ops);
            && |log.accepted| == |accepted|
            && forall i | 0 <= i < |accepted| :: log.accepted[i] == Message(accepted[i], Some(i + 1))
  {
    if ops != [] {
      AcceptedAre(limit, ops[..|ops| - 1]);
    }
  }

  /** A push is refused exactly when as many messages as the limit have been accepted and not yet
      acknowledged. */
  lemma {:induction false} RefusedIffBacklog(limit: nat, ops: seq<Op>)
    ensures After(limit, ops).Full() <==>
            |AcceptedPayloads(limit, ops)| - LargestAck(limit, ops) >= limit
  {
    QueueIsLogAboveMark(limit, ops);
  }

  // ---------- Echoing the latest cursor ----------

  function Payloads(msgs: seq<Message>): seq<string> {
    seq(|msgs|, i requires 0 <= i < |msgs| => msgs[i].payload)
  }

  /** The cursor names the last message of the batch. */
  lemma {:induction false} CursorIsLastId(limit: nat, ops: seq<Op>, j: nat)
    requires j < |ops| && ops[j].Poll? && BatchAt(limit, ops, j).msgs != []
    ensures var batch := BatchAt(limit, ops, j);
            batch.msgs[|batch.msgs| - 1].seqId == Some(batch.cursor)
  {}

  /** Pushes only append, and retire nothing. */
  lemma {:induction false} PushesAppend(limit: nat, ops: seq<Op>, j: nat, k: nat)
    requires j <= k <= |ops| && forall i | j <= i < k :: ops[i].Push?
    ensures After(limit, ops[..k]).mark == After(limit, ops[..j]).mark
    ensures After(limit, ops[..j]).accepted <= After(limit, ops[..k]).accepted
    decreases k
  {
    if j < k {
      PushesAppend(limit, ops, j, k - 1);
      AfterStep(limit, ops, k - 1);
    }
  }

  /** What lies above a mark, as payloads. */
  lemma {:induction false} PayloadsFrom(limit: nat, ops: seq<Op>, mark: nat)
    requires mark <= |After(limit, ops).accepted|
    ensures |AcceptedPayloads(limit, ops)| == |After(limit, ops).accepted|
    ensures Payloads(After(limit, ops).accepted[mark..]) == AcceptedPayloads(limit, ops)[mark..]
  {
    AcceptedAre(limit, ops);
  }

  /** Polling again with a cursor retires all that was accepted when the cursor was given. */
  lemma {:induction false} EchoMark(log: Log, ack: Option<nat>, later: Log)
    requires log.Valid() && later.Valid()
    requires later.mark == log.Poll(ack).mark && log.accepted <= later.accepted
    ensures later.Poll(Some(log.Batch(ack).cursor)).mark == |log.accepted|
  {}

  /** Echoing the cursor of an answer retires exactly that answer: if the next poll returns the cursor
      of poll `j`, it is sent the payloads accepted since poll `j`, all of them and nothing else. */
  lemma {:induction false} EchoRetiresAnswer(limit: nat, ops: seq<Op>, j: nat, k: nat)
    requires j < k < |ops| && ops[j].Poll? && ops[k].Poll?
    requires forall i | j < i < k :: ops[i].Push?
    requires ops[k].ack == Some(BatchAt(limit, ops, j).cursor)
    ensures |AcceptedPayloads(limit, ops[..j])| <= |AcceptedPayloads(limit, ops[..k])|
    ensures Payloads(BatchAt(limit, ops, k).msgs) ==
            AcceptedPayloads(limit, ops[..k])[|AcceptedPayloads(limit, ops[..j])|..]
  {
    var log, later := After(limit, ops[..j]), After(limit, ops[..k]);
    AfterStep(limit, ops, j);
    PushesAppend(limit, ops, j + 1, k);
    EchoMark(log, ops[j].ack, later);
    PayloadsFrom(limit, ops[..j], 0);
    PayloadsFrom(limit, ops[..k], |log.accepted|);
  }

  /** The last poll before operation `n`. */
  function PreviousPoll(ops: seq<Op>, n: nat): Option<nat>
    requires n <= |ops|
  {
    if n == 0 then None else if ops[n - 1].Poll? then Some(n - 1) else PreviousPoll(ops, n - 1)
  }

  lemma {:induction false} PushesSincePoll(ops: seq<Op>, n: nat)
    requires n <= |ops|
    ensures var j := PreviousPoll(ops, n);
            && (j.Some? ==> j.value < n && ops[j.value].Poll? && forall i | j.value < i < n :: ops[i].Push?)
            && (j.None? ==> forall i | 0 <= i < n :: ops[i].Push?)
  {
    if n > 0 {
      PushesSincePoll(ops, n - 1);
    }
  }

  /** If operation `i` is a poll, it returns the cursor of the poll before it, or, being the first, none
      or the neutral 0. */
  ghost predicate EchoesPrevious(limit: nat, ops: seq<Op>, i: nat)
    requires i < |ops|
  {
    ops[i].Poll? ==>
      match PreviousPoll(ops, i)
      case None => ops[i].ack == None || ops[i].ack == Some(0)
      case Some(j) => j < i && ops[j].Poll? && ops[i].ack == Some(BatchAt(limit, ops, j).cursor)
  }

  ghost predicate EchoesLatest(limit: nat, ops: seq<Op>) {
    forall i | 0 <= i < |ops| :: EchoesPrevious(limit, ops, i)
  }

  /** All that the answers to the first `n` operations carried, one after the other. */
  function Sent(limit: nat, ops: seq<Op>, n: nat): seq<string>
    requires n <= |ops|
  {
    if n == 0 then []
    else if ops[n - 1].Poll? then Sent(limit, ops, n - 1) + Payloads(BatchAt(limit, ops, n - 1).msgs)
    else Sent(limit, ops, n - 1)
  }

  lemma {:induction false} FirstPollSendsAll(limit: nat, ops: seq<Op>, k: nat)
    requires k < |ops| && ops[k].Poll? && (ops[k].ack == None || ops[k].ack == Some(0))
    requires forall i | 0 <= i < k :: ops[i].Push?
    ensures Payloads(BatchAt(limit, ops, k).msgs) == AcceptedPayloads(limit, ops[..k])
  {
    PushesAppend(limit, ops, 0, k);
    assert ops[..0] == [];
    PayloadsFrom(limit, ops[..k], 0);
    assert AcceptedPayloads(limit, ops[..k])[0..] == AcceptedPayloads(limit, ops[..k]);
  }

  lemma {:induction false} PushesSendNothing(limit: nat, ops: seq<Op>, j: nat, n: nat)
    requires j <= n <= |ops| && forall i | j <= i < n :: ops[i].Push?
    ensures Sent(limit, ops, n) == Sent(limit, ops, j)
    decreases n
  {
    if j < n {
      PushesSendNothing(limit, ops, j, n - 1);
    }
  }

  /** One poll after another: what was sent before, and what was accepted since. */
  lemma {:induction false} SentAfterEcho(limit: nat, ops: seq<Op>, j: nat, k: nat)
    requires j < k < |ops| && ops[j].Poll? && ops[k].Poll?
    requires forall i | j < i < k :: ops[i].Push?
    requires ops[k].ack == Some(BatchAt(limit, ops, j).cursor)
    requires Sent(limit, ops, j + 1) == AcceptedPayloads(limit, ops[..j])
    ensures Sent(limit, ops, k + 1) == AcceptedPayloads(limit, ops[..k])
  {
    PushesSendNothing(limit, ops, j + 1, k);
    EchoRetiresAnswer(limit, ops, j, k);
    AcceptedGrow(limit, ops, j, k);
    var before, now := AcceptedPayloads(limit, ops[..j]), AcceptedPayloads(limit, ops[..k]);
    assert now == before + now[|before|..];
  }

  /** Exactly once: a client that always echoes its latest cursor has been sent, after each poll, every
      payload accepted so far, once each and in order. */
  lemma {:induction false} ExactlyOnce(limit: nat, ops: seq<Op>, k: nat)
    requires EchoesLatest(limit, ops) && k < |ops| && ops[k].Poll?
    ensures Sent(limit, ops, k + 1) == AcceptedPayloads(limit, ops[..k])
  {
    PushesSincePoll(ops, k);
    assert EchoesPrevious(limit, ops, k);
    match PreviousPoll(ops, k)
    case None =>
      PushesSendNothing(limit, ops, 0, k);
      FirstPollSendsAll(limit, ops, k);
      assert [] + AcceptedPayloads(limit, ops[..k]) == AcceptedPayloads(limit, ops[..k]);
    case Some(j) =>
      ExactlyOnce(limit, ops, j);
      SentAfterEcho(limit, ops, j, k);
  }

  lemma {:induction false} AcceptedGrow(limit: nat, ops: seq<Op>, j: nat, k: nat)
    requires j <= k <= |ops|
    ensures AcceptedPayloads(limit, ops[..j]) <= AcceptedPayloads(limit, ops[..k])
    decreases k
  {
    if j < k {
      AcceptedGrow(limit, ops, j, k - 1);
      assert ops[..k][..k - 1] == ops[..k - 1];
    }
  }

  // ---------- The cursor on the wire ----------

  /** A poll request: the echoed cursor as text, and an optional numeric field. */
  datatype GetUpdatesRequest = GetUpdatesRequest(getUpdatesBuf: string, lastAckId: Option<int>) {

    function AckWatermark(): Option<nat> {
      var fromBuf := Text.ParseU64(Text.Trim(getUpdatesBuf));
      var fromField := if lastAckId.Some? && lastAckId.value >= 0 then Some(lastAckId.value) else None;
      match (fromBuf, fromField)
      case (Some(a), Some(b)) => Some(Max(a, b))
      case (Some(a), None) => Some(a)
      case (None, _) => fromField
    }
  }

  /** A cursor sent as decimal text and returned verbatim acknowledges exactly that cursor. */
  lemma {:induction false} EchoedCursorIsRead(cursor: nat, field: Option<int>)
    requires cursor <= U64_MAX
    requires field.None? || field.value <= cursor
    ensures GetUpdatesRequest(Text.Decimal(cursor), field).AckWatermark() == Some(cursor)
  {
    Text.ParseDecimal(cursor);
  }

  /** In general the larger of the two counts: a field that is negative, and text that is not a decimal
      number within 64 bits, count for nothing. */
  lemma {:induction false} AckIsLarger(r: GetUpdatesRequest, a: nat)
    ensures r.AckWatermark() == Some(a) <==>
            var text := Text.ParseU64(Text.Trim(r.getUpdatesBuf));
            && (text == Some(a) || r.lastAckId == Some(a))
            && (text.Some? ==> text.value <= a)
            && (r.lastAckId.Some? ==> r.lastAckId.value <= a)
  {}

  /** A larger numeric field wins over the echoed cursor, and stands alone when there is none. */
  lemma {:induction false} FieldIsRead(cursor: nat, field: nat)
    ensures cursor <= field && cursor <= U64_MAX ==>
              GetUpdatesRequest(Text.Decimal(cursor), Some(field)).AckWatermark() == Some(field)
    ensures GetUpdatesRequest("", Some(field)).AckWatermark() == Some(field)
    ensures GetUpdatesRequest("", None).AckWatermark() == None
  {
    Text.ParseDecimal(cursor);
    assert Text.Trim("") == "";
  }

  // ---------- The table of slots ----------

  datatype TableOp =
    | ToSlot(vtoken: string, op: Op)
    | Wait(vtoken: string)
    | RemoveClient(vtoken: string)

  type Table = map<string, Log>

  /** An absent slot is indistinguishable from an empty one. */
  function LogOf(limit: nat, table: Table, vtoken: string): Log {
    if vtoken in table then table[vtoken] else EmptyLog(limit)
  }

  /** Polling never creates a slot; pushing and waiting do. */
  function TableStep(limit: nat, table: Table, op: TableOp): Table {
    match op
    case ToSlot(v, Push(msg)) => table[v := LogOf(limit, table, v).Push(msg)]
    case ToSlot(v, Poll(ack)) => if v in table then table[v := table[v].Poll(ack)] else table
    case Wait(v) => table[v := LogOf(limit, table, v)]
    case RemoveClient(v) => table - {v}
  }

  function TableAfter(limit: nat, ops: seq<TableOp>): Table {
    if ops == [] then map[] else TableStep(limit, TableAfter(limit, ops[..|ops| - 1]), ops[|ops| - 1])
  }

  /** The slot operations of `vtoken` since its client was last removed. */
  function Lifetime(ops: seq<TableOp>, vtoken: string): seq<Op> {
    if ops == [] then [] else
      var rest := Lifetime(ops[..|ops| - 1], vtoken);
      match ops[|ops| - 1]
      case ToSlot(v, op) => if v == vtoken then rest + [op] else rest
      case Wait(_) => rest
      case RemoveClient(v) => if v == vtoken then [] else rest
  }

  /** Clients do not disturb each other: a client's slot is what its own operations since its last
      removal alone would have produced. */
  lemma {:induction false} SlotsAreIndependent(limit: nat, ops: seq<TableOp>, vtoken: string)
    ensures LogOf(limit, TableAfter(limit, ops), vtoken) == After(limit, Lifetime(ops, vtoken))
  {
    if ops != [] {
      var rest, op := ops[..|ops| - 1], ops[|ops| - 1];
      SlotsAreIndependent(limit, rest, vtoken);
      if op.ToSlot? && op.vtoken == vtoken {
        var life := Lifetime(rest, vtoken);
        assert (life + [op.op])[..|life|] == life;
      }
    }
  }

  /** At-least-once delivery for every client of the shared queue, lifetime by lifetime. */
  lemma {:induction false} EveryClientIsServed(limit: nat, ops: seq<TableOp>, vtoken: string)
    requires EchoesOnly(limit, Lifetime(ops, vtoken))
    ensures var log := LogOf(limit, TableAfter(limit, ops), vtoken); var life := Lifetime(ops, vtoken);
            log.mark <= |log.accepted| &&
            forall k | 0 <= k < |log.accepted| ::
              log.accepted[k] in log.Pending() || Delivered(limit, life, |life|, log.accepted[k])
  {
    var life := Lifetime(ops, vtoken);
    SlotsAreIndependent(limit, ops, vtoken);
    AtLeastOnce(limit, life);
    assert life[..|life|] == life;
  }

  /** A cursor kept across a removal belongs to another lifetime and can retire an unseen message. */
  lemma {:induction false} StaleCursorLoses(m: Message, m': Message)
    ensures var ops := [ToSlot("v", Push(m)), ToSlot("v", Poll(None)), RemoveClient("v"),
                        ToSlot("v", Push(m')), ToSlot("v", Poll(Some(1)))];
            var life := Lifetime(ops, "v");
            && EmptyLog(1).Push(m).Batch(None).cursor == 1
            && life == [Push(m'), Poll(Some(1))]
            && !NothingLost(1, life, 2)
  {
    var ops := [ToSlot("v", Push(m)), ToSlot("v", Poll(None)), RemoveClient("v"),
                ToSlot("v", Push(m')), ToSlot("v", Poll(Some(1)))];
    assert ops[..4][..3] == ops[..3];
    assert Lifetime(ops[..3], "v") == [];
    assert Lifetime(ops[..4], "v") == [Push(m')];
    var life := Lifetime(ops, "v");
    assert life == [Push(m'), Poll(Some(1))];
    assert life[..1] == [Push(m')];
    assert HighWater(1, life, 0) == 0 && HighWater(1, life, 1) == 0;
    AfterStep(1, life, 0);
    assert !SafeAck(1, life, 1);
    UnsafeAckLoses(1, life, 1);
  }

  lemma {:induction false} Overwrite(table: Table, vtoken: string, a: Log, b: Log)
    ensures table[vtoken := a][vtoken := b] == table[vtoken := b]
  {
  }

  /** The Hub's queue. Slots are shared objects; the table is what they amount to together. */
  class InMemoryQueue {
    var slots: map<string, PerClientSlot>
    const maxQueueSize: nat
    ghost var table: Table

    ghost predicate Valid()
      reads this, slots.Values
    {
      && table.Keys == slots.Keys
      && forall v | v in slots ::
           slots[v].Valid() && slots[v].owner == v && slots[v].log == table[v] && table[v].limit == maxQueueSize
    }

    constructor WithLimit(maxQueueSize: nat)
      ensures Valid() && table == map[] && this.maxQueueSize == maxQueueSize
    {
      this.maxQueueSize := maxQueueSize;
      slots := map[];
      table := map[];
    }

    method GetOrCreate(vtoken: string) returns (slot: PerClientSlot)
      requires Valid()
      modifies this
      ensures Valid() && slots == old(slots)[vtoken := slot]
      ensures if vtoken in old(slots) then slot == old(slots)[vtoken] else fresh(slot)
      ensures table == old(TableStep(maxQueueSize, table, Wait(vtoken)))
    {
      if vtoken !in slots {
        var created := new PerClientSlot(maxQueueSize, vtoken);
        slots := slots[vtoken := created];
        table := table[vtoken := EmptyLog(maxQueueSize)];
      }
      slot := slots[vtoken];
      assert table == old(table)[vtoken := old(LogOf(maxQueueSize, table, vtoken))];
    }

    method Enqueue(slot: PerClientSlot, msg: Message) returns (rejected: bool)
      requires Valid() && slot.owner in slots && slots[slot.owner] == slot
      modifies this`table, slot
      ensures Valid() && slots == old(slots)
      ensures rejected == old(table)[slot.owner].Full()
      ensures table == old(table)[slot.owner := old(table)[slot.owner].Push(msg)]
    {
      rejected := slot.Push(msg);
      table := table[slot.owner := slot.log];
    }

    method Push(vtoken: string, msg: Message) returns (rejected: bool)
      requires Valid()
      modifies this, slots.Values
      ensures Valid()
      ensures rejected == old(LogOf(maxQueueSize, table, vtoken)).Full()
      ensures table == old(TableStep(maxQueueSize, table, ToSlot(vtoken, Op.Push(msg))))
      ensures vtoken in slots && slots == old(slots)[vtoken := slots[vtoken]]
      ensures if vtoken in old(slots) then slots[vtoken] == old(slots)[vtoken] else fresh(slots[vtoken])
    {
      ghost var was := LogOf(maxQueueSize, table, vtoken);
      var slot := GetOrCreate(vtoken);
      assert slots[vtoken] == slot && table[vtoken] == was;
      rejected := Enqueue(slot, msg);
      Overwrite(old(table), vtoken, was, was.Push(msg));
    }

    method Poll(vtoken: string, ack: Option<nat>) returns (batch: PollBatch)
      requires Valid()
      modifies this`table, slots.Values
      ensures Valid() && slots == old(slots)
      ensures old(LogOf(maxQueueSize, table, vtoken)).Valid()
      ensures batch == old(LogOf(maxQueueSize, table, vtoken)).Batch(ack)
      ensures table == old(TableStep(maxQueueSize, table, ToSlot(vtoken, Op.Poll(ack))))
    {
      if vtoken in slots {
        var slot := slots[vtoken];
        batch := slot.Poll(ack);
        table := table[vtoken := slot.log];
      } else {
        batch := PollBatch([], 0);
      }
    }

    method RemoveClient(vtoken: string)
      requires Valid()
      modifies this
      ensures Valid()
      ensures table == old(TableStep(maxQueueSize, table, TableOp.RemoveClient(vtoken)))
    {
      slots := slots - {vtoken};
      table := table - {vtoken};
    }
  }
}
