/**
 * The retransmission protocol of `can.c` over every run of its actors: any number of senders, the transmit thread, the
 * retransmission manager, and a clock that does not run backwards. Queue operations are atomic here, which the
 * interleavings of the queue module justify. Messages carry a number of their own, which the code does not.
 */
module CanProtocol {
  import opened Bytes
  import opened Clock
  import opened QueueSpec
  import opened CanFrames

  datatype Copy = Copy(id: nat, pkt: Packet)

  /** The transmit thread: idle, holding a dequeued message, after the writes, and after the header update. */
  datatype TxHand = TxIdle | TxFresh(c: Copy) | TxWritten(c: Copy) | TxStamped(c: Copy)

  /** The manager: idle, holding a dequeued message, and after each answer of the timeout test. */
  datatype MgrHand = MgrIdle | MgrHolds(c: Copy) | MgrExpired(c: Copy) | MgrWaiting(c: Copy)

  /** What the caller of `can_device_send` asked for. */
  datatype Original = Original(number: nat, timeouts: uint16, payload: seq<uint8>)

  /** One pass of the fragmentation loop; `whole` if no write failed. */
  datatype Transmission = Transmission(id: nat, at: Time, frames: seq<CanFrame>, whole: bool)

  datatype State = State(
    canId: nat, clock: Time, txQ: seq<Copy>, waitQ: seq<Copy>, txHand: TxHand, mgrHand: MgrHand,
    originals: seq<Original>, sent: seq<Transmission>, dropped: seq<Copy>)

  datatype Action =
    | Send(number: uint8, timeouts: uint16, payload: seq<uint8>)
    | TxDequeue
    | TxWrite(writesOk: nat)
    | TxStamp
    | TxRequeue
    | MgrDequeue
    | MgrTest
    | MgrRequeue
    | Tick(now: Time)

  ghost predicate Init(s: State) {
    && s.txQ == s.waitQ == s.dropped == [] && s.originals == [] && s.sent == []
    && s.txHand == TxIdle && s.mgrHand == MgrIdle && InRange(s.clock)
  }

  /** Header branch of `can_device_send`; a message that does not fit a slot is not the caller's to send. */
  function SendStep(s: State, a: Action): State
    requires a.Send?
  {
    if a.number == 0 || a.timeouts == 0 || HEADER_SIZE + |a.payload| > MAX_DATA_SIZE then s
    else
      var c := Copy(|s.originals|, Packet(RetransHeader(1, a.number, a.timeouts, s.clock), a.payload));
      ToTx(s.(originals := s.originals + [Original(a.number, a.timeouts, a.payload)]), c)
  }

  function Written(s: State, c: Copy, writesOk: nat): Transmission {
    var fs := Fragments(s.canId, c.pkt.payload);
    Transmission(c.id, s.clock, if writesOk < |fs| then fs[..writesOk] else fs, writesOk >= |fs|)
  }

  function TxDequeueStep(s: State): State {
    if s.txHand.TxIdle? && s.txQ != [] then s.(txHand := TxFresh(s.txQ[0]), txQ := s.txQ[1..]) else s
  }

  /** The fragmentation loop: a transmission, whether or not every write succeeds. */
  function TxWriteStep(s: State, writesOk: nat): State {
    if s.txHand.TxFresh?
    then s.(txHand := TxWritten(s.txHand.c), sent := s.sent + [Written(s, s.txHand.c, writesOk)]) else s
  }

  /** The header update, or the end of the message when this was its last try. */
  function TxStampStep(s: State): State {
    if !s.txHand.TxWritten? then s
    else if s.txHand.c.pkt.hdr.retryCounts > 1
    then s.(txHand := TxStamped(Copy(s.txHand.c.id, s.txHand.c.pkt.Again(s.clock))))
    else s.(txHand := TxIdle)
  }

  function ToWaiting(s: State, c: Copy): State {
    if |s.waitQ| < CAPACITY then s.(waitQ := s.waitQ + [c]) else s.(dropped := s.dropped + [c])
  }

  function ToTx(s: State, c: Copy): State {
    if |s.txQ| < CAPACITY then s.(txQ := s.txQ + [c]) else s.(dropped := s.dropped + [c])
  }

  function TxRequeueStep(s: State): State {
    if s.txHand.TxStamped? then ToWaiting(s.(txHand := TxIdle), s.txHand.c) else s
  }

  function MgrDequeueStep(s: State): State {
    if s.mgrHand.MgrIdle? && s.waitQ != [] then s.(mgrHand := MgrHolds(s.waitQ[0]), waitQ := s.waitQ[1..]) else s
  }

  function MgrTestStep(s: State): State {
    if !s.mgrHand.MgrHolds? then s
    else
      var c := s.mgrHand.c;
      s.(mgrHand := if BeTimeOutMN(s.clock, c.pkt.hdr.time, c.pkt.hdr.timeouts) == 0
                    then MgrExpired(c) else MgrWaiting(c))
  }

  function MgrRequeueStep(s: State): State {
    if s.mgrHand.MgrExpired? then ToTx(s.(mgrHand := MgrIdle), s.mgrHand.c)
    else if s.mgrHand.MgrWaiting? then ToWaiting(s.(mgrHand := MgrIdle), s.mgrHand.c)
    else s
  }

  function TickStep(s: State, now: Time): State {
    if s.clock.Micros() <= now.Micros() && InRange(now) then s.(clock := now) else s
  }

  function Step(s: State, a: Action): State {
    match a
    case Send(_, _, _) => SendStep(s, a)
    case TxDequeue => TxDequeueStep(s)
    case TxWrite(writesOk) => TxWriteStep(s, writesOk)
    case TxStamp => TxStampStep(s)
    case TxRequeue => TxRequeueStep(s)
    case MgrDequeue => MgrDequeueStep(s)
    case MgrTest => MgrTestStep(s)
    case MgrRequeue => MgrRequeueStep(s)
    case Tick(now) => TickStep(s, now)
  }

  // ---- counting copies and budgets

  /** What is counted over copies: the copies themselves, or the tries they have left. */
  datatype Unit = Heads | Tries

  function Worth(id: nat, c: Copy, u: Unit): nat {
    if c.id != id then 0 else if u.Heads? then 1 else c.pkt.hdr.retryCounts
  }

  /** The copies of message `id` in a queue, or their tries. */
  function Tally(id: nat, q: seq<Copy>, u: Unit): nat {
    if q == [] then 0 else Tally(id, q[..|q| - 1], u) + Worth(id, q[|q| - 1], u)
  }

  function Transmissions(id: nat, sent: seq<Transmission>): nat {
    if sent == [] then 0 else Transmissions(id, sent[..|sent| - 1]) + (if sent[|sent| - 1].id == id then 1 else 0)
  }

  /** What the two hands hold. After the writes the try in progress is spent although the header still shows it. */
  function TxHandWorth(id: nat, h: TxHand, u: Unit): int {
    match h
    case TxIdle => 0
    case TxWritten(c) => Worth(id, c, u) - (if u.Tries? && c.id == id then 1 else 0)
    case _ => Worth(id, h.c, u)
  }

  function MgrHandWorth(id: nat, h: MgrHand, u: Unit): nat {
    if h.MgrIdle? then 0 else Worth(id, h.c, u)
  }

  /** Everything still in the system for message `id`. */
  function Live(s: State, id: nat, u: Unit): int {
    Tally(id, s.txQ, u) + Tally(id, s.waitQ, u) + TxHandWorth(id, s.txHand, u) + MgrHandWorth(id, s.mgrHand, u)
  }

  lemma TallyPush(id: nat, q: seq<Copy>, c: Copy, u: Unit)
    ensures Tally(id, q + [c], u) == Tally(id, q, u) + Worth(id, c, u)
  {
    assert (q + [c])[..|q|] == q;
  }

  lemma {:induction false} TallyPop(id: nat, q: seq<Copy>, u: Unit)
    requires q != []
    ensures Tally(id, q, u) == Worth(id, q[0], u) + Tally(id, q[1..], u)
  {
    if |q| == 1 {
      assert q[1..] == [] && q[..0] == [];
    } else {
      TallyPop(id, q[..|q| - 1], u);
      assert q[..|q| - 1][1..] == q[1..][..|q[1..]| - 1];
    }
  }

  lemma TransmissionsPush(id: nat, sent: seq<Transmission>, t: Transmission)
    ensures Transmissions(id, sent + [t]) == Transmissions(id, sent) + (if t.id == id then 1 else 0)
  {
    assert (sent + [t])[..|sent|] == sent;
  }

  lemma {:induction false} NoHeads(id: nat, q: seq<Copy>)
    ensures Tally(id, q, Heads) == 0 ==> Tally(id, q, Tries) == 0
    ensures Tally(id, q, Heads) == 0 <==> forall i | 0 <= i < |q| :: q[i].id != id
  {
    if q != [] {
      NoHeads(id, q[..|q| - 1]);
    }
  }

  // ---- the ledger

  function Number(originals: seq<Original>, id: nat): nat {
    if id < |originals| then originals[id].number else 0
  }

  /** At most one copy, and every try asked for is spent, still to come, or dropped. */
  predicate Ledger(s: State, id: nat) {
    && Live(s, id, Heads) <= (if id < |s.originals| then 1 else 0)
    && Transmissions(id, s.sent) + Live(s, id, Tries) + Tally(id, s.dropped, Tries) == Number(s.originals, id)
  }

  /** Putting a copy into a queue, or dropping it, adds it to the account exactly once. */
  lemma ToTxAccounts(s: State, c: Copy, id: nat, u: Unit)
    ensures Live(ToTx(s, c), id, u) + Tally(id, ToTx(s, c).dropped, u) ==
            Live(s, id, u) + Tally(id, s.dropped, u) + Worth(id, c, u)
    ensures Live(ToTx(s, c), id, u) <= Live(s, id, u) + Worth(id, c, u)
  {
    if |s.txQ| < CAPACITY {
      TallyPush(id, s.txQ, c, u);
    } else {
      TallyPush(id, s.dropped, c, u);
    }
  }

  lemma ToWaitingAccounts(s: State, c: Copy, id: nat, u: Unit)
    ensures Live(ToWaiting(s, c), id, u) + Tally(id, ToWaiting(s, c).dropped, u) ==
            Live(s, id, u) + Tally(id, s.dropped, u) + Worth(id, c, u)
    ensures Live(ToWaiting(s, c), id, u) <= Live(s, id, u) + Worth(id, c, u)
  {
    if |s.waitQ| < CAPACITY {
      TallyPush(id, s.waitQ, c, u);
    } else {
      TallyPush(id, s.dropped, c, u);
    }
  }

  /** Noting a request moves no copy; a number not given out before owes nothing yet. */
  lemma NewOriginal(s: State, o: Original, id: nat, u: Unit)
    ensures var s' := s.(originals := s.originals + [o]);
      && Live(s', id, u) == Live(s, id, u)
      && Number(s'.originals, id) == if id == |s.originals| then o.number else Number(s.originals, id)
  {
  }

  lemma LedgerSend(s: State, a: Action, id: nat)
    requires a.Send? && Ledger(s, id)
    ensures Ledger(SendStep(s, a), id)
  {
    var c := Copy(|s.originals|, Packet(RetransHeader(1, a.number, a.timeouts, s.clock), a.payload));
    var o := Original(a.number, a.timeouts, a.payload);
    NewOriginal(s, o, id, Heads);
    NewOriginal(s, o, id, Tries);
    ToTxAccounts(s.(originals := s.originals + [o]), c, id, Heads);
    ToTxAccounts(s.(originals := s.originals + [o]), c, id, Tries);
  }

  lemma LedgerDequeue(s: State, id: nat)
    requires Ledger(s, id)
    ensures Ledger(TxDequeueStep(s), id) && Ledger(MgrDequeueStep(s), id)
  {
    if s.txQ != [] {
      TallyPop(id, s.txQ, Heads);
      TallyPop(id, s.txQ, Tries);
    }
    if s.waitQ != [] {
      TallyPop(id, s.waitQ, Heads);
      TallyPop(id, s.waitQ, Tries);
    }
  }

  lemma LedgerTxRequeue(s: State, id: nat)
    requires Ledger(s, id)
    ensures Ledger(TxRequeueStep(s), id)
  {
    if s.txHand.TxStamped? {
      ToWaitingAccounts(s.(txHand := TxIdle), s.txHand.c, id, Heads);
      ToWaitingAccounts(s.(txHand := TxIdle), s.txHand.c, id, Tries);
    }
  }

  lemma LedgerMgrRequeue(s: State, id: nat)
    requires Ledger(s, id)
    ensures Ledger(MgrRequeueStep(s), id)
  {
    var idle := s.(mgrHand := MgrIdle);
    if s.mgrHand.MgrExpired? {
      ToTxAccounts(idle, s.mgrHand.c, id, Heads);
      ToTxAccounts(idle, s.mgrHand.c, id, Tries);
    } else if s.mgrHand.MgrWaiting? {
      ToWaitingAccounts(idle, s.mgrHand.c, id, Heads);
      ToWaitingAccounts(idle, s.mgrHand.c, id, Tries);
    }
  }

  lemma LedgerWrite(s: State, writesOk: nat, id: nat)
    requires Ledger(s, id)
    ensures Ledger(TxWriteStep(s, writesOk), id)
  {
    if s.txHand.TxFresh? {
      TransmissionsPush(id, s.sent, Written(s, s.txHand.c, writesOk));
    }
  }

  lemma LedgerStamp(s: State, id: nat)
    requires s.txHand.TxWritten? ==> s.txHand.c.pkt.hdr.retryCounts >= 1
    requires Ledger(s, id)
    ensures Ledger(TxStampStep(s), id)
  {
  }

  /** One step of anyone keeps every message's account balanced. */
  lemma LedgerStep(s: State, a: Action, id: nat)
    requires s.txHand.TxWritten? ==> s.txHand.c.pkt.hdr.retryCounts >= 1
    requires Ledger(s, id)
    ensures Ledger(Step(s, a), id)
  {
    match a
    case Send(_, _, _) => LedgerSend(s, a, id);
    case TxDequeue | MgrDequeue => LedgerDequeue(s, id);
    case TxRequeue => LedgerTxRequeue(s, id);
    case MgrRequeue => LedgerMgrRequeue(s, id);
    case TxWrite(writesOk) => LedgerWrite(s, writesOk, id);
    case TxStamp => LedgerStamp(s, id);
    case MgrTest =>
    case Tick(_) =>
  }

  // ---- payloads, stamps and spacing

  /** A copy still carries what the sender asked for. */
  predicate Faithful(c: Copy, originals: seq<Original>) {
    && c.id < |originals| && c.pkt.Sound()
    && c.pkt.payload == originals[c.id].payload && c.pkt.hdr.timeouts == originals[c.id].timeouts
  }

  /** Its stamp is not in the future and not before any transmission of its message. */
  predicate Stamped(c: Copy, sent: seq<Transmission>, clock: Time) {
    && c.pkt.hdr.time.Micros() <= clock.Micros()
    && forall i | 0 <= i < |sent| && sent[i].id == c.id :: sent[i].at.Micros() <= c.pkt.hdr.time.Micros()
  }

  /** It has never been transmitted, or its timeout has passed since the stamp. */
  predicate Rested(c: Copy, sent: seq<Transmission>, clock: Time) {
    forall i | 0 <= i < |sent| && sent[i].id == c.id :: Millis(clock) - Millis(c.pkt.hdr.time) >= c.pkt.hdr.timeouts
  }

  predicate Waits(c: Copy, s: State) {
    Faithful(c, s.originals) && Stamped(c, s.sent, s.clock)
  }

  predicate Ready(c: Copy, s: State) {
    Waits(c, s) && Rested(c, s.sent, s.clock)
  }

  predicate HandsOk(s: State) {
    && (match s.txHand
        case TxIdle => true
        case TxFresh(c) => Ready(c, s)
        case TxWritten(c) => Faithful(c, s.originals)
        case TxStamped(c) => Waits(c, s))
    && (match s.mgrHand
        case MgrIdle => true
        case MgrHolds(c) => Waits(c, s)
        case MgrWaiting(c) => Waits(c, s)
        case MgrExpired(c) => Ready(c, s))
  }

  /** A transmission carries the message's fragments, up to the first failed write. */
  predicate Genuine(t: Transmission, s: State) {
    && t.id < |s.originals| && t.at.Micros() <= s.clock.Micros()
    && t.frames <= Fragments(s.canId, s.originals[t.id].payload)
    && (t.whole <==> t.frames == Fragments(s.canId, s.originals[t.id].payload))
  }

  /** Two transmissions of one message lie more than its timeout less one millisecond apart. */
  predicate Spaced(sent: seq<Transmission>, originals: seq<Original>) {
    forall i, j | 0 <= i < j < |sent| && sent[i].id == sent[j].id < |originals| ::
      sent[j].at.Micros() - sent[i].at.Micros() > (originals[sent[i].id].timeouts - 1) * 1000
  }

  predicate History(s: State) {
    && InRange(s.clock)
    && (forall i | 0 <= i < |s.txQ| :: Ready(s.txQ[i], s))
    && (forall i | 0 <= i < |s.waitQ| :: Waits(s.waitQ[i], s))
    && HandsOk(s)
    && (forall i | 0 <= i < |s.sent| :: Genuine(s.sent[i], s))
    && Spaced(s.sent, s.originals)
  }

  ghost predicate Inv(s: State) {
    (forall id: nat :: Ledger(s, id)) && History(s)
  }

  lemma SendKeepsHistory(s: State, a: Action)
    requires a.Send? && History(s)
    ensures History(SendStep(s, a))
  {
    var s' := SendStep(s, a);
    if s' != s {
      forall c | Waits(c, s) ensures Waits(c, s') {
      }
      forall i | 0 <= i < |s'.txQ| ensures Ready(s'.txQ[i], s') {
        if i < |s.txQ| {
          assert Ready(s.txQ[i], s);
        } else {
          assert forall k | 0 <= k < |s.sent| :: s.sent[k].id != |s.originals| by {
            assert forall k | 0 <= k < |s.sent| :: Genuine(s.sent[k], s);
          }
        }
      }
      assert forall i | 0 <= i < |s.sent| :: Genuine(s.sent[i], s) && Genuine(s'.sent[i], s');
    }
  }

  /** The clock only moves on: what has rested stays rested. */
  lemma TickKeepsHistory(s: State, now: Time)
    requires History(s)
    ensures History(TickStep(s, now))
  {
  }

  lemma DequeuesKeepHistory(s: State)
    requires History(s)
    ensures History(TxDequeueStep(s)) && History(MgrDequeueStep(s))
  {
  }

  lemma TxRequeueKeepsHistory(s: State)
    requires History(s)
    ensures History(TxRequeueStep(s))
  {
  }

  lemma MgrRequeueKeepsHistory(s: State)
    requires History(s)
    ensures History(MgrRequeueStep(s))
  {
  }

  lemma TestKeepsHistory(s: State)
    requires History(s)
    ensures History(MgrTestStep(s))
  {
    if s.mgrHand.MgrHolds? {
      var h := s.mgrHand.c.pkt.hdr;
      TimedOutIff(s.clock, h.time, h.timeouts);
    }
  }

  lemma StampKeepsHistory(s: State)
    requires History(s)
    ensures History(TxStampStep(s))
  {
    assert forall i | 0 <= i < |s.sent| :: Genuine(s.sent[i], s);
  }

  /** Only one copy of a message exists, so a transmission cannot upset another copy. */
  lemma OnlyCopy(s: State)
    requires s.txHand.TxFresh? && Ledger(s, s.txHand.c.id)
    ensures forall i | 0 <= i < |s.txQ| :: s.txQ[i].id != s.txHand.c.id
    ensures forall i | 0 <= i < |s.waitQ| :: s.waitQ[i].id != s.txHand.c.id
    ensures !s.mgrHand.MgrIdle? ==> s.mgrHand.c.id != s.txHand.c.id
  {
    NoHeads(s.txHand.c.id, s.txQ);
    NoHeads(s.txHand.c.id, s.waitQ);
  }

  lemma WriteKeepsHistory(s: State, writesOk: nat)
    requires History(s) && (s.txHand.TxFresh? ==> Ledger(s, s.txHand.c.id))
    ensures History(TxWriteStep(s, writesOk))
  {
    if s.txHand.TxFresh? {
      var s', c := TxWriteStep(s, writesOk), s.txHand.c;
      OnlyCopy(s);
      forall d | Waits(d, s) && d.id != c.id ensures Waits(d, s') {
      }
      forall d | Ready(d, s) && d.id != c.id ensures Ready(d, s') {
      }
      forall i | 0 <= i < |s.sent| && s.sent[i].id == c.id
        ensures s.clock.Micros() - s.sent[i].at.Micros() > (c.pkt.hdr.timeouts - 1) * 1000
      {
        MillisApart(s.clock.Micros(), c.pkt.hdr.time.Micros(), c.pkt.hdr.timeouts);
      }
      forall i | 0 <= i < |s'.sent| ensures Genuine(s'.sent[i], s') {
        if i < |s.sent| {
          assert Genuine(s.sent[i], s);
        }
      }
    }
  }

  lemma MillisApart(a: nat, b: nat, ms: nat)
    requires a / 1000 - b / 1000 >= ms
    ensures a - b > (ms - 1) * 1000
  {
  }

  lemma StepKeepsInv(s: State, a: Action)
    requires Inv(s)
    ensures Inv(Step(s, a))
  {
    forall id: nat ensures Ledger(Step(s, a), id) {
      assert Ledger(s, id);
      LedgerStep(s, a, id);
    }
    match a
    case Send(_, _, _) => SendKeepsHistory(s, a);
    case TxDequeue | MgrDequeue => DequeuesKeepHistory(s);
    case TxRequeue => TxRequeueKeepsHistory(s);
    case MgrRequeue => MgrRequeueKeepsHistory(s);
    case TxWrite(writesOk) => WriteKeepsHistory(s, writesOk);
    case TxStamp => StampKeepsHistory(s);
    case MgrTest => TestKeepsHistory(s);
    case Tick(now) => TickKeepsHistory(s, now);
  }

  function Exec(s: State, run: seq<Action>): State
    decreases run
  {
    if run == [] then s else Exec(Step(s, run[0]), run[1..])
  }

  lemma {:induction false} ExecKeepsInv(s: State, run: seq<Action>)
    requires Inv(s)
    ensures Inv(Exec(s, run))
    decreases run
  {
    if run != [] {
      StepKeepsInv(s, run[0]);
      ExecKeepsInv(Step(s, run[0]), run[1..]);
    }
  }

  lemma TriesNotNegative(s: State, id: nat)
    requires HandsOk(s)
    ensures 0 <= TxHandWorth(id, s.txHand, Tries) && 0 <= TxHandWorth(id, s.txHand, Heads)
    ensures TxHandWorth(id, s.txHand, Heads) == 0 ==> TxHandWorth(id, s.txHand, Tries) == 0
  {
  }

  lemma BudgetBalances(s: State, id: nat)
    requires Ledger(s, id) && HandsOk(s)
    ensures 0 <= Live(s, id, Tries)
    ensures Live(s, id, Heads) == 0 ==> Live(s, id, Tries) == 0
  {
    NoHeads(id, s.txQ);
    NoHeads(id, s.waitQ);
    TriesNotNegative(s, id);
  }

  // ---- what the senders asked for

  function RequestOf(a: Action): seq<Original> {
    if a.Send? && a.number > 0 && a.timeouts > 0 && 20 + |a.payload| <= 256
    then [Original(a.number, a.timeouts, a.payload)] else []
  }

  /** The sends of a run with tries, a timeout and a payload that fits, in order. */
  function Requests(run: seq<Action>): seq<Original> {
    if run == [] then [] else RequestOf(run[0]) + Requests(run[1..])
  }

  lemma StepRequests(s: State, a: Action)
    ensures Step(s, a).originals == s.originals + RequestOf(a)
  {
  }

  lemma JoinRequests(a: seq<Original>, b: seq<Original>, c: seq<Original>)
    ensures a + b + c == a + (b + c)
  {
  }

  lemma {:induction false} RunRequests(s: State, run: seq<Action>)
    ensures Exec(s, run).originals == s.originals + Requests(run)
    decreases run
  {
    if run != [] {
      StepRequests(s, run[0]);
      RunRequests(Step(s, run[0]), run[1..]);
      JoinRequests(s.originals, RequestOf(run[0]), Requests(run[1..]));
    }
  }

  lemma ClockMovesOn(s: State, a: Action)
    ensures s.clock.Micros() <= Step(s, a).clock.Micros()
    ensures Step(s, a).clock == s.clock || a == Tick(Step(s, a).clock)
    ensures a.Tick? && InRange(a.now) ==> a.now.Micros() <= Step(s, a).clock.Micros()
  {
  }

  /** The clock of a run is where it started or one of the readings, and no earlier than any reading in range. */
  lemma {:induction false} ClockIsLatest(s: State, run: seq<Action>)
    ensures var now := Exec(s, run).clock;
      && s.clock.Micros() <= now.Micros()
      && (now == s.clock || Tick(now) in run)
      && forall a <- run :: a.Tick? && InRange(a.now) ==> a.now.Micros() <= now.Micros()
    decreases run
  {
    if run != [] {
      ClockMovesOn(s, run[0]);
      ClockIsLatest(Step(s, run[0]), run[1..]);
      assert forall a <- run :: a == run[0] || a in run[1..];
    }
  }

  /**
   * Conservation over every run: at most one copy of a message is alive, and its transmissions, the tries its copy has
   * left and the tries dropped on full queues add up to the number asked for. So it is never sent more often than
   * asked, and once no copy is left it was sent exactly that often if and only if nothing of it was dropped. The
   * messages are the sends of the run, numbered in order.
   */
  lemma RetryBudgetConserved(s: State, run: seq<Action>, id: nat)
    requires Init(s)
    ensures var e := Exec(s, run);
      && e.originals == Requests(run)
      && Live(e, id, Heads) <= 1
      && Transmissions(id, e.sent) + Live(e, id, Tries) + Tally(id, e.dropped, Tries) == Number(e.originals, id)
      && Transmissions(id, e.sent) <= Number(e.originals, id)
      && (Live(e, id, Heads) == 0 ==>
            (Transmissions(id, e.sent) == Number(e.originals, id) <==> Tally(id, e.dropped, Tries) == 0))
  {
    ExecKeepsInv(s, run);
    RunRequests(s, run);
    var e := Exec(s, run);
    assert Ledger(e, id);
    BudgetBalances(e, id);
  }

  /**
   * Over every run, all transmissions of a message in which no write failed are the same frames, all those of the
   * payload the sender gave, and any two transmissions of one message keep their distance.
   */
  lemma TransmissionsFaithfulAndSpaced(s: State, run: seq<Action>)
    requires Init(s)
    ensures var e := Exec(s, run);
      && (forall i | 0 <= i < |e.sent| :: Genuine(e.sent[i], e))
      && (forall i, j | 0 <= i < j < |e.sent| && e.sent[i].id == e.sent[j].id && e.sent[i].whole && e.sent[j].whole ::
            e.sent[i].frames == e.sent[j].frames)
      && Spaced(e.sent, e.originals)
  {
    ExecKeepsInv(s, run);
    var e := Exec(s, run);
    assert forall i | 0 <= i < |e.sent| :: Genuine(e.sent[i], e);
  }

  // ---- no drops below capacity

  /** Copies in the queues and in the two hands. */
  function InFlight(s: State): nat {
    |s.txQ| + |s.waitQ| + (if s.txHand.TxIdle? then 0 else 1) + (if s.mgrHand.MgrIdle? then 0 else 1)
  }

  /** A send while 63 copies are already under way. */
  predicate Crowds(s: State, a: Action) {
    a.Send? && InFlight(s) >= CAPACITY
  }

  /** Over a run the senders wait while 63 messages are under way. */
  predicate Restrained(s: State, run: seq<Action>)
    decreases run
  {
    run == [] || (!Crowds(s, run[0]) && Restrained(Step(s, run[0]), run[1..]))
  }

  lemma StepDropsNothing(s: State, a: Action)
    requires InFlight(s) <= CAPACITY && s.dropped == [] && !Crowds(s, a)
    ensures InFlight(Step(s, a)) <= CAPACITY && Step(s, a).dropped == []
  {
  }

  lemma {:induction false} RunDropsNothing(s: State, run: seq<Action>)
    requires InFlight(s) <= CAPACITY && s.dropped == [] && Restrained(s, run)
    ensures Exec(s, run).dropped == []
    decreases run
  {
    if run != [] {
      StepDropsNothing(s, run[0]);
      RunDropsNothing(Step(s, run[0]), run[1..]);
    }
  }

  /**
   * As long as senders wait while 63 messages are under way, nothing is ever dropped, and every message whose copy is
   * gone has been sent exactly as often as was asked.
   */
  lemma {:induction false} RestrainedSendersLoseNothing(s: State, run: seq<Action>, id: nat)
    requires Init(s) && Restrained(s, run)
    ensures var e := Exec(s, run);
      && e.dropped == []
      && (Live(e, id, Heads) == 0 ==> Transmissions(id, e.sent) == Number(e.originals, id))
  {
    RunDropsNothing(s, run);
    RetryBudgetConserved(s, run, id);
  }

  // ---- progress

  /** The timeout of a message has really passed. */
  predicate Overdue(c: Copy, clock: Time) {
    clock.Micros() - c.pkt.hdr.time.Micros() >= c.pkt.hdr.timeouts * 1000
  }

  /** Until the manager tests what it holds, others may act and time may pass. */
  lemma {:induction false} StillHeld(s: State, run: seq<Action>)
    requires Inv(s) && s.mgrHand.MgrHolds? && Overdue(s.mgrHand.c, s.clock)
    requires forall i | 0 <= i < |run| :: !run[i].MgrTest?
    ensures var t := Exec(s, run); Inv(t) && t.mgrHand == s.mgrHand && Overdue(t.mgrHand.c, t.clock)
    decreases run
  {
    if run != [] {
      StepKeepsInv(s, run[0]);
      ClockMovesOn(s, run[0]);
      HandKept(s, run[0]);
      assert forall i | 0 <= i < |run[1..]| :: run[1..][i] == run[i + 1];
      StillHeld(Step(s, run[0]), run[1..]);
    }
  }

  /** What the manager holds is moved by its own next step only. */
  lemma HandKept(s: State, a: Action)
    requires (s.mgrHand.MgrHolds? && !a.MgrTest?) || (s.mgrHand.MgrExpired? && !a.MgrRequeue?)
    ensures Step(s, a).mgrHand == s.mgrHand
  {
  }

  lemma {:induction false} StillExpired(s: State, run: seq<Action>)
    requires s.mgrHand.MgrExpired? && forall i | 0 <= i < |run| :: !run[i].MgrRequeue?
    ensures Exec(s, run).mgrHand == s.mgrHand
    decreases run
  {
    if run != [] {
      HandKept(s, run[0]);
      assert forall i | 0 <= i < |run[1..]| :: run[1..][i] == run[i + 1];
      StillExpired(Step(s, run[0]), run[1..]);
    }
  }

  lemma OverdueExpires(s: State)
    requires Inv(s) && s.mgrHand.MgrHolds? && Overdue(s.mgrHand.c, s.clock)
    ensures MgrTestStep(s).mgrHand == MgrExpired(s.mgrHand.c)
  {
    var h := s.mgrHand.c.pkt.hdr;
    ElapsedMeansTimeout(s.clock, h.time, h.timeouts);
  }

  /**
   * A waiting message whose timeout has really passed when the manager takes it goes to the transmit queue, whatever
   * the others do before the manager's test and between its test and its requeue, if there is room by then.
   */
  lemma {:induction false} OverdueIsMoved(s: State, before: seq<Action>, between: seq<Action>)
    requires Inv(s) && s.mgrHand.MgrHolds? && Overdue(s.mgrHand.c, s.clock)
    requires forall i | 0 <= i < |before| :: !before[i].MgrTest?
    requires forall i | 0 <= i < |between| :: !between[i].MgrRequeue?
    ensures var t := Exec(Step(Exec(s, before), MgrTest), between);
      && t.mgrHand == MgrExpired(s.mgrHand.c)
      && Step(t, MgrRequeue).mgrHand == MgrIdle
      && (|t.txQ| < 63 ==> Step(t, MgrRequeue).txQ == t.txQ + [s.mgrHand.c])
      && (|t.txQ| >= 63 ==> Step(t, MgrRequeue).dropped == t.dropped + [s.mgrHand.c])
  {
    StillHeld(s, before);
    OverdueExpires(Exec(s, before));
    StillExpired(MgrTestStep(Exec(s, before)), between);
  }
}
