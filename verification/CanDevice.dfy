/**
 * `can.c` on its two queues of byte buffers: sending, the transmit thread's turn and the retransmission manager's
 * turn.
 */
module CanDevices {
  import opened Bytes
  import opened Clock
  import opened QueueSpec
  import opened RingQueue
  import opened CanFrames

  /** The queue items are the encodings of these packets. */
  ghost predicate Holds(items: seq<Item>, packets: seq<Packet>) {
    |items| == |packets| && forall i | 0 <= i < |items| :: packets[i].Sound() && items[i] == Encode(packets[i])
  }

  lemma HoldsPush(items: seq<Item>, packets: seq<Packet>, p: Packet)
    requires Holds(items, packets) && p.Sound()
    ensures Holds(items + [Encode(p)], packets + [p])
  {
  }

  lemma HoldsPop(items: seq<Item>, packets: seq<Packet>)
    requires Holds(items, packets) && items != []
    ensures packets != [] && Holds(items[1..], packets[1..])
  {
  }

  function Append(q: seq<Packet>, p: Packet): seq<Packet> {
    if |q| < CAPACITY then q + [p] else q
  }

  /** What the two threads act on: the two queues and the frames on the bus. */
  datatype Wires = Wires(tx: seq<Packet>, waiting: seq<Packet>, bus: seq<CanFrame>)

  /** The frames a transmission puts on the bus when the write after the first `writesOk` fails. */
  function FramesWritten(canId: nat, payload: seq<uint8>, writesOk: nat): seq<CanFrame> {
    var fs := Fragments(canId, payload);
    if writesOk < |fs| then fs[..writesOk] else fs
  }

  /** One turn of the transmit thread: the oldest message is written and waits again while it has tries left. */
  function AfterTxTurn(w: Wires, canId: nat, now: Time, writesOk: nat): Wires {
    if w.tx == [] then w
    else
      var p := w.tx[0];
      Wires(w.tx[1..],
            if p.hdr.retryCounts > 1 then Append(w.waiting, p.Again(now)) else w.waiting,
            w.bus + FramesWritten(canId, p.payload, writesOk))
  }

  /**
   * One turn of the manager: the oldest waiting message is sent on when its timeout has passed, else waits on at
   * the back.
   */
  function AfterCheckTurn(w: Wires, now: Time): Wires {
    if w.waiting == [] then w
    else
      var p, rest := w.waiting[0], w.waiting[1..];
      if BeTimeOutMN(now, p.hdr.time, p.hdr.timeouts) == 0
      then w.(tx := Append(w.tx, p), waiting := rest)
      else w.(waiting := Append(rest, p))
  }

  class CanDevice {
    const txQueue: ThreadSafeQueue
    const retransQueue: ThreadSafeQueue
    const canId: nat
    /** Every frame written to the socket, in order. */
    var bus: seq<CanFrame>
    ghost var tx: seq<Packet>
    ghost var waiting: seq<Packet>
    ghost const Repr: set<object>

    /** The two queues are well formed and apart from each other. */
    ghost predicate Apart()
      reads this, Repr
    {
      && this in Repr && txQueue in Repr && retransQueue in Repr && txQueue.Repr <= Repr && retransQueue.Repr <= Repr
      && txQueue.Repr !! retransQueue.Repr && this !in txQueue.Repr + retransQueue.Repr
      && txQueue.Valid() && retransQueue.Valid()
      && txQueue.slotSize == retransQueue.slotSize == MAX_DATA_SIZE
    }

    ghost predicate Valid()
      reads this, Repr
    {
      && Apart()
      && Holds(txQueue.Contents(), tx) && Holds(retransQueue.Contents(), waiting)
    }

    ghost function View(): Wires
      reads this
    {
      Wires(tx, waiting, bus)
    }

    constructor (canId: nat)
      ensures Valid() && tx == waiting == [] && bus == [] && this.canId == canId
      ensures fresh(Repr)
    {
      var q := new ThreadSafeQueue(MAX_DATA_SIZE);
      var r := new ThreadSafeQueue(MAX_DATA_SIZE);
      txQueue, retransQueue, this.canId := q, r, canId;
      bus, tx, waiting := [], [], [];
      Repr := {this} + q.Repr + r.Repr;
    }

    /**
     * `can_device_send`, header branch: the message is queued with its whole budget, or dropped if there is no
     * room.
     */
    method Send(data: array<uint8>, number: uint8, timeouts: uint16, now: Time)
      requires Valid() && data !in Repr
      requires number > 0 && timeouts > 0 && InRange(now)
      requires HEADER_SIZE + data.Length <= MAX_DATA_SIZE
      modifies this`tx, txQueue.Repr
      ensures Valid()
      ensures View() ==
              old(View()).(tx := Append(old(tx), Packet(RetransHeader(1, number, timeouts, now), data[..])))
    {
      ghost var p := Packet(RetransHeader(1, number, timeouts, now), data[..]);
      var buf := BuildPacket(RetransHeader(1, number, timeouts, now), data);
      assert buf[..buf.Length] == buf[..];
      QueueForTx(buf, buf.Length, p);
    }

    method BuildPacket(hdr: RetransHeader, data: array<uint8>) returns (buf: array<uint8>)
      ensures fresh(buf) && buf[..] == Encode(Packet(hdr, data[..]))
    {
      var head := Pack(hdr);
      buf := new uint8[HEADER_SIZE + data.Length];
      forall i | 0 <= i < HEADER_SIZE {
        buf[i] := head[i];
      }
      forall i | 0 <= i < data.Length {
        buf[HEADER_SIZE + i] := data[i];
      }
    }

    /** Into the transmit queue, or dropped: the answer of `enqueue` is ignored. */
    method QueueForTx(data: array<uint8>, len: nat, ghost p: Packet)
      requires Valid() && data !in Repr && len <= data.Length && data[..len] == Encode(p) && p.Sound()
      modifies this`tx, txQueue.Repr
      ensures Valid() && tx == Append(old(tx), p) && data[..] == old(data[..])
    {
      ghost var held, items := retransQueue.Contents(), txQueue.Contents();
      HoldsPush(items, tx, p);
      var ret := txQueue.Enqueue(data, len);
      assert retransQueue.Contents() == held;
      if ret == 0 {
        tx := tx + [p];
      }
    }

    /**
     * The fragmentation loop: it stops at the first failed write, so the frames written are the first `writesOk` of the
     * message's fragments.
     */
    method WriteFrames(data: array<uint8>, len: nat, writesOk: nat)
      requires HEADER_SIZE <= len <= data.Length
      modifies this`bus
      ensures bus == old(bus) + FramesWritten(canId, data[HEADER_SIZE..len], writesOk)
      ensures var count := (len - 20 + 7) / 8; |bus| == |old(bus)| + (if writesOk < count then writesOk else count)
    {
      ghost var payload := data[HEADER_SIZE..len];
      ghost var fs := Fragments(canId, payload);
      FragmentsIndexed(canId, payload);
      var dataLen := len - HEADER_SIZE;
      var count := dataLen / FRAME_DATA;
      if dataLen % FRAME_DATA != 0 {
        count := count + 1;
      }
      var i := 0;
      while i < count
        invariant i <= count == |fs| && i <= writesOk
        invariant i < count ==> dataLen == |payload| - FRAME_DATA * i
        invariant bus == old(bus) + fs[..i]
      {
        var frame := CutFrame(data, len, i, dataLen);
        assert frame == fs[i];
        if i == writesOk {
          break;
        }
        bus := bus + [frame];
        dataLen := dataLen - frame.dlc;
        i := i + 1;
      }
    }

    /** The `i`-th frame, when `dataLen` bytes are left from there on. */
    method CutFrame(data: array<uint8>, len: nat, i: nat, dataLen: nat) returns (frame: CanFrame)
      requires HEADER_SIZE <= len <= data.Length
      requires 0 < dataLen == len - HEADER_SIZE - FRAME_DATA * i
      ensures frame == FragmentAt(canId, data[HEADER_SIZE..len], i)
    {
      var dlc := if dataLen > FRAME_DATA then FRAME_DATA else dataLen;
      var from := HEADER_SIZE + i * FRAME_DATA;
      frame := CanFrame(canId, dlc, data[from..from + dlc]);
      ghost var item := data[..len];
      assert data[HEADER_SIZE..len] == item[HEADER_SIZE..] && frame.data == item[from..from + dlc];
      PayloadSlice(item, FRAME_DATA * i, dlc);
    }

    static lemma PayloadSlice(item: seq<uint8>, at: nat, n: nat)
      requires HEADER_SIZE + at + n <= |item|
      ensures item[HEADER_SIZE + at..HEADER_SIZE + at + n] == item[HEADER_SIZE..][at..at + n]
    {
    }

    /** The first packet of a queue, as it lies in a buffer after a dequeue. */
    lemma InBuffer(data: seq<uint8>, p: Packet)
      requires data == Encode(p) && p.Sound()
      ensures HEADER_SIZE <= |data| && data[1] == p.hdr.retryCounts && Word(data[3], data[2]) == p.hdr.timeouts
      ensures UnpackTime(data[4..HEADER_SIZE]) == p.hdr.time && data[HEADER_SIZE..] == p.payload
    {
      PacketRoundTrip(p);
    }

    /** The header update in place: one try less and a new stamp, everything else as it was. */
    method Restamp(data: array<uint8>, len: nat, now: Time, ghost p: Packet)
      requires HEADER_SIZE <= len <= data.Length && data[..len] == Encode(p) && p.Sound() && p.hdr.retryCounts > 1
      modifies data
      ensures data[..len] == Encode(p.Again(now))
    {
      var stamp := PackTime(now);
      forall i | 0 <= i < 16 {
        data[4 + i] := stamp[i];
      }
      data[1] := data[1] - 1;
      AgainBytes(p, now, data[..len]);
    }

    /** Which bytes of an encoded packet `Again` changes. */
    lemma AgainBytes(p: Packet, now: Time, after: seq<uint8>)
      requires p.hdr.retryCounts > 1 && |after| == |Encode(p)|
      requires after[1] == Encode(p)[1] - 1
      requires forall i | 0 <= i < 16 :: after[4 + i] == PackTime(now)[i]
      requires forall i | 0 <= i < |after| && i != 1 && !(4 <= i < HEADER_SIZE) :: after[i] == Encode(p)[i]
      ensures after == Encode(p.Again(now))
    {
      forall i | 0 <= i < |after|
        ensures after[i] == Encode(p.Again(now))[i]
      {
        if 4 <= i < HEADER_SIZE {
          assert after[4 + (i - 4)] == PackTime(now)[i - 4];
        }
      }
    }

    /**
     * One turn of `tx_thread_func`: the oldest message is written, as far as the socket allows, and goes to the
     * waiting queue with one try less if it has any left and there is room.
     */
    method TxTurn(data: array<uint8>, now: Time, writesOk: nat)
      requires Valid() && data !in Repr && data.Length == MAX_DATA_SIZE && InRange(now)
      modifies this`tx, this`waiting, this`bus, data, txQueue`tail, retransQueue.Repr
      ensures Valid()
      ensures View() == AfterTxTurn(old(View()), canId, now, writesOk)
    {
      var ret, len := TakeTx(data);
      if ret != 0 {
        return;
      }
      ghost var p := old(tx)[0];
      assert data[HEADER_SIZE..len] == p.payload by {
        InBuffer(data[..len], p);
        assert data[HEADER_SIZE..len] == data[..len][HEADER_SIZE..];
      }
      WriteFrames(data, len, writesOk);
      Retire(data, len, now, p);
    }

    /** After the writes: another try, if the budget allows one. */
    method Retire(data: array<uint8>, len: nat, now: Time, ghost p: Packet)
      requires Valid() && data !in Repr && len <= data.Length && data[..len] == Encode(p) && p.Sound() && InRange(now)
      modifies this`waiting, data, retransQueue.Repr
      ensures Valid()
      ensures waiting == if p.hdr.retryCounts > 1 then Append(old(waiting), p.Again(now)) else old(waiting)
    {
      ghost var held, items := retransQueue.Contents(), txQueue.Contents();
      InBuffer(data[..len], p);
      if data[1] - 1 > 0 {
        Restamp(data, len, now, p);
        assert retransQueue.Contents() == held && txQueue.Contents() == items;
        Requeue(data, len, p.Again(now));
      }
    }

    method TakeTx(data: array<uint8>) returns (ret: int, len: nat)
      requires Valid() && data !in Repr && data.Length == MAX_DATA_SIZE
      modifies this`tx, data, txQueue`tail
      ensures Valid()
      ensures ret == if old(tx) == [] then -1 else 0
      ensures ret != 0 ==> tx == []
      ensures ret == 0 ==>
        && tx == old(tx)[1..] && old(tx)[0].Sound()
        && len <= data.Length && data[..len] == Encode(old(tx)[0])
    {
      ghost var items, held := txQueue.Contents(), retransQueue.Contents();
      ret, len := txQueue.Dequeue(data);
      assert retransQueue.Contents() == held;
      if ret == 0 {
        HoldsPop(items, tx);
        tx := tx[1..];
      }
    }

    /** Back into the waiting queue, or dropped: the answer of `enqueue` is ignored. */
    method Requeue(data: array<uint8>, len: nat, ghost p: Packet)
      requires Valid() && data !in Repr && len <= data.Length && data[..len] == Encode(p) && p.Sound()
      modifies this`waiting, retransQueue.Repr
      ensures Valid() && waiting == Append(old(waiting), p)
    {
      ghost var held, items := retransQueue.Contents(), txQueue.Contents();
      HoldsPush(held, waiting, p);
      var ret := retransQueue.Enqueue(data, len);
      assert txQueue.Contents() == items;
      if ret == 0 {
        waiting := waiting + [p];
      }
    }

    /**
     * One turn of `check_retransmissions`: the message taken leaves its own queue with room, so only the transmit queue
     * can refuse it here.
     */
    method CheckTurn(data: array<uint8>, now: Time)
      requires Valid() && data !in Repr && data.Length == MAX_DATA_SIZE && InRange(now)
      modifies this`tx, this`waiting, data, txQueue.Repr, retransQueue.Repr
      ensures Valid() && View() == AfterCheckTurn(old(View()), now)
    {
      var ret, len := TakeWaiting(data);
      if ret != 0 {
        return;
      }
      ghost var p := old(waiting)[0];
      if Overdue(data, len, now, p) {
        QueueForTx(data, len, p);
      } else {
        Requeue(data, len, p);
      }
    }

    method TakeWaiting(data: array<uint8>) returns (ret: int, len: nat)
      requires Valid() && data !in Repr && data.Length == MAX_DATA_SIZE
      modifies this`waiting, data, retransQueue`tail
      ensures Valid()
      ensures ret == if old(waiting) == [] then -1 else 0
      ensures ret != 0 ==> waiting == []
      ensures ret == 0 ==>
        && waiting == old(waiting)[1..] && |waiting| < CAPACITY && old(waiting)[0].Sound()
        && len <= data.Length && data[..len] == Encode(old(waiting)[0])
    {
      ghost var items, held := txQueue.Contents(), retransQueue.Contents();
      ret, len := retransQueue.Dequeue(data);
      assert txQueue.Contents() == items;
      if ret == 0 {
        HoldsPop(held, waiting);
        waiting := waiting[1..];
      }
    }

    /** The timeout test on the header as it lies in the buffer. */
    predicate Overdue(data: array<uint8>, len: nat, now: Time, ghost p: Packet)
      requires len <= data.Length && data[..len] == Encode(p) && p.Sound() && InRange(now)
      reads data
      ensures Overdue(data, len, now, p) <==> BeTimeOutMN(now, p.hdr.time, p.hdr.timeouts) == 0
    {
      InBuffer(data[..len], p);
      assert data[4..HEADER_SIZE] == data[..len][4..HEADER_SIZE];
      assert data[2] == data[..len][2] && data[3] == data[..len][3];
      BeTimeOutMN(now, UnpackTime(data[4..HEADER_SIZE]), Word(data[3], data[2])) == 0
    }
  }
}
