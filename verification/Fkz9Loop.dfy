/** `fkz9_comm.c`: the MQTT callback that fills the event queue, and the event loop that empties it. */
module Fkz9Loop {
  import opened Bytes
  import opened QueueSpec
  import opened RingQueue
  import opened Frames
  import opened Fkz9Spec
  import opened TcpClients
  import Splitter

  class Fkz9CommContext {
    const eventQueue: ThreadSafeQueue
    const client: TcpClient
    /** The loop's one reused buffer; bytes of earlier, longer frames stay behind in it. */
    const buf: array<uint8>
    var isInit: bool
    /** Frames dequeued so far, and what was passed to `client->ops->send` for them. */
    ghost var processed: seq<Item>
    ghost var handed: seq<Item>
    const info: seq<uint8>

    ghost const Repr: set<object>

    /** The queues, the client and the buffer are well formed and apart from each other. */
    ghost predicate Apart()
      reads this, Repr
    {
      && this in Repr && buf in Repr
      && eventQueue in Repr && eventQueue.Repr <= Repr
      && client in Repr && client.Repr <= Repr && client.txQueue in Repr && client.txQueue.Repr <= Repr
      && eventQueue.Repr !! client.Repr && this !in eventQueue.Repr + client.Repr
      && buf !in eventQueue.Repr + client.Repr && buf.Length == 1500
      && eventQueue.Valid() && eventQueue.slotSize == MAX_MSG_SIZE && client.Valid()
      && |info| == DEV_INFO_SIZE
    }

    ghost predicate Valid()
      reads this, Repr
    {
      && Apart()
      && AllSelfSized(eventQueue.Contents())
      && Traced(processed, handed, isInit, info)
    }

    constructor (client: TcpClient, info: seq<uint8>)
      requires client.Valid() && |info| == DEV_INFO_SIZE
      ensures Valid() && this.client == client && this.info == info && processed == []
      ensures eventQueue.Contents() == []
    {
      var q := new ThreadSafeQueue(MAX_MSG_SIZE);
      var b := new uint8[1500](_ => 0);
      eventQueue, buf := q, b;
      Repr := {this, b} + q.Repr + client.Repr;
      isInit, processed, handed := false, [], [];
      this.client, this.info := client, info;
    }

    /** The payload of `n` bytes goes through the splitter: it declares another length than its own. */
    predicate Splits(memory: seq<uint8>, n: nat)
      requires HDR_SIZE <= |memory|
    {
      Sign(memory) != HEARTBEAT_REQ && DeclaredLen(memory) != n
    }

    predicate Queues(memory: seq<uint8>, n: nat)
      requires HDR_SIZE <= |memory|
    {
      Sign(memory) != HEARTBEAT_REQ && DeclaredLen(memory) == n
    }

    /**
     * `on_message_cb` on the first `n` bytes at `payload`. A heartbeat request is ignored. A payload that is one
     * declared frame is queued whole, and lost if the queue is full; this is the only producer of the queue, which is
     * why every queued item declares its own size. Any other payload is cut into chunks of the first declared length,
     * which go straight to TCP while other threads do what `turns` says before each attempt; with a declared length
     * of 0 that never ends.
     */
    method OnMessage(payload: array<uint8>, n: nat, turns: seq<seq<Splitter.Meanwhile>>)
      returns (taken: seq<Item>, done: bool, ghost kept: seq<Sent>, ghost offline: nat)
      requires Valid() && payload !in Repr
      requires HDR_SIZE <= n <= payload.Length
      requires Queues(payload[..], n) ==> n <= MAX_MSG_SIZE
      requires Splits(payload[..], n) ==> Splitter.Sendable(payload[..], n, DeclaredLen(payload[..]))
      requires forall turn <- turns :: forall m <- turn :: Splitter.Fits(m)
      modifies eventQueue.Repr, client`isConnected, client`wire, client.txQueue.Repr
      ensures Valid() && processed == old(processed) && handed == old(handed)
      ensures eventQueue.Contents() ==
              if Queues(payload[..], n) && |old(eventQueue.Contents())| < CAPACITY
              then old(eventQueue.Contents()) + [payload[..n]]
              else old(eventQueue.Contents())
      ensures !Splits(payload[..], n) ==> taken == [] && done && client.Outgoing() == old(client.Outgoing())
      ensures Splits(payload[..], n) ==>
        var len := DeclaredLen(payload[..]);
        && client.Outgoing() == old(client.Outgoing()) + Untagged(kept)
        && Splitter.Accounted(kept, taken, offline)
        && (old(client.isConnected) && (forall turn <- turns :: Splitter.KeepsLink(turn)) ==> offline == 0)
        && Splitter.Outcome(payload[..], n, len, turns, taken, done)
    {
      taken, done, kept, offline := [], true, [], 0;
      if payload[4] != HEARTBEAT_REQ {
        var len := Word(payload[2], payload[3]);
        assert len == DeclaredLen(payload[..]);
        if len != n {
          taken, done, kept, offline := Split(payload[..], n, len, turns);
        } else {
          Queue(payload, n);
        }
      }
    }

    method Queue(payload: array<uint8>, n: nat)
      requires Valid() && payload !in Repr && n <= payload.Length && SelfSized(payload[..n])
      modifies eventQueue.Repr
      ensures Valid() && client.Outgoing() == old(client.Outgoing())
      ensures eventQueue.Contents() ==
              if |old(eventQueue.Contents())| < CAPACITY then old(eventQueue.Contents()) + [payload[..n]]
              else old(eventQueue.Contents())
    {
      ghost var queued, stream := eventQueue.Contents(), client.Outgoing();
      var ret := eventQueue.Enqueue(payload, n);
      assert client.Valid() && client.Outgoing() == stream;
      assert eventQueue.Contents() == if ret == 0 then queued + [payload[..n]] else queued;
    }

    /** The splitter, seen from the event queue. */
    method Split(memory: seq<uint8>, n: nat, len: nat, turns: seq<seq<Splitter.Meanwhile>>)
      returns (taken: seq<Item>, done: bool, ghost kept: seq<Sent>, ghost offline: nat)
      requires Valid() && Splitter.Sendable(memory, n, len)
      requires forall turn <- turns :: forall m <- turn :: Splitter.Fits(m)
      modifies client`isConnected, client`wire, client.txQueue.Repr
      ensures Valid() && eventQueue.Contents() == old(eventQueue.Contents())
      ensures client.Outgoing() == old(client.Outgoing()) + Untagged(kept)
      ensures Splitter.Accounted(kept, taken, offline)
      ensures old(client.isConnected) && (forall turn <- turns :: Splitter.KeepsLink(turn)) ==> offline == 0
      ensures Splitter.Outcome(memory, n, len, turns, taken, done)
    {
      var answers;
      taken, done, answers, kept, offline := Splitter.SplitPayload(client, memory, n, len, turns);
    }

    /** The client keeps what it is handed now, with `queued` items in its queue. */
    predicate HasRoom(queued: nat)
      reads client
    {
      client.isConnected && queued < CAPACITY
    }

    /** Hands `data[..len]` to the TCP client; the answer is not looked at. */
    method Forward(data: array<uint8>, len: nat)
      requires client.Valid() && data !in client.Repr && this !in client.Repr
      requires len <= data.Length && len <= TX_SLOT
      modifies client.txQueue.Repr, this`handed
      ensures client.Valid() && data[..] == old(data[..])
      ensures handed == old(handed) + [data[..len]]
      ensures client.Outgoing() ==
              if HasRoom(old(|client.txQueue.Contents()|)) then old(client.Outgoing()) + [data[..len]]
              else old(client.Outgoing())
    {
      var ret := client.Send(data, len);
      handed := handed + [data[..len]];
    }

    /** `func_dev_info_resp`: the device-info frame, built in a buffer of its own. */
    method DevInfoResp()
      requires client.Valid() && this !in client.Repr && |info| == DEV_INFO_SIZE
      modifies client.txQueue.Repr, this`handed
      ensures client.Valid()
      ensures handed == old(handed) + [DevInfoFrame(info)]
      ensures client.Outgoing() ==
              if HasRoom(old(|client.txQueue.Contents()|)) then old(client.Outgoing()) + [DevInfoFrame(info)]
              else old(client.Outgoing())
    {
      var b := new uint8[128](_ => 0xFF);
      var len := BuildFrame(b, DEV_INFO_RESP, info);
      Forward(b, len);
    }

    /** The validation part of the loop body, on the reused buffer. */
    method Validate(len: nat) returns (ok: bool)
      requires len <= buf.Length && HDR_SIZE <= len && SelfSized(buf[..len])
      ensures ok == Fkz9Accepts(buf[..len])
    {
      var item := buf[..len];
      if (buf[0] != HDR1 || buf[1] != HDR1) && (buf[0] != HDR2 || buf[1] != HDR2) {
        return false;
      }
      var usLen := Word(buf[2], buf[3]);
      assert usLen == DeclaredLen(item) == len;
      var crc := CheckSum8(buf, usLen - CRC_SIZE);
      assert buf[..usLen - CRC_SIZE] == item[..usLen - CRC_SIZE];
      return AsInt16(crc) == Word(buf[usLen - 2], buf[usLen - 1]);
    }

    /** What the loop body does with the frame in the first `len` bytes of the buffer. */
    method Handle(len: nat)
      requires client.Valid() && this !in client.Repr && buf !in client.Repr && |info| == DEV_INFO_SIZE
      requires len <= buf.Length && SelfSized(buf[..len])
      modifies this`isInit, this`handed, client.txQueue.Repr
      ensures client.Valid()
      ensures handed == old(handed) + Output(buf[..len], old(isInit), info)
      ensures isInit == InitAfter(buf[..len], old(isInit))
      ensures client.Outgoing() ==
              if HasRoom(old(|client.txQueue.Contents()|))
              then old(client.Outgoing()) + Output(buf[..len], old(isInit), info)
              else old(client.Outgoing())
    {
      ghost var item := buf[..len];
      var ok := Validate(len);
      assert Word(buf[2], buf[3]) == DeclaredLen(item) == len && buf[4] == Sign(item);
      if ok {
        if buf[4] == HEARTBEAT_RESP {
          if !isInit {
            DevInfoResp();
            isInit := true;
          }
        } else {
          Forward(buf, Word(buf[2], buf[3]));
        }
      }
    }

    /**
     * One turn of `fkz9_event_task_entry`. Whatever stale bytes the buffer holds, the verdict and the output are
     * those of the dequeued frame alone; the output joins the outgoing stream exactly while TCP is connected with
     * room, and is lost otherwise.
     */
    method EventTurn()
      requires Valid()
      modifies this`isInit, this`processed, this`handed, buf, eventQueue`tail, client.txQueue.Repr
      ensures Valid()
      ensures old(eventQueue.Contents()) == [] ==>
        processed == old(processed) && handed == old(handed) && client.Outgoing() == old(client.Outgoing())
      ensures old(eventQueue.Contents()) != [] ==>
        && eventQueue.Contents() == old(eventQueue.Contents())[1..]
        && processed == old(processed) + [old(eventQueue.Contents())[0]]
        && handed == old(handed) + Output(old(eventQueue.Contents())[0], old(isInit), info)
        && client.Outgoing() ==
           (if HasRoom(old(|client.txQueue.Contents()|))
            then old(client.Outgoing()) + Output(old(eventQueue.Contents())[0], old(isInit), info)
            else old(client.Outgoing()))
    {
      var ret, len := TakeNext();
      if ret != 0 {
        return;
      }
      Work(len);
    }

    /** The dequeue into the reused buffer. */
    method TakeNext() returns (ret: int, len: nat)
      requires Valid()
      modifies buf, eventQueue`tail
      ensures Valid()
      ensures ret == if old(eventQueue.Contents()) == [] then -1 else 0
      ensures ret != 0 ==> eventQueue.Contents() == []
      ensures ret == 0 ==>
        && eventQueue.Contents() == old(eventQueue.Contents())[1..]
        && len <= buf.Length && buf[..len] == old(eventQueue.Contents())[0] && SelfSized(buf[..len])
    {
      ghost var queued := eventQueue.Contents();
      ret, len := eventQueue.Dequeue(buf);
      if ret == 0 {
        assert SelfSized(queued[0]);
      }
    }

    /** `Handle`, seen from the queue: the frames still waiting are left alone. */
    method HandleAside(len: nat)
      requires Apart() && len <= buf.Length && SelfSized(buf[..len])
      modifies this`isInit, this`handed, client.txQueue.Repr
      ensures Apart() && eventQueue.Contents() == old(eventQueue.Contents())
      ensures handed == old(handed) + Output(buf[..len], old(isInit), info)
      ensures isInit == InitAfter(buf[..len], old(isInit))
      ensures client.Outgoing() ==
              if HasRoom(old(|client.txQueue.Contents()|))
              then old(client.Outgoing()) + Output(buf[..len], old(isInit), info)
              else old(client.Outgoing())
    {
      Handle(len);
    }

    /** The rest of the turn. */
    method Work(len: nat)
      requires Valid() && len <= buf.Length && SelfSized(buf[..len])
      modifies this`isInit, this`processed, this`handed, client.txQueue.Repr
      ensures Valid() && eventQueue.Contents() == old(eventQueue.Contents())
      ensures processed == old(processed) + [buf[..len]]
      ensures handed == old(handed) + Output(buf[..len], old(isInit), info)
      ensures client.Outgoing() ==
              if HasRoom(old(|client.txQueue.Contents()|))
              then old(client.Outgoing()) + Output(buf[..len], old(isInit), info)
              else old(client.Outgoing())
    {
      TracedExtend(processed, handed, isInit, buf[..len], info);
      processed := processed + [buf[..len]];
      HandleAside(len);
    }
  }
}
