/** `tcp_client.c`: sending queues the bytes while connected; a sender thread drains the queue onto the socket. */
module TcpClients {
  import opened Bytes
  import opened QueueSpec
  import opened RingQueue

  const TX_SLOT: nat := 1400

  /** Items that fit a slot of the TCP queue. */
  predicate AllFit(items: seq<Item>) {
    forall i | 0 <= i < |items| :: |items[i]| <= TX_SLOT
  }

  /** Who handed an item to the client. */
  datatype Tag = FromLoop | FromSplitter | FromOther

  datatype Sent = Sent(tag: Tag, item: Item)

  /** The items of one producer, in order. */
  function Items(tag: Tag, s: seq<Sent>): seq<Item> {
    if s == [] then []
    else Items(tag, s[..|s| - 1]) + (if s[|s| - 1].tag == tag then [s[|s| - 1].item] else [])
  }

  lemma ItemsExtend(tag: Tag, s: seq<Sent>, x: Sent)
    ensures Items(tag, s + [x]) == Items(tag, s) + (if x.tag == tag then [x.item] else [])
  {
    assert (s + [x])[..|s|] == s;
  }

  lemma {:induction false} ItemsAppend(tag: Tag, a: seq<Sent>, b: seq<Sent>)
    ensures Items(tag, a + b) == Items(tag, a) + Items(tag, b)
  {
    if b == [] {
      assert a + b == a;
    } else {
      assert (a + b)[..|a + b| - 1] == a + b[..|b| - 1];
      ItemsAppend(tag, a, b[..|b| - 1]);
    }
  }

  function Untagged(s: seq<Sent>): seq<Item> {
    seq(|s|, i requires 0 <= i < |s| => s[i].item)
  }

  class TcpClient {
    var isConnected: bool
    const txQueue: ThreadSafeQueue
    /** Everything given to `bufferevent_write`, in order. */
    var wire: seq<Item>

    ghost const Repr: set<object>

    ghost predicate Valid()
      reads this, Repr, txQueue, txQueue.Repr
    {
      && this in Repr && txQueue in Repr && txQueue.Repr <= Repr && this !in txQueue.Repr
      && txQueue.Valid() && txQueue.slotSize == TX_SLOT
    }

    /** Items already on the wire followed by those still queued. */
    ghost function Outgoing(): seq<Item>
      requires Valid()
      reads this, Repr, txQueue, txQueue.Repr
    {
      wire + txQueue.Contents()
    }

    constructor ()
      ensures Valid() && !isConnected && Outgoing() == []
      ensures fresh(Repr)
    {
      var q := new ThreadSafeQueue(TX_SLOT);
      txQueue, isConnected, wire := q, false, [];
      Repr := {this} + q.Repr;
    }

    /**
     * `tcp_client_send`: 0 and nothing kept while disconnected; otherwise the answer of the queue. So a caller that
     * sees -1 knows the queue was full, but one that sees 0 cannot tell acceptance from a missing connection.
     */
    method Send(data: array<uint8>, len: nat) returns (ret: int)
      requires Valid() && data !in Repr
      requires len <= data.Length && len <= TX_SLOT
      modifies txQueue.Repr
      ensures Valid()
      ensures Outgoing() ==
              if isConnected && old(|txQueue.Contents()|) < CAPACITY
              then old(Outgoing()) + [data[..len]] else old(Outgoing())
      ensures ret == if isConnected && old(|txQueue.Contents()|) == CAPACITY then -1 else 0
      ensures wire == old(wire) && data[..] == old(data[..])
    {
      ret := 0;
      if isConnected {
        ret := txQueue.Enqueue(data, len);
      }
    }

    /** One turn of `tcp_client_send_entry`: the oldest item moves from the queue to the wire, nothing else changes. */
    method SendOne(buf: array<uint8>)
      requires Valid() && buf !in Repr && buf.Length == TX_SLOT
      modifies this`wire, txQueue`tail, buf
      ensures Valid()
      ensures Outgoing() == old(Outgoing())
      ensures wire == old(wire) + (if old(txQueue.Contents()) == [] then [] else [old(txQueue.Contents())[0]])
    {
      var ret, len := txQueue.Dequeue(buf);
      if ret != 0 {
        return;
      }
      wire := wire + [buf[..len]];
    }
  }
}
