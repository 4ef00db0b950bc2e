/** `queue.c`: a ring of 64 byte buffers, each with a 16-bit size, updated in place. */
module RingQueue {
  import opened Bytes
  import opened QueueSpec

  /** How many slots lie between `tail` and `head`, going round the ring. */
  function Count(tail: nat, head: nat): nat
    requires tail < MAX_SEGMENTS && head < MAX_SEGMENTS
  {
    (head - tail) % MAX_SEGMENTS
  }

  function Slot(tail: nat, i: nat): nat {
    (tail + i) % MAX_SEGMENTS
  }

  lemma CountCases(tail: nat, head: nat)
    requires tail < MAX_SEGMENTS && head < MAX_SEGMENTS
    ensures Count(tail, head) == if tail <= head then head - tail else head + MAX_SEGMENTS - tail
  {
  }

  lemma SlotCases(tail: nat, i: nat)
    requires tail < MAX_SEGMENTS && i < MAX_SEGMENTS
    ensures Slot(tail, i) == if tail + i < MAX_SEGMENTS then tail + i else tail + i - MAX_SEGMENTS
  {
  }

  /** The source's two tests on the indices say exactly "63 items" and "no items". */
  lemma FullAndEmpty(tail: nat, head: nat)
    requires tail < MAX_SEGMENTS && head < MAX_SEGMENTS
    ensures (head + 1) % MAX_SEGMENTS == tail <==> Count(tail, head) == CAPACITY
    ensures tail == head <==> Count(tail, head) == 0
    ensures Count(tail, head) <= CAPACITY
    ensures Slot(tail, Count(tail, head)) == head
  {
  }

  lemma CountPush(tail: nat, head: nat)
    requires tail < MAX_SEGMENTS && head < MAX_SEGMENTS && (head + 1) % MAX_SEGMENTS != tail
    ensures Count(tail, (head + 1) % MAX_SEGMENTS) == Count(tail, head) + 1
    ensures forall i: nat :: i < Count(tail, head) ==> Slot(tail, i) != head
  {
    CountCases(tail, head);
    CountCases(tail, (head + 1) % MAX_SEGMENTS);
    forall i: nat | i < Count(tail, head)
      ensures Slot(tail, i) != head
    {
      SlotCases(tail, i);
    }
  }

  lemma SlotNext(tail: nat, i: nat)
    requires tail < MAX_SEGMENTS
    ensures Slot((tail + 1) % MAX_SEGMENTS, i) == Slot(tail, i + 1)
  {
    if tail == MAX_SEGMENTS - 1 {
      assert tail + (i + 1) == i + MAX_SEGMENTS;
    }
  }

  lemma CountPop(tail: nat, head: nat)
    requires tail < MAX_SEGMENTS && head < MAX_SEGMENTS && tail != head
    ensures Count((tail + 1) % MAX_SEGMENTS, head) == Count(tail, head) - 1
    ensures forall i: nat {:trigger Slot((tail + 1) % MAX_SEGMENTS, i)} ::
              Slot((tail + 1) % MAX_SEGMENTS, i) == Slot(tail, i + 1)
  {
    CountCases(tail, head);
    CountCases((tail + 1) % MAX_SEGMENTS, head);
    forall i: nat {:trigger Slot((tail + 1) % MAX_SEGMENTS, i)}
      ensures Slot((tail + 1) % MAX_SEGMENTS, i) == Slot(tail, i + 1)
    {
      SlotNext(tail, i);
    }
  }

  class ThreadSafeQueue {
    const slotSize: nat
    const buffers: seq<array<uint8>>
    const sizes: array<uint16>
    var head: nat
    var tail: nat
    ghost const Repr: set<object>

    /** The part of the invariant that no method can change. */
    ghost predicate Shape() {
      && |buffers| == MAX_SEGMENTS && sizes.Length == MAX_SEGMENTS
      && this in Repr && sizes in Repr
      && (forall i | 0 <= i < MAX_SEGMENTS :: buffers[i] in Repr && buffers[i].Length == slotSize)
      && (forall i, j | 0 <= i < j < MAX_SEGMENTS :: buffers[i] != buffers[j])
    }

    ghost predicate Valid()
      reads this, Repr
    {
      && Shape()
      && head < MAX_SEGMENTS && tail < MAX_SEGMENTS
      && (forall i: nat | i < Count(tail, head) :: sizes[Slot(tail, i)] <= slotSize)
    }

    /** The bytes that slot `k` holds; a size never written counts as the whole slot. */
    ghost function Stored(k: nat): Item
      requires Shape() && k < MAX_SEGMENTS
      reads this, Repr
    {
      var b := buffers[k];
      b[..if sizes[k] <= slotSize then sizes[k] else slotSize]
    }

    /** The queue as the sequence of byte strings still inside, oldest first. */
    ghost function Contents(): (q: seq<Item>)
      requires Valid()
      reads this, Repr
      ensures |q| <= CAPACITY && forall i | 0 <= i < |q| :: |q[i]| <= slotSize
    {
      var t := tail;
      seq(Count(tail, head), i requires 0 <= i reads this, Repr => Stored(Slot(t, i)))
    }

    /** `init_queue`. Its `bzero(sizes, 64)` clears 64 bytes, that is only the first 32 sizes. */
    constructor (size: nat)
      ensures Valid() && Contents() == [] && slotSize == size
      ensures fresh(Repr)
    {
      var bufs: seq<array<uint8>> := [];
      for i := 0 to MAX_SEGMENTS
        invariant |bufs| == i
        invariant forall k | 0 <= k < i :: bufs[k].Length == size && fresh(bufs[k])
        invariant forall j, k | 0 <= j < k < i :: bufs[j] != bufs[k]
      {
        var b := new uint8[size](_ => 0);
        bufs := bufs + [b];
      }
      var words := new uint16[MAX_SEGMENTS];
      for i := 0 to MAX_SEGMENTS / 2 {
        words[i] := 0;
      }
      slotSize, buffers, sizes := size, bufs, words;
      head, tail := 0, 0;
      Repr := {this, words} + set b | b in bufs;
    }

    /** `enqueue`: refuses exactly when 63 items are inside, otherwise appends the caller's bytes. */
    method Enqueue(data: array<uint8>, len: nat) returns (ret: int)
      requires Valid() && data !in Repr
      requires len <= data.Length && len <= slotSize && len < 0x1_0000
      modifies this`head, sizes, buffers
      ensures Valid()
      ensures ret == if |old(Contents())| < CAPACITY then 0 else -1
      ensures Contents() == if ret == 0 then old(Contents()) + [data[..len]] else old(Contents())
    {
      FullAndEmpty(tail, head);
      var next := (head + 1) % MAX_SEGMENTS;
      if next == tail {
        return -1;
      }
      CountPush(tail, head);
      ghost var before := Contents();
      FillSlot(data, len);
      head := next;
      assert Slot(tail, |before|) == old(head);
      assert Contents() == before + [data[..len]];
      return 0;
    }

    /** The bytes and their number go to the free slot, which the live part of the ring does not see. */
    method FillSlot(data: array<uint8>, len: nat)
      requires Valid() && data !in Repr && (head + 1) % MAX_SEGMENTS != tail
      requires len <= data.Length && len <= slotSize && len < 0x1_0000
      modifies sizes, buffers
      ensures Valid() && Contents() == old(Contents())
      ensures sizes[head] == len && Stored(head) == data[..len]
    {
      CountPush(tail, head);
      ghost var before := Contents();
      forall i | 0 <= i < len {
        buffers[head][i] := data[i];
      }
      sizes[head] := len;
      assert buffers[head][..len] == data[..len];
      forall i: nat | i < |before|
        ensures Stored(Slot(tail, i)) == before[i]
      {
        assert buffers[Slot(tail, i)] != buffers[head];
        assert buffers[Slot(tail, i)][..] == old(buffers[Slot(tail, i)][..]);
      }
    }

    /** The bytes of the oldest item. */
    method CopyOut(data: array<uint8>) returns (len: nat)
      requires Valid() && data !in Repr && Contents() != [] && |Contents()[0]| <= data.Length
      modifies data
      ensures Valid() && Contents() == old(Contents())
      ensures len == |Contents()[0]| && data[..len] == Contents()[0] && data[len..] == old(data[..])[len..]
    {
      ghost var oldest := Contents()[0];
      assert oldest == buffers[tail][..sizes[tail]];
      forall i | 0 <= i < sizes[tail] {
        data[i] := buffers[tail][i];
      }
      len := sizes[tail];
      assert data[..len] == oldest;
    }

    /** The oldest item is let go of. */
    method Advance()
      requires Valid() && tail != head
      modifies this`tail
      ensures Valid() && old(Contents()) != [] && Contents() == old(Contents())[1..]
    {
      CountPop(tail, head);
      FullAndEmpty(tail, head);
      ghost var before := Contents();
      tail := (tail + 1) % MAX_SEGMENTS;
      assert forall i: nat | i < |before| - 1 :: Stored(Slot(tail, i)) == before[i + 1];
    }

    /** `dequeue`: the oldest item into the caller's buffer, whose remaining bytes keep their old values. */
    method Dequeue(data: array<uint8>) returns (ret: int, len: nat)
      requires Valid() && data !in Repr
      requires Contents() != [] ==> |Contents()[0]| <= data.Length
      modifies this`tail, data
      ensures Valid()
      ensures ret == if old(Contents()) == [] then -1 else 0
      ensures ret != 0 ==> Contents() == [] && data[..] == old(data[..])
      ensures ret == 0 ==>
        && Contents() == old(Contents())[1..]
        && len == |old(Contents())[0]| <= data.Length
        && data[..len] == old(Contents())[0]
        && data[len..] == old(data[..])[len..]
    {
      FullAndEmpty(tail, head);
      if tail == head {
        return -1, 0;
      }
      len := CopyOut(data);
      Advance();
      ret := 0;
    }
  }
}
