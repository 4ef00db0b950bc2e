/**
 * The dispatcher of `cloud_event_task_entry`. Its table cursor `start` is initialised once, before the message
 * loop, and never reset: each message is searched for from where the previous search stopped.
 */
module CloudDispatch {
  import opened Bytes
  import opened QueueSpec
  import opened RingQueue
  import opened Frames

  /** The first index at or after `from` whose entry carries this sign, or the end of the table. */
  function Find(table: seq<uint8>, from: nat, sign: uint8): (i: nat)
    requires from <= |table|
    ensures from <= i <= |table|
    ensures i < |table| ==> table[i] == sign
    ensures forall k | from <= k < i :: table[k] != sign
    decreases |table| - from
  {
    if from == |table| || table[from] == sign then from else Find(table, from + 1, sign)
  }

  /** Where a sign first stands in the table; the end of the table for an unknown sign. */
  function Position(table: seq<uint8>, sign: uint8): nat {
    Find(table, 0, sign)
  }

  /** The entry called for one valid message, if any, given where the search stopped. */
  function Called(table: seq<uint8>, i: nat): Option<nat> {
    if i < |table| then Some(i) else None
  }

  /** The cursor after a run of valid messages. */
  function Cursor(table: seq<uint8>, signs: seq<uint8>): (c: nat)
    ensures c <= |table|
  {
    if signs == [] then 0
    else Find(table, Cursor(table, signs[..|signs| - 1]), signs[|signs| - 1])
  }

  /** What the code calls for each message of a run. */
  function Dispatched(table: seq<uint8>, signs: seq<uint8>): (calls: seq<Option<nat>>)
    ensures |calls| == |signs|
  {
    if signs == [] then []
    else Dispatched(table, signs[..|signs| - 1]) + [Called(table, Cursor(table, signs))]
  }

  /** What a dispatcher without memory would call: the first entry for each sign. */
  function Intended(table: seq<uint8>, signs: seq<uint8>): (calls: seq<Option<nat>>)
    ensures |calls| == |signs|
  {
    if signs == [] then []
    else Intended(table, signs[..|signs| - 1]) + [Called(table, Position(table, signs[|signs| - 1]))]
  }

  lemma {:induction false} CallAt(table: seq<uint8>, signs: seq<uint8>, k: nat)
    requires k < |signs|
    ensures Dispatched(table, signs)[k] == Called(table, Cursor(table, signs[..k + 1]))
  {
    if k == |signs| - 1 {
      assert signs[..k + 1] == signs;
    } else {
      CallAt(table, signs[..|signs| - 1], k);
      assert signs[..|signs| - 1][..k + 1] == signs[..k + 1];
    }
  }

  lemma FoundIff(table: seq<uint8>, from: nat, sign: uint8)
    requires from <= |table|
    ensures Find(table, from, sign) < |table| <==> sign in table[from..]
  {
    var i := Find(table, from, sign);
    if i < |table| {
      assert table[from..][i - from] == sign;
    } else {
      assert forall k | 0 <= k < |table| - from :: table[from..][k] == table[from + k];
    }
  }

  /**
   * A message is dispatched exactly when its sign occurs at or after the cursor left by the messages before it, and to
   * the first such entry.
   */
  lemma DispatchedIff(table: seq<uint8>, signs: seq<uint8>, k: nat)
    requires k < |signs|
    ensures Dispatched(table, signs)[k].Some? <==> signs[k] in table[Cursor(table, signs[..k])..]
    ensures Dispatched(table, signs)[k].Some? ==>
      var c, i := Cursor(table, signs[..k]), Dispatched(table, signs)[k].value;
      c <= i < |table| && table[i] == signs[k] && signs[k] !in table[c..i]
  {
    CallAt(table, signs, k);
    var c := Cursor(table, signs[..k]);
    assert signs[..k + 1][..k] == signs[..k];
    assert Cursor(table, signs[..k + 1]) == Find(table, c, signs[k]);
    FoundIff(table, c, signs[k]);
  }

  lemma {:induction false} CursorMonotone(table: seq<uint8>, signs: seq<uint8>, k: nat)
    requires k <= |signs|
    ensures Cursor(table, signs[..k]) <= Cursor(table, signs)
  {
    if k == |signs| {
      assert signs[..k] == signs;
    } else {
      CursorMonotone(table, signs[..|signs| - 1], k);
      assert signs[..|signs| - 1][..k] == signs[..k];
    }
  }

  /** Over any run the dispatched table indices never go down, and nothing is dispatched after an unknown sign. */
  lemma DispatchOnlyMovesForward(table: seq<uint8>, signs: seq<uint8>, j: nat, k: nat)
    requires j < k < |signs|
    ensures Dispatched(table, signs)[k].Some? ==>
              && Dispatched(table, signs)[j].Some?
              && Dispatched(table, signs)[j].value <= Dispatched(table, signs)[k].value
  {
    CallAt(table, signs, j);
    CallAt(table, signs, k);
    CursorMonotone(table, signs[..k + 1], j + 1);
    assert signs[..k + 1][..j + 1] == signs[..j + 1];
  }

  /** Searching from a later point finds the first entry if that is still ahead, and something else otherwise. */
  lemma FindFrom(table: seq<uint8>, from: nat, sign: uint8)
    requires from <= |table|
    ensures Find(table, from, sign) == Position(table, sign) <==> from <= Position(table, sign)
    ensures Position(table, sign) <= Find(table, from, sign)
  {
  }

  /**
   * Known signs arrive in nondecreasing table order and none arrives after an unknown one. (The position of an unknown
   * sign is the end of the table, so one comparison says both.)
   */
  predicate InTableOrder(table: seq<uint8>, signs: seq<uint8>) {
    forall j, k | 0 <= j < k < |signs| && Position(table, signs[k]) < |table| ::
      Position(table, signs[j]) <= Position(table, signs[k])
  }

  lemma {:induction false} CursorPassesAll(table: seq<uint8>, signs: seq<uint8>, j: nat)
    requires j < |signs|
    ensures Position(table, signs[j]) <= Cursor(table, signs)
  {
    var front := signs[..|signs| - 1];
    FindFrom(table, Cursor(table, front), signs[|signs| - 1]);
    if j < |signs| - 1 {
      CursorPassesAll(table, front, j);
    }
  }

  /** The persistent cursor does what was intended exactly on runs that follow the order of the table. */
  lemma {:induction false} IntendedIffInTableOrder(table: seq<uint8>, signs: seq<uint8>)
    ensures Dispatched(table, signs) == Intended(table, signs) <==> InTableOrder(table, signs)
  {
    if signs != [] {
      var front, last := signs[..|signs| - 1], signs[|signs| - 1];
      IntendedIffInTableOrder(table, front);
      OneMoreAsIntended(table, front, last);
      OrderExtends(table, front, last);
      assert front + [last] == signs;
    }
  }

  /**
   * After a run that went as intended, the next message does too exactly if it is unknown or not behind any earlier
   * one.
   */
  lemma OneMoreAsIntended(table: seq<uint8>, front: seq<uint8>, last: uint8)
    ensures Dispatched(table, front + [last]) == Intended(table, front + [last]) <==>
            Dispatched(table, front) == Intended(table, front) && NotBehind(table, front, last)
  {
    var signs, c := front + [last], Cursor(table, front);
    assert signs[..|front|] == front;
    FindFrom(table, c, last);
    LastsDecide(Dispatched(table, front), Called(table, Find(table, c, last)),
                Intended(table, front), Called(table, Position(table, last)));
    if Dispatched(table, front) == Intended(table, front) {
      NotBehindIff(table, front, last);
    }
  }

  predicate NotBehind(table: seq<uint8>, front: seq<uint8>, last: uint8) {
    Position(table, last) < |table| ==>
      forall j | 0 <= j < |front| :: Position(table, front[j]) <= Position(table, last)
  }

  lemma NotBehindIff(table: seq<uint8>, front: seq<uint8>, last: uint8)
    requires Dispatched(table, front) == Intended(table, front)
    ensures NotBehind(table, front, last) <==>
            (Position(table, last) < |table| ==> Cursor(table, front) <= Position(table, last))
  {
    forall j | 0 <= j < |front|
      ensures Position(table, front[j]) <= Cursor(table, front)
    {
      CursorPassesAll(table, front, j);
    }
    if front != [] {
      CursorAtLast(table, front);
    }
  }

  lemma LastsDecide(a: seq<Option<nat>>, x: Option<nat>, b: seq<Option<nat>>, y: Option<nat>)
    requires |a| == |b|
    ensures a + [x] == b + [y] <==> a == b && x == y
  {
    if a + [x] == b + [y] {
      assert a == (a + [x])[..|a|] == (b + [y])[..|b|] == b;
      assert x == (a + [x])[|a|] == (b + [y])[|b|] == y;
    }
  }

  lemma CursorAtLast(table: seq<uint8>, signs: seq<uint8>)
    requires signs != [] && Dispatched(table, signs) == Intended(table, signs)
    ensures Cursor(table, signs) == Position(table, signs[|signs| - 1])
  {
    var k := |signs| - 1;
    assert Dispatched(table, signs)[k] == Called(table, Cursor(table, signs));
    assert Intended(table, signs)[k] == Called(table, Position(table, signs[k]));
  }

  lemma OrderExtends(table: seq<uint8>, front: seq<uint8>, last: uint8)
    ensures InTableOrder(table, front + [last]) <==> InTableOrder(table, front) && NotBehind(table, front, last)
  {
    var signs := front + [last];
    assert forall j | 0 <= j < |front| :: signs[j] == front[j];
    assert signs[|front|] == last;
    if InTableOrder(table, signs) {
      forall j, k | 0 <= j < k < |front| && Position(table, front[k]) < |table|
        ensures Position(table, front[j]) <= Position(table, front[k])
      {
        assert Position(table, signs[j]) <= Position(table, signs[k]);
      }
    }
  }

  /** So a message for an earlier table entry, or any message after one nobody handles, is never dispatched. */
  lemma {:induction false} EarlierEntryIsLost(table: seq<uint8>, signs: seq<uint8>, k: nat)
    requires 0 < k < |signs| && Position(table, signs[k]) < |table|
    requires table[Position(table, signs[k])] !in table[Position(table, signs[k]) + 1..]
    requires Position(table, signs[k]) < Position(table, signs[k - 1])
    ensures Dispatched(table, signs)[k] == None
  {
    var p, c := Position(table, signs[k]), Cursor(table, signs[..k]);
    CursorPassesAll(table, signs[..k], k - 1);
    DispatchedIff(table, signs, k);
    assert table[c..] == table[p + 1..][c - (p + 1)..];
  }

  /** The thread of `cloud_event_task_entry`, one reused 256-byte buffer and one cursor. */
  class CloudEventTask {
    const eventQueue: ThreadSafeQueue
    const buf: array<uint8>
    const table: seq<uint8>
    var start: nat
    /** The signs of the messages that passed validation, and the table entries called for them. */
    ghost var valid: seq<uint8>
    var calls: seq<Option<nat>>

    ghost predicate Valid()
      reads this, buf, eventQueue, eventQueue.Repr
    {
      && eventQueue.Valid() && eventQueue.slotSize == 256 && this !in eventQueue.Repr
      && buf !in eventQueue.Repr && buf.Length == 256
      && start == Cursor(table, valid) && calls == Dispatched(table, valid)
    }

    constructor (queue: ThreadSafeQueue, table: seq<uint8>)
      requires queue.Valid() && queue.slotSize == 256
      ensures Valid() && eventQueue == queue && this.table == table && valid == []
    {
      eventQueue, this.table := queue, table;
      buf := new uint8[256];
      start, valid, calls := 0, [], [];
    }

    /** What the buffer holds after `item` is dequeued into it: the item, then whatever was there before. */
    ghost function Overlaid(item: Item): seq<uint8>
      requires |item| <= buf.Length
      reads buf
    {
      item + buf[|item|..]
    }

    /**
     * One turn of the loop. Unlike the fkz9 loop, the declared length need not be the length received, so the
     * verdict is on the buffer with its stale tail; a frame that reads outside the buffer is excluded.
     */
    method EventTurn()
      requires Valid()
      requires eventQueue.Contents() != [] ==> Readable(Overlaid(eventQueue.Contents()[0]))
      modifies this`start, this`valid, this`calls, buf, eventQueue`tail
      ensures Valid()
      ensures old(eventQueue.Contents()) == [] ==> valid == old(valid)
      ensures old(eventQueue.Contents()) != [] ==>
        && eventQueue.Contents() == old(eventQueue.Contents())[1..]
        && buf[..] == old(Overlaid(eventQueue.Contents()[0]))
        && Readable(buf[..])
        && valid == old(valid) + (if CloudAccepts(buf[..]) then [Sign(buf[..])] else [])
    {
      var ret := TakeNext();
      if ret != 0 {
        return;
      }
      var ok := Validate();
      if ok {
        Search(buf[4]);
      }
    }

    /** The dequeue into the reused buffer. */
    method TakeNext() returns (ret: int)
      requires Valid()
      modifies buf, eventQueue`tail
      ensures Valid()
      ensures ret == if old(eventQueue.Contents()) == [] then -1 else 0
      ensures ret == 0 ==>
        && eventQueue.Contents() == old(eventQueue.Contents())[1..]
        && |old(eventQueue.Contents())[0]| <= buf.Length && buf[..] == old(Overlaid(eventQueue.Contents()[0]))
    {
      var len;
      ret, len := eventQueue.Dequeue(buf);
      if ret == 0 {
        assert buf[..] == buf[..len] + buf[len..];
      }
    }

    /** The header and checksum tests, on whatever the buffer holds. */
    method Validate() returns (ok: bool)
      requires buf.Length == 256 && Readable(buf[..])
      ensures ok == CloudAccepts(buf[..])
    {
      var usLen := Word(buf[2], buf[3]);
      assert usLen == DeclaredLen(buf[..]);
      var crc := CheckSum8(buf, usLen - CRC_SIZE);
      assert buf[..usLen - CRC_SIZE] == buf[..][..usLen - CRC_SIZE];
      var known := (buf[0] == HDR1 && buf[1] == HDR1) || (buf[0] == HDR2 && buf[1] == HDR2);
      return known && crc == Word(buf[usLen - 2], buf[usLen - 1]);
    }

    /** The inner `for` loop: it starts wherever `start` was left, and leaves it where it stops. */
    method Search(sign: uint8)
      requires start == Cursor(table, valid) && calls == Dispatched(table, valid)
      modifies this`start, this`valid, this`calls
      ensures valid == old(valid) + [sign]
      ensures start == Cursor(table, valid) && calls == Dispatched(table, valid)
    {
      while start != |table| && table[start] != sign
        invariant start <= |table| && valid == old(valid) && calls == old(calls)
        invariant Find(table, start, sign) == Find(table, old(start), sign)
        decreases |table| - start
      {
        start := start + 1;
      }
      calls := calls + [if start != |table| then Some(start) else None];
      valid := valid + [sign];
      assert valid[..|valid| - 1] == old(valid);
    }
  }
}
