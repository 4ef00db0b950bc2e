/** What the fkz9 event loop should do with each queued frame, as a function of the frame alone. */
module Fkz9Spec {
  import opened Bytes
  import opened QueueSpec
  import opened Frames

  const HEARTBEAT_REQ: uint8 := 0x15
  const HEARTBEAT_RESP: uint8 := 0x16
  const DEV_INFO_RESP: uint8 := 0x86
  const DEV_INFO_SIZE: nat := 50
  const MAX_MSG_SIZE: nat := 1400

  /** What `on_message_cb` guarantees about every item it queues: the declared length is the stored size. */
  predicate SelfSized(item: Item) {
    HDR_SIZE <= |item| <= MAX_MSG_SIZE && DeclaredLen(item) == |item|
  }

  predicate AllSelfSized(q: seq<Item>) {
    forall i | 0 <= i < |q| :: SelfSized(q[i])
  }

  /** The device-info frame of `func_dev_info_resp`, for a given 50-byte data segment. */
  function DevInfoFrame(info: seq<uint8>): Item
    requires |info| == DEV_INFO_SIZE
  {
    Frame(DEV_INFO_RESP, info)
  }

  /** What the cloud gets: a frame it accepts, of sign 0x86, with the data segment as it is. */
  lemma DevInfoReads(info: seq<uint8>)
    requires |info| == DEV_INFO_SIZE
    ensures var f := DevInfoFrame(info);
      && Readable(f) && DeclaredLen(f) == |f| == 57 && CloudAccepts(f) && Sign(f) == 0x86 && PayloadOf(f) == info
  {
    BuiltFrameIsAccepted(0x86, info, []);
    assert DevInfoFrame(info) + [] == DevInfoFrame(info);
  }

  /** The frame handed to TCP for one dequeued item, if any. */
  function Output(item: Item, isInit: bool, info: seq<uint8>): seq<Item>
    requires SelfSized(item) && |info| == DEV_INFO_SIZE
  {
    if !Fkz9Accepts(item) then []
    else if Sign(item) != HEARTBEAT_RESP then [item]
    else if !isInit then [DevInfoFrame(info)]
    else []
  }

  /** `is_init` after one dequeued item. */
  predicate InitAfter(item: Item, isInit: bool)
    requires SelfSized(item)
  {
    isInit || (Fkz9Accepts(item) && Sign(item) == HEARTBEAT_RESP)
  }

  /** Whether some accepted heartbeat response was among the items. */
  predicate IsInit(items: seq<Item>)
    requires AllSelfSized(items)
  {
    items != [] && InitAfter(items[|items| - 1], IsInit(items[..|items| - 1]))
  }

  /** Everything handed to TCP while the items were worked off, starting before initialisation. */
  function Trace(items: seq<Item>, info: seq<uint8>): seq<Item>
    requires AllSelfSized(items) && |info| == DEV_INFO_SIZE
  {
    if items == [] then []
    else
      var front, last := items[..|items| - 1], items[|items| - 1];
      Trace(front, info) + Output(last, IsInit(front), info)
  }

  lemma TraceExtend(items: seq<Item>, item: Item, info: seq<uint8>)
    requires AllSelfSized(items) && SelfSized(item) && |info| == DEV_INFO_SIZE
    ensures AllSelfSized(items + [item])
    ensures Trace(items + [item], info) == Trace(items, info) + Output(item, IsInit(items), info)
    ensures IsInit(items + [item]) == InitAfter(item, IsInit(items))
  {
    assert (items + [item])[..|items|] == items;
  }

  /** What was handed to TCP, and whether it is initialised, are what the items worked off call for. */
  predicate Traced(items: seq<Item>, handed: seq<Item>, isInit: bool, info: seq<uint8>)
    requires |info| == DEV_INFO_SIZE
  {
    AllSelfSized(items) && handed == Trace(items, info) && isInit == IsInit(items)
  }

  lemma TracedExtend(items: seq<Item>, handed: seq<Item>, isInit: bool, item: Item, info: seq<uint8>)
    requires |info| == DEV_INFO_SIZE && Traced(items, handed, isInit, info) && SelfSized(item)
    ensures Traced(items + [item], handed + Output(item, isInit, info), InitAfter(item, isInit), info)
  {
    TraceExtend(items, item, info);
  }

  /** The accepted items that are forwarded as they are. */
  function Forwarded(items: seq<Item>): seq<Item>
    requires AllSelfSized(items)
  {
    if items == [] then []
    else
      var front, last := items[..|items| - 1], items[|items| - 1];
      Forwarded(front) + (if Fkz9Accepts(last) && Sign(last) != HEARTBEAT_RESP then [last] else [])
  }

  /**
   * The trace in closed form: the forwarded items in queue order, byte for byte, with one device-info frame
   * inserted where the first accepted 0x16 came, and nothing else.
   */
  lemma {:induction false} TraceShape(items: seq<Item>, info: seq<uint8>) returns (n: nat)
    requires AllSelfSized(items) && |info| == DEV_INFO_SIZE
    ensures !IsInit(items) ==> Trace(items, info) == Forwarded(items)
    ensures IsInit(items) ==>
      && n < |items| && Fkz9Accepts(items[n]) && Sign(items[n]) == HEARTBEAT_RESP && !IsInit(items[..n])
      && Forwarded(items[..n]) <= Forwarded(items)
      && Trace(items, info) ==
         Forwarded(items[..n]) + [DevInfoFrame(info)] + Forwarded(items)[|Forwarded(items[..n])|..]
  {
    n := 0;
    if items != [] {
      var front := items[..|items| - 1];
      var m := TraceShape(front, info);
      if IsInit(front) {
        n := m;
        assert items[..n] == front[..n];
        TraceTail(Forwarded(front[..n]), Forwarded(front), [DevInfoFrame(info)],
                  Output(items[|items| - 1], true, info));
      } else {
        n := |items| - 1;
      }
    }
  }

  /** Frames the loop passes on: valid, and no heartbeat response. */
  predicate Relayed(item: Item) {
    SelfSized(item) && Fkz9Accepts(item) && item[4] != 0x16
  }

  /** One frame more: relayed, refused, or a heartbeat response. */
  lemma OneMoreFrame(items: seq<Item>, item: Item, info: seq<uint8>)
    requires AllSelfSized(items) && SelfSized(item) && |info| == DEV_INFO_SIZE
    ensures AllSelfSized(items + [item])
    ensures !Fkz9Accepts(item) ==> Trace(items + [item], info) == Trace(items, info)
    ensures Relayed(item) ==> Trace(items + [item], info) == Trace(items, info) + [item]
    ensures Fkz9Accepts(item) && item[4] == 0x16 ==>
      && Trace(items + [item], info) ==
         Trace(items, info) + (if AnyResponse(items) then [] else [DevInfoFrame(info)])
  {
    TraceExtend(items, item, info);
    IsInitIff(items);
  }

  /** A valid heartbeat response is among the items. */
  predicate AnyResponse(items: seq<Item>)
    requires AllSelfSized(items)
  {
    exists i | 0 <= i < |items| :: Fkz9Accepts(items[i]) && items[i][4] == 0x16
  }

  lemma {:induction false} IsInitIff(items: seq<Item>)
    requires AllSelfSized(items)
    ensures IsInit(items) <==> AnyResponse(items)
  {
    if items != [] {
      var front := items[..|items| - 1];
      IsInitIff(front);
      if i :| 0 <= i < |front| && Fkz9Accepts(front[i]) && front[i][4] == 0x16 {
        assert items[i] == front[i];
      }
      if i :| 0 <= i < |items| && Fkz9Accepts(items[i]) && items[i][4] == 0x16 {
        assert i < |front| ==> items[i] == front[i];
      }
    }
  }

  /** As long as only such frames come, the loop is transparent: they all pass, byte for byte, in order. */
  lemma {:induction false} RelaysAll(items: seq<Item>, info: seq<uint8>)
    requires |info| == DEV_INFO_SIZE && forall i | 0 <= i < |items| :: Relayed(items[i])
    ensures AllSelfSized(items) && Trace(items, info) == items
  {
    if items != [] {
      var front, last := items[..|items| - 1], items[|items| - 1];
      assert items == front + [last];
      RelaysAll(front, info);
      OneMoreFrame(front, last, info);
    }
  }

  lemma TraceTail(early: seq<Item>, all: seq<Item>, mid: seq<Item>, more: seq<Item>)
    requires early <= all
    ensures early <= all + more
    ensures early + mid + all[|early|..] + more == early + mid + (all + more)[|early|..]
  {
    assert (all + more)[|early|..] == all[|early|..] + more;
  }
}
