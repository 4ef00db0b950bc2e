/** The bounded FIFO that `queue.c` is meant to be, and what a history of calls on it may look like. */
module QueueSpec {
  import opened Bytes

  const MAX_SEGMENTS: nat := 64

  /** One slot is always kept free, so the 64-slot ring holds 63 items. */
  const CAPACITY: nat := MAX_SEGMENTS - 1

  type Item = seq<uint8>

  /** One completed call: who made it, and what it returned. */
  datatype Event<Tid> =
    | Enqueued(caller: Tid, item: Item)
    | RefusedFull(caller: Tid, item: Item)
    | Dequeued(caller: Tid, item: Item)
    | FoundEmpty(caller: Tid)

  /** Whether a FIFO of capacity 63 that holds `q` may answer a call this way. */
  predicate Allowed<Tid>(q: seq<Item>, e: Event<Tid>) {
    match e
    case Enqueued(_, _) => |q| < CAPACITY
    case RefusedFull(_, _) => |q| == CAPACITY
    case Dequeued(_, item) => q != [] && q[0] == item
    case FoundEmpty(_) => q == []
  }

  /** The contents after an allowed call. */
  function After<Tid>(q: seq<Item>, e: Event<Tid>): seq<Item>
    requires Allowed(q, e)
  {
    match e
    case Enqueued(_, item) => q + [item]
    case Dequeued(_, _) => q[1..]
    case _ => q
  }

  /** The contents after a history started on the empty queue, or `None` if some call was not allowed. */
  function Replay<Tid>(log: seq<Event<Tid>>): Option<seq<Item>> {
    if log == [] then Some([])
    else
      var e := log[|log| - 1];
      match Replay(log[..|log| - 1])
      case Some(q) => if Allowed(q, e) then Some(After(q, e)) else None
      case None => None
  }

  lemma ReplayExtend<Tid>(log: seq<Event<Tid>>, q: seq<Item>, e: Event<Tid>)
    requires Replay(log) == Some(q) && Allowed(q, e)
    ensures Replay(log + [e]) == Some(After(q, e))
  {
    assert (log + [e])[..|log|] == log;
  }

  /** Items whose enqueue succeeded, in order. */
  function Accepted<Tid>(log: seq<Event<Tid>>): seq<Item> {
    if log == [] then []
    else Accepted(log[..|log| - 1]) + (if log[|log| - 1].Enqueued? then [log[|log| - 1].item] else [])
  }

  /** Items handed out, in order. */
  function Delivered<Tid>(log: seq<Event<Tid>>): seq<Item> {
    if log == [] then []
    else Delivered(log[..|log| - 1]) + (if log[|log| - 1].Dequeued? then [log[|log| - 1].item] else [])
  }

  /** FIFO, nothing lost, nothing duplicated: what went in is what came out followed by what is inside. */
  lemma {:induction false} ReplayConserves<Tid>(log: seq<Event<Tid>>, q: seq<Item>)
    requires Replay(log) == Some(q)
    ensures Accepted(log) == Delivered(log) + q
    ensures |q| <= CAPACITY
  {
    if log != [] {
      var front, e := log[..|log| - 1], log[|log| - 1];
      var p := Replay(front).value;
      ReplayConserves(front, p);
      match e
      case Enqueued(_, item) =>
        assert Delivered(front) + p + [item] == Delivered(front) + (p + [item]);
      case Dequeued(_, item) =>
        assert p == [item] + p[1..];
      case _ =>
    }
  }

  lemma {:induction false} ReplayPrefix<Tid>(log: seq<Event<Tid>>, k: nat)
    requires Replay(log).Some? && k < |log|
    ensures Replay(log[..k]).Some? && Allowed(Replay(log[..k]).value, log[k])
  {
    var front := log[..|log| - 1];
    if k < |front| {
      ReplayPrefix(front, k);
      assert front[..k] == log[..k];
    }
  }

  /**
   * What the answers of a legal history say about the calls before them: "empty" that all accepted items had been
   * delivered, "full" that 63 had not, and an item that it is the oldest of those.
   */
  lemma AnswersAreTrue<Tid>(log: seq<Event<Tid>>, k: nat)
    requires Replay(log).Some? && k < |log|
    ensures var come, gone := Accepted(log[..k]), Delivered(log[..k]);
      && gone <= come
      && (log[k].FoundEmpty? ==> come == gone)
      && (log[k].RefusedFull? ==> |come| == |gone| + 63)
      && (log[k].Enqueued? ==> |come| < |gone| + 63)
      && (log[k].Dequeued? ==> gone + [log[k].item] <= come)
  {
    ReplayPrefix(log, k);
    ReplayConserves(log[..k], Replay(log[..k]).value);
  }
}
