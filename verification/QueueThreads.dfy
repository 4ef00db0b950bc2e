/**
 * `enqueue` and `dequeue` of `queue.c` as micro-steps of any number of threads: take the mutex, test the
 * indices, copy one byte at a time, write the size, advance the index, release. Any thread may move at any time.
 */
module QueueThreads {
  import opened Bytes
  import opened QueueSpec
  import opened RingQueue

  type Tid = nat

  /** Where a thread stands inside a call; `Idle` is outside any call. */
  datatype Pc =
    | Idle
    | EnqLock(item: Item)
    | EnqTest(item: Item)
    | EnqCopy(item: Item, k: nat)
    | EnqSize(item: Item)
    | EnqAdvance(item: Item)
    | DeqLock
    | DeqTest
    | DeqCopy(out: Item)
    | DeqSize(out: Item)
    | DeqAdvance(out: Item, len: nat)
    | Unlock(answer: Event<Tid>)
  {
    /** Between a successful lock and the matching unlock. */
    predicate InCritical() {
      !Idle? && !EnqLock? && !DeqLock?
    }
  }

  /**
   * Shared memory, thread positions, and two histories: effects as they happen, and calls as they release the
   * mutex.
   */
  datatype State = State(
    owner: Option<Tid>,
    slotSize: nat,
    buffers: seq<seq<uint8>>,
    sizes: seq<uint16>,
    head: nat,
    tail: nat,
    pcs: map<Tid, Pc>,
    log: seq<Event<Tid>>,
    returned: seq<Event<Tid>>)
  {
    function PcOf(t: Tid): Pc {
      if t in pcs then pcs[t] else Idle
    }

    /** What the caller of `enqueue` owes: the bytes fit a slot and their number fits the 16-bit size. */
    predicate Fits(item: Item) {
      |item| <= slotSize && |item| < 0x1_0000
    }

    ghost predicate Shape() {
      && |buffers| == MAX_SEGMENTS && |sizes| == MAX_SEGMENTS
      && (forall i | 0 <= i < MAX_SEGMENTS :: |buffers[i]| == slotSize)
      && head < MAX_SEGMENTS && tail < MAX_SEGMENTS
      && (forall i: nat | i < Count(tail, head) :: sizes[Slot(tail, i)] <= slotSize)
    }

    function Stored(k: nat): Item
      requires Shape() && k < MAX_SEGMENTS
    {
      buffers[k][..if sizes[k] <= slotSize then sizes[k] else slotSize]
    }

    function Contents(): seq<Item>
      requires Shape()
    {
      seq(Count(tail, head), i requires 0 <= i => Stored(Slot(tail, i)))
    }

    /** What the thread inside the critical section relies on, at each of its positions. */
    ghost predicate Progress(t: Tid, pc: Pc)
      requires Shape()
    {
      match pc
      case EnqTest(item) => Fits(item)
      case EnqCopy(item, k) => Fits(item) && k <= |item| && buffers[head][..k] == item[..k] && Room()
      case EnqSize(item) => Fits(item) && buffers[head][..|item|] == item && Room()
      case EnqAdvance(item) => Fits(item) && buffers[head][..|item|] == item && sizes[head] == |item| && Room()
      case DeqCopy(out) => tail != head && |out| <= sizes[tail] <= slotSize && out == buffers[tail][..|out|]
      case DeqSize(out) => tail != head && sizes[tail] <= slotSize && out == Stored(tail)
      case DeqAdvance(out, len) => tail != head && out == Stored(tail) && len == |out|
      case Unlock(answer) => answer.caller == t
      case _ => true
    }

    predicate Room()
      requires Shape()
    {
      (head + 1) % MAX_SEGMENTS != tail
    }

    /** Effects and releases agree, except for the one call that has taken effect but not yet released the mutex. */
    predicate HistoriesAgree() {
      if owner.Some? && PcOf(owner.value).Unlock?
      then log == returned + [PcOf(owner.value).answer]
      else log == returned
    }

    ghost predicate Inv() {
      && Shape()
      && (forall t: Tid :: PcOf(t).InCritical() <==> owner == Some(t))
      && (forall t: Tid :: PcOf(t).EnqLock? ==> Fits(PcOf(t).item))
      && (owner.Some? ==> Progress(owner.value, PcOf(owner.value)))
      && Replay(log) == Some(Contents())
      && HistoriesAgree()
    }

    function At(t: Tid, pc: Pc): State {
      this.(pcs := pcs[t := pc])
    }
  }

  datatype Action = CallEnqueue(t: Tid, item: Item) | CallDequeue(t: Tid) | Run(t: Tid)

  /** After `init_queue`: empty, unlocked, every thread idle; slot bytes and sizes are whatever they are. */
  ghost predicate Init(s: State) {
    && s.owner == None && s.head == 0 && s.tail == 0 && s.pcs == map[] && s.log == [] && s.returned == []
    && s.Shape()
  }

  /** One micro-step of thread `t` inside a call; a thread that finds the mutex taken stays where it is. */
  function RunThread(s: State, t: Tid): State
    requires s.Inv()
  {
    var next := (s.head + 1) % MAX_SEGMENTS;
    match s.PcOf(t)
    case Idle => s
    case EnqLock(item) =>
      if s.owner == None then s.(owner := Some(t)).At(t, EnqTest(item)) else s
    case EnqTest(item) =>
      if next == s.tail
      then s.(log := s.log + [RefusedFull(t, item)]).At(t, Unlock(RefusedFull(t, item)))
      else s.At(t, EnqCopy(item, 0))
    case EnqCopy(item, k) =>
      if k < |item|
      then s.(buffers := s.buffers[s.head := s.buffers[s.head][k := item[k]]]).At(t, EnqCopy(item, k + 1))
      else s.At(t, EnqSize(item))
    case EnqSize(item) =>
      s.(sizes := s.sizes[s.head := |item|]).At(t, EnqAdvance(item))
    case EnqAdvance(item) =>
      s.(head := next, log := s.log + [Enqueued(t, item)]).At(t, Unlock(Enqueued(t, item)))
    case DeqLock =>
      if s.owner == None then s.(owner := Some(t)).At(t, DeqTest) else s
    case DeqTest =>
      if s.tail == s.head
      then s.(log := s.log + [FoundEmpty(t)]).At(t, Unlock(FoundEmpty(t)))
      else s.At(t, DeqCopy([]))
    case DeqCopy(out) =>
      if |out| < s.sizes[s.tail]
      then s.At(t, DeqCopy(out + [s.buffers[s.tail][|out|]]))
      else s.At(t, DeqSize(out))
    case DeqSize(out) =>
      s.At(t, DeqAdvance(out, s.sizes[s.tail]))
    case DeqAdvance(out, len) =>
      s.(tail := (s.tail + 1) % MAX_SEGMENTS, log := s.log + [Dequeued(t, out[..len])])
       .At(t, Unlock(Dequeued(t, out[..len])))
    case Unlock(answer) =>
      s.(owner := None, returned := s.returned + [answer]).At(t, Idle)
  }

  function Step(s: State, a: Action): State
    requires s.Inv()
  {
    match a
    case CallEnqueue(t, item) => if s.PcOf(t).Idle? && s.Fits(item) then s.At(t, EnqLock(item)) else s
    case CallDequeue(t) => if s.PcOf(t).Idle? then s.At(t, DeqLock) else s
    case Run(t) => RunThread(s, t)
  }

  /** Changing only a slot outside the live part of the ring leaves the contents alone. */
  lemma ContentsFrame(s: State, s': State)
    requires s.Shape() && s'.Shape() && s.slotSize == s'.slotSize && s.head == s'.head && s.tail == s'.tail
    requires forall k | 0 <= k < MAX_SEGMENTS && k != s.head ::
               s.buffers[k] == s'.buffers[k] && s.sizes[k] == s'.sizes[k]
    ensures s.Contents() == s'.Contents()
  {
    FullAndEmpty(s.tail, s.head);
    forall i: nat | i < Count(s.tail, s.head)
      ensures s.Stored(Slot(s.tail, i)) == s'.Stored(Slot(s.tail, i))
    {
      assert Slot(s.tail, i) != s.head;
    }
  }

  /** A step that leaves the ring alone leaves the contents alone. */
  lemma SameRing(s: State, s': State)
    requires s.Shape()
    requires s' == s.(owner := s'.owner, pcs := s'.pcs, log := s'.log, returned := s'.returned)
    ensures s'.Shape() && s'.Contents() == s.Contents()
  {
  }

  lemma CopyKeepsInv(s: State, t: Tid)
    requires s.Inv() && s.PcOf(t).EnqCopy?
    ensures RunThread(s, t).Inv()
  {
    var k, item := s.PcOf(t).k, s.PcOf(t).item;
    if k < |item| {
      CopiesByte(s, t);
    } else {
      SameRing(s, RunThread(s, t));
      assert item[..k] == item;
    }
  }

  lemma CopiesByte(s: State, t: Tid)
    requires s.Inv() && s.PcOf(t).EnqCopy? && s.PcOf(t).k < |s.PcOf(t).item|
    ensures RunThread(s, t).Inv()
  {
    var s', k, item := RunThread(s, t), s.PcOf(t).k, s.PcOf(t).item;
    ContentsFrame(s, s');
    assert s'.buffers[s.head][..k + 1] == s.buffers[s.head][..k] + [item[k]];
    assert item[..k + 1] == item[..k] + [item[k]];
  }

  /** Writing the free slot's size does not touch the live part. */
  lemma SizeKeepsRing(s: State, n: uint16)
    requires s.Shape()
    ensures var s' := s.(sizes := s.sizes[s.head := n]); s'.Shape() && s'.Contents() == s.Contents()
  {
    var s' := s.(sizes := s.sizes[s.head := n]);
    FullAndEmpty(s.tail, s.head);
    assert forall i: nat | i < Count(s.tail, s.head) :: Slot(s.tail, i) != s.head;
    ContentsFrame(s, s');
  }

  lemma SizeKeepsInv(s: State, t: Tid)
    requires s.Inv() && s.PcOf(t).EnqSize?
    ensures RunThread(s, t).Inv()
  {
    var item := s.PcOf(t).item;
    var s1 := s.(sizes := s.sizes[s.head := |item|]);
    SizeKeepsRing(s, |item|);
    SameRing(s1, RunThread(s, t));
  }

  lemma PushLast(s: State, s': State, item: Item)
    requires s.Shape() && s.Room() && |item| <= s.slotSize
    requires s.sizes[s.head] == |item| && s.buffers[s.head][..|item|] == item
    requires s' == s.(head := (s.head + 1) % MAX_SEGMENTS, log := s'.log, pcs := s'.pcs)
    ensures s'.Shape() && s'.Contents() == s.Contents() + [item] && |s.Contents()| < CAPACITY
  {
    FullAndEmpty(s.tail, s.head);
    CountPush(s.tail, s.head);
    assert Slot(s.tail, Count(s.tail, s.head)) == s.head;
    assert s'.Stored(s.head) == item;
  }

  lemma EnqueueTakesEffect(s: State, t: Tid)
    requires s.Inv() && s.PcOf(t).EnqAdvance?
    ensures RunThread(s, t).Inv()
  {
    var item := s.PcOf(t).item;
    PushLast(s, RunThread(s, t), item);
    ReplayExtend(s.log, s.Contents(), Enqueued(t, item));
  }

  lemma DropFirst(s: State, s': State)
    requires s.Shape() && s.tail != s.head
    requires s' == s.(tail := (s.tail + 1) % MAX_SEGMENTS, log := s'.log, pcs := s'.pcs)
    ensures s.Contents() != [] && s.Contents()[0] == s.Stored(s.tail)
    ensures s'.Shape() && s'.Contents() == s.Contents()[1..]
  {
    CountPop(s.tail, s.head);
    FullAndEmpty(s.tail, s.head);
    assert Slot(s.tail, 0) == s.tail;
    forall i: nat | i < Count(s'.tail, s'.head)
      ensures Slot(s'.tail, i) == Slot(s.tail, i + 1) && s'.sizes[Slot(s'.tail, i)] <= s'.slotSize
    {
      assert s.sizes[Slot(s.tail, i + 1)] <= s.slotSize;
    }
  }

  lemma DequeueTakesEffect(s: State, t: Tid)
    requires s.Inv() && s.PcOf(t).DeqAdvance?
    ensures RunThread(s, t).Inv()
  {
    var s', out := RunThread(s, t), s.PcOf(t).out;
    DropFirst(s, s');
    assert out[..|out|] == out;
    ReplayExtend(s.log, s.Contents(), Dequeued(t, out));
  }

  lemma EnqueueIsRefused(s: State, t: Tid)
    requires s.Inv() && s.PcOf(t).EnqTest? && !s.Room()
    ensures RunThread(s, t).Inv()
  {
    SameRing(s, RunThread(s, t));
    FullAndEmpty(s.tail, s.head);
    ReplayExtend(s.log, s.Contents(), RefusedFull(t, s.PcOf(t).item));
  }

  lemma EnqueueStarts(s: State, t: Tid)
    requires s.Inv() && s.PcOf(t).EnqTest? && s.Room()
    ensures RunThread(s, t).Inv()
  {
    SameRing(s, RunThread(s, t));
  }

  lemma EnqueueTestKeepsInv(s: State, t: Tid)
    requires s.Inv() && s.PcOf(t).EnqTest?
    ensures RunThread(s, t).Inv()
  {
    if s.Room() {
      EnqueueStarts(s, t);
    } else {
      EnqueueIsRefused(s, t);
    }
  }

  lemma DequeueFindsEmpty(s: State, t: Tid)
    requires s.Inv() && s.PcOf(t).DeqTest? && s.tail == s.head
    ensures RunThread(s, t).Inv()
  {
    SameRing(s, RunThread(s, t));
    FullAndEmpty(s.tail, s.head);
    ReplayExtend(s.log, s.Contents(), FoundEmpty(t));
  }

  lemma OldestFits(s: State)
    requires s.Shape() && s.tail != s.head
    ensures s.sizes[s.tail] <= s.slotSize
  {
    FullAndEmpty(s.tail, s.head);
    assert s.sizes[Slot(s.tail, 0)] <= s.slotSize;
  }

  lemma DequeueStarts(s: State, t: Tid)
    requires s.Inv() && s.PcOf(t).DeqTest? && s.tail != s.head
    ensures RunThread(s, t).Inv()
  {
    SameRing(s, RunThread(s, t));
    OldestFits(s);
  }

  lemma DequeueTestKeepsInv(s: State, t: Tid)
    requires s.Inv() && s.PcOf(t).DeqTest?
    ensures RunThread(s, t).Inv()
  {
    if s.tail == s.head {
      DequeueFindsEmpty(s, t);
    } else {
      DequeueStarts(s, t);
    }
  }

  lemma EntryKeepsInv(s: State, t: Tid, pc: Pc)
    requires s.Inv() && s.PcOf(t).Idle?
    requires pc == DeqLock || (pc.EnqLock? && s.Fits(pc.item))
    ensures s.At(t, pc).Inv()
  {
    var s' := s.At(t, pc);
    SameRing(s, s');
    assert s.owner != Some(t) && forall u: Tid :: s'.PcOf(u) == if u == t then pc else s.PcOf(u);
  }

  lemma CallKeepsInv(s: State, a: Action)
    requires s.Inv() && !a.Run?
    ensures Step(s, a).Inv()
  {
    if s.PcOf(a.t).Idle? {
      match a
      case CallEnqueue(t, item) =>
        if s.Fits(item) {
          EntryKeepsInv(s, t, EnqLock(item));
        }
      case CallDequeue(t) => EntryKeepsInv(s, t, DeqLock);
    }
  }

  lemma LockKeepsInv(s: State, t: Tid)
    requires s.Inv() && !s.PcOf(t).InCritical()
    ensures RunThread(s, t).Inv()
  {
    SameRing(s, RunThread(s, t));
  }

  lemma DequeueStepKeepsInv(s: State, t: Tid)
    requires s.Inv() && (s.PcOf(t).DeqCopy? || s.PcOf(t).DeqSize?)
    ensures RunThread(s, t).Inv()
  {
    SameRing(s, RunThread(s, t));
  }

  lemma UnlockKeepsInv(s: State, t: Tid)
    requires s.Inv() && s.PcOf(t).Unlock?
    ensures RunThread(s, t).Inv()
  {
    SameRing(s, RunThread(s, t));
  }

  /** Every micro-step of every thread keeps the invariant. */
  lemma StepKeepsInv(s: State, a: Action)
    requires s.Inv()
    ensures Step(s, a).Inv()
  {
    if !a.Run? {
      CallKeepsInv(s, a);
    } else {
      match s.PcOf(a.t)
      case Idle | EnqLock(_) | DeqLock => LockKeepsInv(s, a.t);
      case EnqTest(_) => EnqueueTestKeepsInv(s, a.t);
      case DeqTest => DequeueTestKeepsInv(s, a.t);
      case EnqCopy(_, _) => CopyKeepsInv(s, a.t);
      case EnqSize(_) => SizeKeepsInv(s, a.t);
      case EnqAdvance(_) => EnqueueTakesEffect(s, a.t);
      case DeqCopy(_) | DeqSize(_) => DequeueStepKeepsInv(s, a.t);
      case DeqAdvance(_, _) => DequeueTakesEffect(s, a.t);
      case Unlock(_) => UnlockKeepsInv(s, a.t);
    }
  }

  /** The state after a run: any interleaving of calls and micro-steps. */
  function Exec(s: State, run: seq<Action>): State
    requires s.Inv()
    decreases run
  {
    if run == [] then s
    else
      StepKeepsInv(s, run[0]);
      Exec(Step(s, run[0]), run[1..])
  }

  lemma {:induction false} ExecKeepsInv(s: State, run: seq<Action>)
    requires s.Inv()
    ensures Exec(s, run).Inv()
    decreases run
  {
    if run != [] {
      StepKeepsInv(s, run[0]);
      ExecKeepsInv(Step(s, run[0]), run[1..]);
    }
  }

  lemma InitInv(s: State)
    requires Init(s)
    ensures s.Inv()
  {
    assert s.Contents() == [];
  }

  /**
   * Every interleaving is linearizable. At most one thread is in the critical section; the effects form a legal
   * history of the bounded FIFO whose contents are those of the ring, so an item comes out whole, once and in
   * order; and the calls, in the order they release the mutex, are that history, bar one call about to return.
   */
  lemma EveryInterleavingIsAFifo(s: State, run: seq<Action>)
    requires Init(s)
    ensures s.Inv()
    ensures var e := Exec(s, run);
      && e.Shape()
      && (forall t, u | e.PcOf(t).InCritical() && e.PcOf(u).InCritical() :: t == u)
      && Replay(e.log) == Some(e.Contents())
      && Accepted(e.log) == Delivered(e.log) + e.Contents()
      && e.returned <= e.log && |e.log| <= |e.returned| + 1
  {
    InitInv(s);
    ExecKeepsInv(s, run);
    var e := Exec(s, run);
    ReplayConserves(e.log, e.Contents());
  }

  // ---- what the callers asked for

  datatype Call = EnqueueCall(item: Item) | DequeueCall

  function CallOf(e: Event<Tid>): Call {
    if e.Enqueued? || e.RefusedFull? then EnqueueCall(e.item) else DequeueCall
  }

  /** The calls of a thread that a history answers, in order. */
  function Answered(t: Tid, log: seq<Event<Tid>>): seq<Call> {
    if log == [] then []
    else
      var e := log[|log| - 1];
      Answered(t, log[..|log| - 1]) + (if e.caller == t then [CallOf(e)] else [])
  }

  /** The call a thread is in the middle of, as long as it has not taken effect. */
  function Pending(pc: Pc): seq<Call> {
    match pc
    case Idle | Unlock(_) => []
    case EnqLock(item) => [EnqueueCall(item)]
    case EnqTest(item) => [EnqueueCall(item)]
    case EnqCopy(item, _) => [EnqueueCall(item)]
    case EnqSize(item) => [EnqueueCall(item)]
    case EnqAdvance(item) => [EnqueueCall(item)]
    case _ => [DequeueCall]
  }

  /** A call that a thread makes while it is in no other, with an item that fits. */
  function MadeBy(t: Tid, s: State, a: Action): seq<Call> {
    if a.Run? || a.t != t || !s.PcOf(t).Idle? then []
    else if a.CallDequeue? then [DequeueCall]
    else if |a.item| <= s.slotSize && |a.item| < 0x1_0000 then [EnqueueCall(a.item)]
    else []
  }

  function Made(t: Tid, s: State, run: seq<Action>): seq<Call>
    requires s.Inv()
    decreases run
  {
    if run == [] then []
    else
      StepKeepsInv(s, run[0]);
      MadeBy(t, s, run[0]) + Made(t, Step(s, run[0]), run[1..])
  }

  lemma AnsweredExtend(t: Tid, log: seq<Event<Tid>>, e: Event<Tid>)
    ensures Answered(t, log + [e]) == Answered(t, log) + (if e.caller == t then [CallOf(e)] else [])
  {
    assert (log + [e])[..|log|] == log;
  }

  /** A thread's calls so far: answered, then the one under way. */
  function Calls(t: Tid, s: State): seq<Call> {
    Answered(t, s.log) + Pending(s.PcOf(t))
  }

  /** A thread moves on within its call. */
  predicate MovesOn(s: State, s': State, u: Tid) {
    s'.log == s.log && u in s'.pcs && s'.pcs == s.pcs[u := s'.pcs[u]] && Pending(s'.pcs[u]) == Pending(s.PcOf(u))
  }

  /** Its call takes effect. */
  predicate TakesEffect(s: State, s': State, u: Tid) {
    && |s'.log| == |s.log| + 1 && s'.log[..|s.log|] == s.log && s'.log[|s.log|].caller == u
    && u in s'.pcs && s'.pcs == s.pcs[u := s'.pcs[u]]
    && Pending(s.PcOf(u)) == [CallOf(s'.log[|s.log|])] && Pending(s'.pcs[u]) == []
  }

  lemma SameCalls(t: Tid, s: State, s': State, u: Tid)
    requires MovesOn(s, s', u) || TakesEffect(s, s', u)
    ensures Calls(t, s') == Calls(t, s)
  {
    if !MovesOn(s, s', u) {
      var e := s'.log[|s.log|];
      assert s'.log == s.log + [e];
      AnsweredExtend(t, s.log, e);
    }
  }

  lemma EnqueuerKeepsCall(s: State, u: Tid)
    requires s.Inv()
    requires var pc := s.PcOf(u); pc.EnqTest? || pc.EnqCopy? || pc.EnqSize? || pc.EnqAdvance?
    ensures MovesOn(s, RunThread(s, u), u) || TakesEffect(s, RunThread(s, u), u)
  {
  }

  lemma DequeuerKeepsCall(s: State, u: Tid)
    requires s.Inv()
    requires var pc := s.PcOf(u); pc.DeqTest? || pc.DeqCopy? || pc.DeqSize? || pc.DeqAdvance?
    ensures MovesOn(s, RunThread(s, u), u) || TakesEffect(s, RunThread(s, u), u)
  {
  }

  lemma LockKeepsCall(s: State, u: Tid)
    requires s.Inv()
    requires var pc := s.PcOf(u); pc.Idle? || pc.EnqLock? || pc.DeqLock? || pc.Unlock?
    ensures RunThread(s, u) == s || MovesOn(s, RunThread(s, u), u)
  {
  }

  lemma RunKeepsCalls(t: Tid, s: State, u: Tid)
    requires s.Inv()
    ensures Calls(t, RunThread(s, u)) == Calls(t, s)
  {
    var s', pc := RunThread(s, u), s.PcOf(u);
    if pc.Idle? || pc.EnqLock? || pc.DeqLock? || pc.Unlock? {
      LockKeepsCall(s, u);
    } else if pc.EnqTest? || pc.EnqCopy? || pc.EnqSize? || pc.EnqAdvance? {
      EnqueuerKeepsCall(s, u);
    } else {
      DequeuerKeepsCall(s, u);
    }
    if s' != s {
      SameCalls(t, s, s', u);
    }
  }

  lemma EntryAddsCall(t: Tid, s: State, u: Tid, pc: Pc)
    requires s.PcOf(u).Idle?
    ensures Calls(t, s.At(u, pc)) == Calls(t, s) + (if u == t then Pending(pc) else [])
  {
  }

  lemma StepAddsCalls(t: Tid, s: State, a: Action)
    requires s.Inv()
    ensures Calls(t, Step(s, a)) == Calls(t, s) + MadeBy(t, s, a)
  {
    if a.Run? {
      RunKeepsCalls(t, s, a.t);
    } else if s.PcOf(a.t).Idle? {
      EntryAddsCall(t, s, a.t, if a.CallEnqueue? then EnqLock(a.item) else DeqLock);
    }
  }

  lemma JoinCalls(a: seq<Call>, b: seq<Call>, c: seq<Call>)
    ensures a + b + c == a + (b + c)
  {
  }

  lemma {:induction false} RunAddsCalls(t: Tid, s: State, run: seq<Action>)
    requires s.Inv()
    ensures Calls(t, Exec(s, run)) == Calls(t, s) + Made(t, s, run)
    decreases run
  {
    if run != [] {
      StepKeepsInv(s, run[0]);
      StepAddsCalls(t, s, run[0]);
      RunAddsCalls(t, Step(s, run[0]), run[1..]);
      JoinCalls(Calls(t, s), MadeBy(t, s, run[0]), Made(t, Step(s, run[0]), run[1..]));
    }
  }

  /**
   * In every interleaving, each thread's calls are answered in the order it made them, each once and for the very
   * item it passed; the last may still be under way.
   */
  lemma EveryCallIsAnswered(s: State, run: seq<Action>, t: Tid)
    requires Init(s)
    ensures s.Inv() && Answered(t, Exec(s, run).log) + Pending(Exec(s, run).PcOf(t)) == Made(t, s, run)
  {
    InitInv(s);
    RunAddsCalls(t, s, run);
  }

  /** A free mutex goes to whichever waiting thread moves first. */
  lemma FreeMutexIsTaken(s: State, t: Tid)
    requires s.Inv() && s.owner == None && !s.PcOf(t).Idle?
    ensures Step(s, Run(t)).owner == Some(t) && Step(s, Run(t)).PcOf(t).InCritical()
  {
    assert !s.PcOf(t).InCritical();
  }

  /** Own steps that a thread still needs before it has released the mutex. */
  function Remaining(pc: Pc, slotSize: nat): int {
    match pc
    case EnqTest(item) => |item| + 5
    case EnqCopy(item, k) => |item| - k + 4
    case EnqSize(_) => 3
    case EnqAdvance(_) => 2
    case DeqTest => slotSize + 5
    case DeqCopy(out) => slotSize - |out| + 4
    case DeqSize(_) => 3
    case DeqAdvance(_, _) => 2
    case Unlock(_) => 1
    case _ => 0
  }

  /** One of its own steps brings a thread nearer to the release, which it makes when nothing remains. */
  predicate Advances(s: State, s': State, t: Tid) {
    && 0 <= Remaining(s'.PcOf(t), s.slotSize) < Remaining(s.PcOf(t), s.slotSize)
    && (Remaining(s'.PcOf(t), s.slotSize) == 0 <==> s'.owner == None)
  }

  lemma EnqueuerAdvances(s: State, t: Tid)
    requires s.Inv() && s.owner == Some(t)
    requires s.PcOf(t).EnqTest? || s.PcOf(t).EnqCopy? || s.PcOf(t).EnqSize? || s.PcOf(t).EnqAdvance?
    ensures Advances(s, RunThread(s, t), t)
  {
  }

  lemma DequeuerAdvances(s: State, t: Tid)
    requires s.Inv() && s.owner == Some(t)
    requires s.PcOf(t).DeqTest? || s.PcOf(t).DeqCopy? || s.PcOf(t).DeqSize? || s.PcOf(t).DeqAdvance?
    ensures Advances(s, RunThread(s, t), t)
  {
  }

  /** The holder is never blocked: each of its own steps brings the release nearer. */
  lemma {:induction false} HolderAlwaysAdvances(s: State, t: Tid)
    requires s.Inv() && s.owner == Some(t)
    ensures Advances(s, Step(s, Run(t)), t)
  {
    assert s.PcOf(t).InCritical();
    match s.PcOf(t)
    case EnqTest(_) | EnqCopy(_, _) | EnqSize(_) | EnqAdvance(_) => EnqueuerAdvances(s, t);
    case DeqTest | DeqCopy(_) | DeqSize(_) | DeqAdvance(_, _) => DequeuerAdvances(s, t);
    case Unlock(_) =>
    case _ =>
  }

  /** No other thread delays it: a step of anyone else moves neither the holder nor the mutex. */
  lemma {:induction false} OthersLeaveHolderAlone(s: State, a: Action)
    requires s.Inv() && s.owner.Some? && a != Run(s.owner.value)
    ensures Step(s, a).owner == s.owner && Step(s, a).PcOf(s.owner.value) == s.PcOf(s.owner.value)
  {
    assert s.PcOf(s.owner.value).InCritical() && (a.t != s.owner.value ==> !s.PcOf(a.t).InCritical());
  }
}
