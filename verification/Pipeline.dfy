/**
 * The frame pipeline end to end, over every run of its actors: the MQTT callback (queueing or splitting), the fkz9
 * event loop, the other users of the TCP client, the TCP sender thread, and a connection that comes and goes.
 */
module Pipeline {
  import opened Bytes
  import opened QueueSpec
  import opened Frames
  import opened Fkz9Spec
  import opened Splitter
  import opened TcpClients

  /**
   * The event queue and its loop: `hand` is the output decided but not yet sent; the rest are histories. `offered` are
   * the payloads meant for the queue, `missed` how many of them met a full one.
   */
  datatype Loop = Loop(
    eventQ: seq<Item>, isInit: bool, hand: seq<Item>,
    offered: seq<Item>, missed: nat, arrived: seq<Item>, processed: seq<Item>, handed: seq<Item>)
  {
    ghost predicate Inv(info: seq<uint8>)
      requires |info| == DEV_INFO_SIZE
    {
      && AllSelfSized(eventQ) && |eventQ| <= CAPACITY
      && AllSelfSized(processed) && arrived == processed + eventQ
      && |arrived| + missed == |offered| && (missed == 0 ==> arrived == offered)
      && |hand| <= 1 && AllFit(hand) && handed + hand == Trace(processed, info) && isInit == IsInit(processed)
    }

    predicate Full() {
      |eventQ| >= CAPACITY
    }

    /** `on_message_cb` on a payload that is one declared frame: queued, or missed when the queue is full. */
    function Enqueue(payload: Item): Loop {
      if Full() then this.(offered := offered + [payload], missed := missed + 1)
      else this.(eventQ := eventQ + [payload], offered := offered + [payload], arrived := arrived + [payload])
    }

    /** The loop takes one frame and decides what to send for it. */
    function Take(info: seq<uint8>): Loop
      requires AllSelfSized(eventQ) && |info| == DEV_INFO_SIZE
    {
      if hand != [] || eventQ == [] then this
      else
        var item := eventQ[0];
        this.(eventQ := eventQ[1..], processed := processed + [item],
              hand := Output(item, isInit, info), isInit := InitAfter(item, isInit))
    }

    function HandOver(): Loop {
      this.(handed := handed + hand, hand := [])
    }

    lemma EnqueueKeepsInv(payload: Item, info: seq<uint8>)
      requires |info| == DEV_INFO_SIZE && Inv(info)
      requires SelfSized(payload)
      ensures Enqueue(payload).Inv(info)
    {
      assert arrived + [payload] == processed + (eventQ + [payload]);
    }

    lemma TakeKeepsInv(info: seq<uint8>)
      requires |info| == DEV_INFO_SIZE && Inv(info)
      ensures Take(info).Inv(info)
    {
      if hand == [] && eventQ != [] {
        TraceExtend(processed, eventQ[0], info);
        MoveHead(processed, eventQ);
        assert handed + hand == handed;
      }
    }

    static lemma MoveHead(done: seq<Item>, q: seq<Item>)
      requires AllSelfSized(q) && q != []
      ensures AllSelfSized(q[1..]) && done + q == done + [q[0]] + q[1..]
    {
    }

    lemma HandOverKeepsInv(info: seq<uint8>)
      requires |info| == DEV_INFO_SIZE && Inv(info)
      ensures HandOver().Inv(info)
    {
      assert handed + hand + [] == handed + hand;
    }
  }

  /** The TCP client: `kept` is the history of everything its queue accepted. */
  datatype Tcp = Tcp(connected: bool, txQ: seq<Sent>, wire: seq<Sent>, kept: seq<Sent>)
  {
    predicate Room() {
      |txQ| < CAPACITY
    }

    predicate Keeps() {
      connected && Room()
    }

    predicate Inv() {
      |txQ| <= CAPACITY && kept == wire + txQ
    }

    /** `tcp_client_send`: kept when connected with room; a full queue refuses, no connection swallows. */
    function Send(s: Sent): Tcp
      requires |s.item| <= TX_SLOT
    {
      if Keeps() then this.(txQ := txQ + [s], kept := kept + [s]) else this
    }

    /** One turn of the sender thread. */
    function Drain(): Tcp {
      if connected && txQ != [] then this.(wire := wire + [txQ[0]], txQ := txQ[1..]) else this
    }

    lemma SendKeepsInv(s: Sent)
      requires Inv() && |s.item| <= TX_SLOT
      ensures Send(s).Inv()
      ensures forall tag :: Items(tag, Send(s).kept) ==
                            Items(tag, kept) + (if Keeps() && s.tag == tag then [s.item] else [])
    {
      forall tag {
        ItemsExtend(tag, kept, s);
      }
      assert kept + [s] == wire + (txQ + [s]);
    }

    lemma DrainKeepsInv()
      requires Inv()
      ensures Drain().Inv() && Drain().kept == kept
    {
      if txQ != [] {
        assert txQ == [txQ[0]] + txQ[1..];
      }
    }
  }

  /** The callback while it splits a payload of `n` bytes, from `index` on. */
  datatype Job = NoJob | Job(memory: seq<uint8>, n: nat, len: nat, index: nat)
  {
    predicate Sound() {
      Job? ==>
        && index < n <= |memory| && len <= TX_SLOT
        && (len == 0 ==> index == 0) && (len != 0 ==> Within(memory, index, n, len))
    }

    /** The chunks still to be sent; with a declared length of 0, always one more empty one. */
    function Left(): seq<Item>
      requires Sound()
    {
      if NoJob? then [] else if len == 0 then [[]] else Chunks(memory, index, n, len)
    }

    /** The chunk of the current attempt. */
    function Chunk(): (chunk: Item)
      requires Job? && Sound()
      ensures |chunk| == len
    {
      memory[index..index + len]
    }

    /** The chunk that turns up behind the current one when the declared length is 0. */
    function More(): seq<Item>
      requires Job?
    {
      if len == 0 then [[]] else []
    }

    /** `index += len`, and out of the loop when the payload is used up. */
    function Advance(): Job
      requires Job?
    {
      if index + len < n then Job(memory, n, len, index + len) else NoJob
    }

    /** Termination measure of the outer loop. */
    function Rest(): nat
      requires Sound()
    {
      if NoJob? then 0 else n - index
    }

    lemma AdvanceSound()
      requires Job? && Sound()
      ensures Advance().Sound() && Left() + More() == [Chunk()] + Advance().Left()
      ensures len != 0 ==> Advance().Rest() < Rest()
      ensures len == 0 ==> Advance() == this
    {
    }
  }

  /**
   * The whole program: `lost` counts loop outputs the TCP client did not keep; `toSplit` are all chunks the splitter
   * ever had to send, and `splitOffline` says whether it ever sent without a connection.
   */
  datatype State = State(loop: Loop, tcp: Tcp, lost: nat, job: Job, toSplit: seq<Item>, splitOffline: bool)
  {
    ghost predicate Inv(info: seq<uint8>)
      requires |info| == DEV_INFO_SIZE
    {
      && loop.Inv(info) && tcp.Inv() && job.Sound()
      && LoopAccounted(Items(FromLoop, tcp.kept), loop.handed, lost)
      && SplitAccounted(Items(FromSplitter, tcp.kept), job.Left(), toSplit, splitOffline)
    }
  }

  predicate LoopAccounted(kept: seq<Item>, handed: seq<Item>, lost: nat) {
    |kept| + lost == |handed| && (lost == 0 ==> kept == handed)
  }

  predicate SplitAccounted(kept: seq<Item>, left: seq<Item>, toSplit: seq<Item>, offline: bool) {
    if offline then |kept| + |left| < |toSplit| else kept + left == toSplit
  }

  datatype Action =
    | Arrive(memory: seq<uint8>, n: nat)
    | Attempt
    | Take
    | HandOver
    | Other(item: Item)
    | Drain
    | SetConnected(up: bool)

  ghost predicate Init(s: State) {
    && s.loop == Loop([], false, [], [], 0, [], [], []) && s.tcp == Tcp(s.tcp.connected, [], [], [])
    && s.lost == 0 && s.job == NoJob && s.toSplit == [] && !s.splitOffline
  }

  /** The payload goes into the event queue: it declares its own length. */
  predicate ForQueue(s: State, memory: seq<uint8>, n: nat) {
    && s.job.NoJob? && HDR_SIZE <= n <= |memory| && n <= MAX_MSG_SIZE
    && Sign(memory) != HEARTBEAT_REQ && DeclaredLen(memory) == n
  }

  /**
   * `on_message_cb` on a payload of `n` bytes at the start of some memory; it must lie there with all its chunks, and
   * they must fit a slot of the queue they go to.
   */
  function ArriveStep(s: State, memory: seq<uint8>, n: nat): State {
    if s.job.Job? || !(HDR_SIZE <= n <= |memory|) || Sign(memory) == HEARTBEAT_REQ then s
    else
      var len := DeclaredLen(memory);
      if len == n then (if n <= MAX_MSG_SIZE then s.(loop := s.loop.Enqueue(memory[..n])) else s)
      else if Sendable(memory, n, len)
      then
        var job := Job(memory, n, len, 0);
        s.(job := job, toSplit := s.toSplit + job.Left())
      else s
  }

  /** The attempt meets a full queue, which means trying again. */
  predicate Blocked(s: State) {
    s.tcp.connected && !s.tcp.Room()
  }

  /** One `send` of the splitter: a full queue means try again, anything else moves `index` on. */
  function AttemptStep(s: State): State
    requires s.job.Sound()
  {
    if s.job.NoJob? || Blocked(s) then s
    else s.(tcp := s.tcp.Send(Sent(FromSplitter, s.job.Chunk())), job := s.job.Advance(),
            toSplit := s.toSplit + s.job.More(), splitOffline := s.splitOffline || !s.tcp.connected)
  }

  function HandOverStep(s: State): State
    requires AllFit(s.loop.hand)
  {
    if s.loop.hand == [] then s
    else s.(tcp := s.tcp.Send(Sent(FromLoop, s.loop.hand[0])), loop := s.loop.HandOver(),
            lost := if s.tcp.Keeps() then s.lost else s.lost + 1)
  }

  function Step(s: State, a: Action, info: seq<uint8>): State
    requires |info| == DEV_INFO_SIZE && s.Inv(info)
  {
    match a
    case Arrive(memory, n) => ArriveStep(s, memory, n)
    case Attempt => AttemptStep(s)
    case Take => s.(loop := s.loop.Take(info))
    case HandOver => HandOverStep(s)
    case Other(item) => if |item| <= TX_SLOT then s.(tcp := s.tcp.Send(Sent(FromOther, item))) else s
    case Drain => s.(tcp := s.tcp.Drain())
    case SetConnected(up) => s.(tcp := s.tcp.(connected := up))
  }

  lemma ArriveKeepsInv(s: State, memory: seq<uint8>, n: nat, info: seq<uint8>)
    requires |info| == DEV_INFO_SIZE && s.Inv(info)
    ensures ArriveStep(s, memory, n).Inv(info)
  {
    if ForQueue(s, memory, n) {
      s.loop.EnqueueKeepsInv(memory[..n], info);
    } else if ArriveStep(s, memory, n) != s {
      JobAccounts(s, Job(memory, n, DeclaredLen(memory), 0));
    }
  }

  lemma JobAccounts(s: State, job: Job)
    requires s.job.NoJob? && job.Sound()
    requires SplitAccounted(Items(FromSplitter, s.tcp.kept), [], s.toSplit, s.splitOffline)
    ensures SplitAccounted(Items(FromSplitter, s.tcp.kept), job.Left(), s.toSplit + job.Left(), s.splitOffline)
  {
    var kept := Items(FromSplitter, s.tcp.kept);
    assert kept + [] == kept;
  }

  lemma AttemptKeepsInv(s: State, info: seq<uint8>)
    requires |info| == DEV_INFO_SIZE && s.Inv(info)
    ensures AttemptStep(s).Inv(info)
  {
    if s.job.Job? {
      s.job.AdvanceSound();
      AttemptAccounts(s);
    }
  }

  lemma AttemptKeeps(s: State)
    requires s.job.Job? && s.job.Sound() && s.tcp.Inv() && !Blocked(s)
    ensures var s' := AttemptStep(s);
      && s'.tcp.Inv() && Items(FromLoop, s'.tcp.kept) == Items(FromLoop, s.tcp.kept)
      && Items(FromSplitter, s'.tcp.kept) ==
         Items(FromSplitter, s.tcp.kept) + (if s.tcp.connected then [s.job.Chunk()] else [])
  {
    s.tcp.SendKeepsInv(Sent(FromSplitter, s.job.Chunk()));
  }

  /** One chunk moves from what is left to what is kept, or is swallowed. */
  lemma ChunkAccounted(kept: seq<Item>, left: seq<Item>, toSplit: seq<Item>, offline: bool,
                       more: seq<Item>, c: Item, rest: seq<Item>, connected: bool)
    requires SplitAccounted(kept, left, toSplit, offline) && left + more == [c] + rest
    ensures SplitAccounted(kept + (if connected then [c] else []), rest, toSplit + more, offline || !connected)
  {
    Regroup(kept, left, more, c, rest);
  }

  lemma AttemptAccounts(s: State)
    requires s.job.Job? && s.job.Sound() && s.tcp.Inv()
    requires SplitAccounted(Items(FromSplitter, s.tcp.kept), s.job.Left(), s.toSplit, s.splitOffline)
    ensures var s' := AttemptStep(s);
      && s'.tcp.Inv() && Items(FromLoop, s'.tcp.kept) == Items(FromLoop, s.tcp.kept) && s'.job.Sound()
      && SplitAccounted(Items(FromSplitter, s'.tcp.kept), s'.job.Left(), s'.toSplit, s'.splitOffline)
  {
    if !Blocked(s) {
      AttemptKeeps(s);
      s.job.AdvanceSound();
      ChunkAccounted(Items(FromSplitter, s.tcp.kept), s.job.Left(), s.toSplit, s.splitOffline,
                     s.job.More(), s.job.Chunk(), s.job.Advance().Left(), s.tcp.connected);
    }
  }

  lemma Regroup(kept: seq<Item>, left: seq<Item>, more: seq<Item>, c: Item, rest: seq<Item>)
    requires left + more == [c] + rest
    ensures kept + left + more == kept + [c] + rest && |left| + |more| == 1 + |rest|
  {
    assert kept + left + more == kept + (left + more) && kept + [c] + rest == kept + ([c] + rest);
    assert |left + more| == |[c] + rest|;
  }

  lemma HandOverKeepsInv(s: State, info: seq<uint8>)
    requires |info| == DEV_INFO_SIZE && s.Inv(info)
    ensures HandOverStep(s).Inv(info)
  {
    if s.loop.hand != [] {
      s.loop.HandOverKeepsInv(info);
      HandOverAccounts(s, s.loop.hand[0]);
    }
  }

  lemma HandOverAccounts(s: State, x: Item)
    requires s.loop.hand == [x] && |x| <= TX_SLOT && s.tcp.Inv()
    requires LoopAccounted(Items(FromLoop, s.tcp.kept), s.loop.handed, s.lost)
    ensures var s' := HandOverStep(s);
      && s'.tcp.Inv() && LoopAccounted(Items(FromLoop, s'.tcp.kept), s'.loop.handed, s'.lost)
      && Items(FromSplitter, s'.tcp.kept) == Items(FromSplitter, s.tcp.kept)
  {
    s.tcp.SendKeepsInv(Sent(FromLoop, x));
  }

  lemma TakeKeepsInv(s: State, info: seq<uint8>)
    requires |info| == DEV_INFO_SIZE && s.Inv(info)
    ensures s.(loop := s.loop.Take(info)).Inv(info)
  {
    s.loop.TakeKeepsInv(info);
  }

  /** A client step that keeps nothing new from the loop or the splitter. */
  lemma TcpFrame(s: State, tcp: Tcp, info: seq<uint8>)
    requires |info| == DEV_INFO_SIZE && s.Inv(info) && tcp.Inv()
    requires Items(FromLoop, tcp.kept) == Items(FromLoop, s.tcp.kept)
    requires Items(FromSplitter, tcp.kept) == Items(FromSplitter, s.tcp.kept)
    ensures s.(tcp := tcp).Inv(info)
  {
  }

  lemma StepKeepsInv(s: State, a: Action, info: seq<uint8>)
    requires |info| == DEV_INFO_SIZE && s.Inv(info)
    ensures Step(s, a, info).Inv(info)
  {
    match a
    case Arrive(memory, n) => ArriveKeepsInv(s, memory, n, info);
    case Attempt => AttemptKeepsInv(s, info);
    case Take => TakeKeepsInv(s, info);
    case HandOver => HandOverKeepsInv(s, info);
    case Other(item) =>
      if |item| <= TX_SLOT {
        s.tcp.SendKeepsInv(Sent(FromOther, item));
        TcpFrame(s, s.tcp.Send(Sent(FromOther, item)), info);
      }
    case Drain =>
      s.tcp.DrainKeepsInv();
      TcpFrame(s, s.tcp.Drain(), info);
    case SetConnected(up) => TcpFrame(s, s.tcp.(connected := up), info);
  }

  function Exec(s: State, run: seq<Action>, info: seq<uint8>): State
    requires |info| == DEV_INFO_SIZE && s.Inv(info)
    decreases run
  {
    if run == [] then s
    else
      StepKeepsInv(s, run[0], info);
      Exec(Step(s, run[0], info), run[1..], info)
  }

  lemma {:induction false} ExecKeepsInv(s: State, run: seq<Action>, info: seq<uint8>)
    requires |info| == DEV_INFO_SIZE && s.Inv(info)
    ensures Exec(s, run, info).Inv(info)
    decreases run
  {
    if run != [] {
      StepKeepsInv(s, run[0], info);
      ExecKeepsInv(Step(s, run[0], info), run[1..], info);
    }
  }

  // ---- what can go wrong

  datatype Fault = OutputRefused | ChunkSwallowed | PayloadMissed

  /** An output of the loop or a chunk is not kept by the client, or a payload meets a full event queue. */
  predicate Happens(f: Fault, s: State, a: Action) {
    match f
    case OutputRefused => a.HandOver? && s.loop.hand != [] && !s.tcp.Keeps()
    case ChunkSwallowed => a.Attempt? && s.job.Job? && !s.tcp.connected
    case PayloadMissed => a.Arrive? && ForQueue(s, a.memory, a.n) && s.loop.Full()
  }

  /** Whether it has never happened, by the histories. */
  predicate Clear(f: Fault, s: State) {
    match f
    case OutputRefused => s.lost == 0
    case ChunkSwallowed => !s.splitOffline
    case PayloadMissed => s.loop.missed == 0
  }

  /** Over a run it does not happen. */
  predicate Never(f: Fault, s: State, run: seq<Action>, info: seq<uint8>)
    requires |info| == DEV_INFO_SIZE && s.Inv(info)
    decreases run
  {
    run == [] ||
    (StepKeepsInv(s, run[0], info);
     !Happens(f, s, run[0]) && Never(f, Step(s, run[0], info), run[1..], info))
  }

  lemma AttemptFaults(f: Fault, s: State)
    requires s.job.Sound()
    ensures Clear(f, AttemptStep(s)) <==> Clear(f, s) && !Happens(f, s, Attempt)
  {
  }

  lemma HandOverFaults(f: Fault, s: State)
    requires AllFit(s.loop.hand)
    ensures Clear(f, HandOverStep(s)) <==> Clear(f, s) && !Happens(f, s, HandOver)
  {
  }

  lemma ArriveFaults(f: Fault, s: State, memory: seq<uint8>, n: nat)
    ensures Clear(f, ArriveStep(s, memory, n)) <==> Clear(f, s) && !Happens(f, s, Arrive(memory, n))
  {
  }

  lemma TakeFaults(f: Fault, s: State, info: seq<uint8>)
    requires AllSelfSized(s.loop.eventQ) && |info| == DEV_INFO_SIZE
    ensures Clear(f, s.(loop := s.loop.Take(info))) <==> Clear(f, s)
  {
  }

  lemma StepFaults(f: Fault, s: State, a: Action, info: seq<uint8>)
    requires |info| == DEV_INFO_SIZE && s.Inv(info)
    ensures Clear(f, Step(s, a, info)) <==> Clear(f, s) && !Happens(f, s, a)
  {
    match a
    case Arrive(memory, n) => ArriveFaults(f, s, memory, n);
    case Attempt => AttemptFaults(f, s);
    case Take => TakeFaults(f, s, info);
    case HandOver => HandOverFaults(f, s);
    case Other(item) =>
    case Drain =>
    case SetConnected(up) =>
  }

  lemma {:induction false} NeverIff(f: Fault, s: State, run: seq<Action>, info: seq<uint8>)
    requires |info| == DEV_INFO_SIZE && s.Inv(info)
    ensures Clear(f, Exec(s, run, info)) <==> Clear(f, s) && Never(f, s, run, info)
    decreases run
  {
    if run != [] {
      StepKeepsInv(s, run[0], info);
      StepFaults(f, s, run[0], info);
      NeverIff(f, Step(s, run[0], info), run[1..], info);
    }
  }

  // ---- what was handed in

  /** Payloads meant for the event queue, chunks to split, and items of other senders that the client took. */
  datatype Books = Books(offered: seq<Item>, toSplit: seq<Item>, others: seq<Item>)
  {
    function Plus(b: Books): Books {
      Books(offered + b.offered, toSplit + b.toSplit, others + b.others)
    }
  }

  function BooksOf(s: State): Books {
    Books(s.loop.offered, s.toSplit, Items(FromOther, s.tcp.kept))
  }

  const NOTHING := Books([], [], [])

  /** What a payload adds, if the callback is free: nothing for sign 0x15, itself if it declares its own length. */
  function Brought(memory: seq<uint8>, n: nat): Books {
    if !(5 <= n <= |memory|) || memory[4] == 0x15 then NOTHING
    else if DeclaredLen(memory) == n then (if n <= 1400 then NOTHING.(offered := [memory[..n]]) else NOTHING)
    else if DeclaredLen(memory) == 0 then NOTHING.(toSplit := [[]])
    else if DeclaredLen(memory) <= 1400 && Within(memory, 0, n, DeclaredLen(memory))
    then NOTHING.(toSplit := Chunks(memory, 0, n, DeclaredLen(memory)))
    else NOTHING
  }

  /** What an action adds. */
  function Adds(s: State, a: Action): Books {
    match a
    case Arrive(memory, n) => if s.job.NoJob? then Brought(memory, n) else NOTHING
    case Attempt => if s.job.Job? && s.job.len == 0 && !Blocked(s) then NOTHING.(toSplit := [[]]) else NOTHING
    case Other(item) =>
      if |item| <= 1400 && s.tcp.connected && |s.tcp.txQ| < 63 then NOTHING.(others := [item]) else NOTHING
    case _ => NOTHING
  }

  function AllAdds(s: State, run: seq<Action>, info: seq<uint8>): Books
    requires |info| == DEV_INFO_SIZE && s.Inv(info)
    decreases run
  {
    if run == [] then NOTHING
    else
      StepKeepsInv(s, run[0], info);
      Adds(s, run[0]).Plus(AllAdds(Step(s, run[0], info), run[1..], info))
  }

  lemma ArriveAdds(s: State, memory: seq<uint8>, n: nat)
    requires s.job.Sound()
    ensures BooksOf(ArriveStep(s, memory, n)) == BooksOf(s).Plus(Adds(s, Arrive(memory, n)))
  {
  }

  lemma SendAdds(tcp: Tcp, x: Sent)
    requires tcp.Inv() && |x.item| <= TX_SLOT
    ensures Items(FromOther, tcp.Send(x).kept) ==
            Items(FromOther, tcp.kept) + (if tcp.Keeps() && x.tag == FromOther then [x.item] else [])
  {
    tcp.SendKeepsInv(x);
  }

  lemma AttemptAdds(s: State)
    requires s.job.Sound() && s.tcp.Inv()
    ensures BooksOf(AttemptStep(s)) == BooksOf(s).Plus(Adds(s, Attempt))
  {
    if s.job.Job? && !Blocked(s) {
      SendAdds(s.tcp, Sent(FromSplitter, s.job.Chunk()));
    }
  }

  lemma HandOverAdds(s: State)
    requires AllFit(s.loop.hand) && s.tcp.Inv()
    ensures BooksOf(HandOverStep(s)) == BooksOf(s)
  {
    if s.loop.hand != [] {
      SendAdds(s.tcp, Sent(FromLoop, s.loop.hand[0]));
    }
  }

  lemma OtherAdds(s: State, item: Item)
    requires s.tcp.Inv() && |item| <= TX_SLOT
    ensures BooksOf(s.(tcp := s.tcp.Send(Sent(FromOther, item)))) == BooksOf(s).Plus(Adds(s, Other(item)))
  {
    SendAdds(s.tcp, Sent(FromOther, item));
  }

  lemma StepAdds(s: State, a: Action, info: seq<uint8>)
    requires |info| == DEV_INFO_SIZE && s.Inv(info)
    ensures BooksOf(Step(s, a, info)) == BooksOf(s).Plus(Adds(s, a))
  {
    JoinBooks(BooksOf(s), NOTHING, NOTHING);
    match a
    case Arrive(memory, n) => ArriveAdds(s, memory, n);
    case Attempt => AttemptAdds(s);
    case Take =>
    case HandOver => HandOverAdds(s);
    case Other(item) =>
      if |item| <= TX_SLOT {
        OtherAdds(s, item);
      }
    case Drain =>
    case SetConnected(up) =>
  }

  lemma JoinBooks(a: Books, b: Books, c: Books)
    ensures a.Plus(b).Plus(c) == a.Plus(b.Plus(c)) && a.Plus(NOTHING) == a
  {
  }

  lemma FromNothing(b: Books)
    ensures NOTHING.Plus(b) == b
  {
  }

  /** Over every run the histories hold exactly what was handed in, in order. */
  lemma {:induction false} RunAdds(s: State, run: seq<Action>, info: seq<uint8>)
    requires |info| == DEV_INFO_SIZE && s.Inv(info)
    ensures BooksOf(Exec(s, run, info)) == BooksOf(s).Plus(AllAdds(s, run, info))
    decreases run
  {
    JoinBooks(BooksOf(s), NOTHING, NOTHING);
    if run != [] {
      StepKeepsInv(s, run[0], info);
      StepAdds(s, run[0], info);
      RunAdds(Step(s, run[0], info), run[1..], info);
      JoinBooks(BooksOf(s), Adds(s, run[0]), AllAdds(Step(s, run[0], info), run[1..], info));
    }
  }

  function LinkAfter(up: bool, run: seq<Action>): bool
    decreases run
  {
    if run == [] then up else LinkAfter(if run[0].SetConnected? then run[0].up else up, run[1..])
  }

  lemma StepLinks(s: State, a: Action, info: seq<uint8>)
    requires |info| == DEV_INFO_SIZE && s.Inv(info)
    ensures Step(s, a, info).tcp.connected == if a.SetConnected? then a.up else s.tcp.connected
  {
  }

  /** Over every run the connection is as it was last set. */
  lemma {:induction false} ConnectionIsLast(s: State, run: seq<Action>, info: seq<uint8>)
    requires |info| == DEV_INFO_SIZE && s.Inv(info)
    ensures Exec(s, run, info).tcp.connected == LinkAfter(s.tcp.connected, run)
    decreases run
  {
    if run != [] {
      StepKeepsInv(s, run[0], info);
      StepLinks(s, run[0], info);
      ConnectionIsLast(Step(s, run[0], info), run[1..], info);
    }
  }

  lemma UntaggedPush(wire: seq<Sent>, q: seq<Sent>, x: Sent)
    ensures Untagged(wire + (q + [x])) == Untagged(wire + q) + [x.item]
  {
  }

  lemma HandedOver(s: State)
    requires |s.loop.hand| <= 1 && AllFit(s.loop.hand)
    ensures var t := HandOverStep(s);
      && t.loop == s.loop.(handed := s.loop.handed + s.loop.hand, hand := [])
      && Untagged(t.tcp.wire + t.tcp.txQ) ==
         Untagged(s.tcp.wire + s.tcp.txQ) + (if s.tcp.connected && |s.tcp.txQ| < 63 then s.loop.hand else [])
  {
    if s.loop.hand != [] {
      assert s.loop.hand == [s.loop.hand[0]];
      UntaggedPush(s.tcp.wire, s.tcp.txQ, Sent(FromLoop, s.loop.hand[0]));
    } else {
      assert s.loop.handed + s.loop.hand == s.loop.handed;
    }
  }

  /**
   * One turn of the loop in two steps: the oldest frame is worked off, its output decided by whether a heartbeat
   * response came before, and handed to the client, which keeps it exactly when it is connected with room.
   */
  lemma LoopTurn(s: State, info: seq<uint8>)
    requires |info| == DEV_INFO_SIZE && s.Inv(info) && s.loop.hand == [] && s.loop.eventQ != []
    ensures Step(s, Take, info).Inv(info)
    ensures var t := Step(Step(s, Take, info), HandOver, info);
      var item := s.loop.eventQ[0];
      var output := Output(item, s.loop.isInit, info);
      && t.loop.eventQ == s.loop.eventQ[1..] && t.loop.processed == s.loop.processed + [item] && t.loop.hand == []
      && t.loop.handed == s.loop.handed + output && t.loop.isInit == InitAfter(item, s.loop.isInit)
      && Untagged(t.tcp.wire + t.tcp.txQ) ==
         Untagged(s.tcp.wire + s.tcp.txQ) + (if s.tcp.connected && |s.tcp.txQ| < 63 then output else [])
  {
    StepKeepsInv(s, Take, info);
    var t := Step(s, Take, info);
    Taken(s.loop, info);
    assert t.loop == s.loop.Take(info) && t.tcp == s.tcp;
    HandedOver(t);
  }

  lemma Taken(l: Loop, info: seq<uint8>)
    requires |info| == DEV_INFO_SIZE && AllSelfSized(l.eventQ) && l.hand == [] && l.eventQ != []
    ensures var t, item := l.Take(info), l.eventQ[0];
      && t.hand == Output(item, l.isInit, info) && t.isInit == InitAfter(item, l.isInit) && t.handed == l.handed
      && t.eventQ == l.eventQ[1..] && t.processed == l.processed + [item]
  {
  }

  function Drains(n: nat): seq<Action> {
    seq(n, i => Drain)
  }

  lemma DrainMoves(tcp: Tcp)
    requires tcp.connected && tcp.txQ != []
    ensures var t := tcp.Drain();
      t.connected && t.txQ == tcp.txQ[1..] && t.wire + t.txQ == tcp.wire + tcp.txQ
  {
    assert tcp.txQ == [tcp.txQ[0]] + tcp.txQ[1..];
  }

  /** A connected sender thread puts what waits on the wire, in order, one item a turn. */
  lemma {:induction false} DrainsEmpty(s: State, n: nat, info: seq<uint8>)
    requires |info| == DEV_INFO_SIZE && s.Inv(info) && s.tcp.connected && n == |s.tcp.txQ|
    ensures var e := Exec(s, Drains(n), info).tcp; e.wire == s.tcp.wire + s.tcp.txQ && e.txQ == []
    decreases n
  {
    if n > 0 {
      DrainMoves(s.tcp);
      StepKeepsInv(s, Drain, info);
      assert Drains(n)[0] == Drain && Drains(n)[1..] == Drains(n - 1);
      DrainsEmpty(Step(s, Drain, info), n - 1, info);
    }
  }

  /**
   * End to end, over every run. The histories hold what was handed in. The payloads queued are those offered if and
   * only if none met a full event queue; the frames worked off are a prefix of them; what the sender thread has
   * written, followed by what still waits for it, holds exactly the loop's output trace (up to the frame in hand) if
   * and only if no output met a full queue or a missing connection, and exactly the chunks taken so far, in order, each
   * once, if and only if the splitter never sent without a connection.
   */
  lemma PipelineRefinesTrace(s: State, run: seq<Action>, info: seq<uint8>)
    requires |info| == DEV_INFO_SIZE && Init(s)
    ensures s.Inv(info)
    ensures var e := Exec(s, run, info); var out := e.tcp.wire + e.tcp.txQ;
      && BooksOf(e) == AllAdds(s, run, info)
      && e.loop.arrived == e.loop.processed + e.loop.eventQ && AllSelfSized(e.loop.processed)
      && (e.loop.arrived == e.loop.offered <==> Never(PayloadMissed, s, run, info))
      && (Items(FromLoop, out) + e.loop.hand == Trace(e.loop.processed, info) <==> Never(OutputRefused, s, run, info))
      && e.job.Sound()
      && (Items(FromSplitter, out) + e.job.Left() == e.toSplit <==> Never(ChunkSwallowed, s, run, info))
  {
    ExecKeepsInv(s, run, info);
    RunAdds(s, run, info);
    FromNothing(AllAdds(s, run, info));
    NeverIff(PayloadMissed, s, run, info);
    NeverIff(OutputRefused, s, run, info);
    NeverIff(ChunkSwallowed, s, run, info);
    AccountsBalanceIff(Exec(s, run, info), info);
  }

  lemma AccountsBalanceIff(e: State, info: seq<uint8>)
    requires |info| == DEV_INFO_SIZE && e.Inv(info)
    ensures e.loop.arrived == e.loop.offered <==> Clear(PayloadMissed, e)
    ensures Items(FromLoop, e.tcp.kept) + e.loop.hand == Trace(e.loop.processed, info) <==> Clear(OutputRefused, e)
    ensures Items(FromSplitter, e.tcp.kept) + e.job.Left() == e.toSplit <==> Clear(ChunkSwallowed, e)
  {
    if e.splitOffline {
      assert |Items(FromSplitter, e.tcp.kept) + e.job.Left()| < |e.toSplit|;
    }
    if e.lost > 0 {
      assert |Items(FromLoop, e.tcp.kept) + e.loop.hand| < |e.loop.handed + e.loop.hand|;
    }
  }

  // ---- how the splitter ends

  /** An attempt fails only against a full queue; otherwise what is left shrinks, and nobody else touches it. */
  lemma SplitterProgress(s: State, a: Action, info: seq<uint8>)
    requires |info| == DEV_INFO_SIZE && s.Inv(info) && s.job.Job?
    ensures Step(s, a, info).job == if a.Attempt? && !Blocked(s) then s.job.Advance() else s.job
    ensures s.job.len != 0 ==> s.job.Advance().Sound() && s.job.Advance().Rest() < s.job.Rest()
    ensures s.job.len == 0 ==> s.job.Advance() == s.job
  {
    s.job.AdvanceSound();
  }

  /** The attempts of a run that do not meet a full queue. */
  function Effective(s: State, run: seq<Action>, info: seq<uint8>): nat
    requires |info| == DEV_INFO_SIZE && s.Inv(info)
    decreases run
  {
    if run == [] then 0
    else
      StepKeepsInv(s, run[0], info);
      (if run[0].Attempt? && !Blocked(s) then 1 else 0) + Effective(Step(s, run[0], info), run[1..], info)
  }

  /** With a declared length of 0 the splitter never ends, whatever anyone does. */
  lemma {:induction false} ZeroLengthNeverEnds(s: State, run: seq<Action>, info: seq<uint8>)
    requires |info| == DEV_INFO_SIZE && s.Inv(info) && s.job.Job? && s.job.len == 0
    ensures Exec(s, run, info).job == s.job
    decreases run
  {
    if run != [] {
      StepKeepsInv(s, run[0], info);
      SplitterProgress(s, run[0], info);
      ZeroLengthNeverEnds(Step(s, run[0], info), run[1..], info);
    }
  }

  lemma AdvanceLeft(job: Job)
    requires job.Job? && job.Sound() && job.len != 0
    ensures job.Advance().Sound() && |job.Left()| == 1 + |job.Advance().Left()|
    ensures job.Advance().Job? ==> job.Advance().len == job.len
  {
    job.AdvanceSound();
  }

  /** Otherwise it ends exactly when as many attempts got through as there are chunks. */
  lemma {:induction false} EndsAfterChunksIff(s: State, run: seq<Action>, info: seq<uint8>)
    requires |info| == DEV_INFO_SIZE && s.Inv(info) && (s.job.Job? ==> s.job.len != 0)
    requires forall a <- run :: !a.Arrive?
    ensures Exec(s, run, info).job.NoJob? <==> Effective(s, run, info) >= |s.job.Left()|
    decreases run
  {
    if run != [] {
      var t := Step(s, run[0], info);
      assert run[0] in run && forall a <- run[1..] :: a in run;
      StepKeepsInv(s, run[0], info);
      if s.job.Job? {
        SplitterProgress(s, run[0], info);
        AdvanceLeft(s.job);
      } else {
        NoJobStays(s, run[0], info);
      }
      EndsAfterChunksIff(t, run[1..], info);
    }
  }

  lemma NoJobStays(s: State, a: Action, info: seq<uint8>)
    requires |info| == DEV_INFO_SIZE && s.Inv(info) && s.job.NoJob? && !a.Arrive?
    ensures Step(s, a, info).job.NoJob?
  {
  }

  /** A sender thread that takes a turn before every attempt. */
  function FairRounds(n: nat): seq<Action> {
    if n == 0 then [] else [Drain] + ([Attempt] + FairRounds(n - 1))
  }

  lemma EffectiveFirst(s: State, a: Action, rest: seq<Action>, info: seq<uint8>)
    requires |info| == DEV_INFO_SIZE && s.Inv(info)
    ensures Step(s, a, info).Inv(info)
    ensures Effective(s, [a] + rest, info) ==
            (if a.Attempt? && !Blocked(s) then 1 else 0) + Effective(Step(s, a, info), rest, info)
  {
    StepKeepsInv(s, a, info);
    assert ([a] + rest)[1..] == rest;
  }

  lemma DrainUnblocks(s: State, info: seq<uint8>)
    requires |info| == DEV_INFO_SIZE && s.Inv(info)
    ensures !Blocked(Step(s, Drain, info))
  {
  }

  lemma {:induction false} FairRoundsGetThrough(s: State, n: nat, info: seq<uint8>)
    requires |info| == DEV_INFO_SIZE && s.Inv(info)
    ensures Effective(s, FairRounds(n), info) == n
    decreases n
  {
    if n != 0 {
      var rest := FairRounds(n - 1);
      EffectiveFirst(s, Drain, [Attempt] + rest, info);
      DrainUnblocks(s, info);
      var t := Step(s, Drain, info);
      EffectiveFirst(t, Attempt, rest, info);
      FairRoundsGetThrough(Step(t, Attempt, info), n - 1, info);
    }
  }

  lemma {:induction false} FairRoundsBringNothing(n: nat)
    ensures forall a <- FairRounds(n) :: !a.Arrive?
  {
    if n != 0 {
      FairRoundsBringNothing(n - 1);
    }
  }

  /** Under a sender thread that keeps up the splitter ends exactly when the declared length is not 0. */
  lemma {:induction false} FairSplitterEndsIff(s: State, n: nat, info: seq<uint8>)
    requires |info| == DEV_INFO_SIZE && s.Inv(info) && s.job.Job? && n >= |s.job.Left()|
    ensures Exec(s, FairRounds(n), info).job.NoJob? <==> s.job.len != 0
  {
    FairRoundsGetThrough(s, n, info);
    FairRoundsBringNothing(n);
    if s.job.len == 0 {
      ZeroLengthNeverEnds(s, FairRounds(n), info);
    } else {
      EndsAfterChunksIff(s, FairRounds(n), info);
    }
  }
}
