/**
 * The payload splitter of `on_message_cb`: an MQTT payload longer than its first declared frame is cut into chunks of
 * that length, each retried until the TCP queue takes it.
 */
module Splitter {
  import opened Bytes
  import opened QueueSpec
  import opened TcpClients

  /** Chunks of `len` bytes, from `index` on until `n` bytes are passed, lie within the memory. */
  predicate Within(memory: seq<uint8>, index: nat, n: nat, len: nat)
    decreases n - index
  {
    index >= n || (0 < len && index + len <= |memory| && Within(memory, index + len, n, len))
  }

  /** Those chunks. The last one may reach past the `n` bytes of the payload. */
  function Chunks(memory: seq<uint8>, index: nat, n: nat, len: nat): (cs: seq<Item>)
    requires Within(memory, index, n, len)
    ensures cs == [] <==> index >= n
    ensures forall i | 0 <= i < |cs| :: |cs[i]| == len
    decreases n - index
  {
    if index >= n then [] else [memory[index..index + len]] + Chunks(memory, index + len, n, len)
  }

  /** How many of the attempts succeeded; `enqueue` answers 0 for success. */
  function Successes(outcomes: seq<int>): nat {
    if outcomes == [] then 0
    else Successes(outcomes[..|outcomes| - 1]) + (if outcomes[|outcomes| - 1] == 0 then 1 else 0)
  }

  lemma {:induction false} SuccessesAppend(a: seq<int>, b: seq<int>)
    ensures Successes(a + b) == Successes(a) + Successes(b)
  {
    if b == [] {
      assert a + b == a;
    } else {
      assert (a + b)[..|a + b| - 1] == a + b[..|b| - 1];
      SuccessesAppend(a, b[..|b| - 1]);
    }
  }

  /** What other threads do to the TCP client between two attempts. */
  datatype Meanwhile = Sends(item: Item) | Drains | Link(up: bool)

  predicate Fits(m: Meanwhile) {
    m.Sends? ==> |m.item| <= TX_SLOT
  }

  predicate KeepsLink(turn: seq<Meanwhile>) {
    forall m <- turn :: m.Link? ==> m.up
  }

  /** The sender thread took an item just before the attempt. */
  predicate EndsInDrain(turn: seq<Meanwhile>) {
    turn != [] && turn[|turn| - 1].Drains?
  }

  /** Another producer sends. */
  method OtherSends(client: TcpClient, item: Item) returns (ghost kept: seq<Sent>)
    requires client.Valid() && |item| <= TX_SLOT
    modifies client.txQueue.Repr
    ensures client.Valid() && client.Outgoing() == old(client.Outgoing()) + Untagged(kept)
    ensures Items(FromSplitter, kept) == []
    ensures kept == if client.isConnected && old(|client.txQueue.Contents()|) < 63 then [Sent(FromOther, item)] else []
  {
    var data := new uint8[|item|](i requires 0 <= i < |item| => item[i]);
    assert data[..|item|] == item;
    kept := if client.isConnected && |client.txQueue.Contents()| < 63 then [Sent(FromOther, item)] else [];
    var ret := client.Send(data, |item|);
    OtherKept(item);
  }

  lemma OtherKept(item: Item)
    ensures Items(FromSplitter, [Sent(FromOther, item)]) == [] && Untagged([Sent(FromOther, item)]) == [item]
    ensures forall stream: seq<Item> :: stream + Untagged([]) == stream
  {
    ItemsExtend(FromSplitter, [], Sent(FromOther, item));
    assert [] + [Sent(FromOther, item)] == [Sent(FromOther, item)];
  }

  /** The sender thread takes a turn, if there is a connection. */
  method SenderTurn(client: TcpClient, buf: array<uint8>)
    requires client.Valid() && buf !in client.Repr && buf.Length == TX_SLOT
    modifies client`wire, client.txQueue`tail, buf
    ensures client.Valid() && client.Outgoing() == old(client.Outgoing())
    ensures client.isConnected ==> |client.txQueue.Contents()| < CAPACITY
  {
    if client.isConnected {
      client.SendOne(buf);
    }
  }

  method OneMeanwhile(client: TcpClient, m: Meanwhile, buf: array<uint8>) returns (ghost kept: seq<Sent>)
    requires client.Valid() && Fits(m) && buf !in client.Repr && buf.Length == TX_SLOT
    modifies client`isConnected, client`wire, client.txQueue.Repr, buf
    ensures client.Valid() && client.Outgoing() == old(client.Outgoing()) + Untagged(kept)
    ensures Items(FromSplitter, kept) == []
    ensures kept ==
            if m.Sends? && old(client.isConnected) && old(|client.txQueue.Contents()|) < 63
            then [Sent(FromOther, m.item)] else []
    ensures client.isConnected == if m.Link? then m.up else old(client.isConnected)
    ensures m.Drains? && client.isConnected ==> |client.txQueue.Contents()| < CAPACITY
  {
    kept := [];
    match m
    case Sends(item) => kept := OtherSends(client, item);
    case Drains => SenderTurn(client, buf);
    case Link(up) => client.isConnected := up;
  }

  method Meantime(client: TcpClient, turn: seq<Meanwhile>, buf: array<uint8>) returns (ghost kept: seq<Sent>)
    requires client.Valid() && (forall m <- turn :: Fits(m)) && buf !in client.Repr && buf.Length == TX_SLOT
    modifies client`isConnected, client`wire, client.txQueue.Repr, buf
    ensures client.Valid() && client.Outgoing() == old(client.Outgoing()) + Untagged(kept)
    ensures Items(FromSplitter, kept) == []
    ensures old(client.isConnected) && KeepsLink(turn) ==> client.isConnected
    ensures EndsInDrain(turn) && client.isConnected ==> |client.txQueue.Contents()| < CAPACITY
  {
    kept := [];
    for i := 0 to |turn|
      invariant client.Valid() && client.Outgoing() == old(client.Outgoing()) + Untagged(kept)
      invariant Items(FromSplitter, kept) == []
      invariant old(client.isConnected) && KeepsLink(turn) ==> client.isConnected
      invariant i > 0 && turn[i - 1].Drains? && client.isConnected ==> |client.txQueue.Contents()| < CAPACITY
    {
      ghost var before := kept;
      ghost var more := OneMeanwhile(client, turn[i], buf);
      ItemsAppend(FromSplitter, kept, more);
      Joined(old(client.Outgoing()), before, more);
      kept := kept + more;
    }
  }

  lemma Joined(stream: seq<Item>, a: seq<Sent>, b: seq<Sent>)
    ensures stream + Untagged(a) + Untagged(b) == stream + Untagged(a + b)
  {
  }

  /** The chunks the client kept of those taken: all, or short of those swallowed without a connection. */
  predicate Accounted(kept: seq<Sent>, taken: seq<Item>, offline: nat) {
    var mine := Items(FromSplitter, kept);
    if offline == 0 then mine == taken else |mine| + offline == |taken|
  }

  lemma AccountedAppend(a: seq<Sent>, b: seq<Sent>, x: seq<Item>, y: seq<Item>, m: nat, n: nat)
    requires Accounted(a, x, m) && Accounted(b, y, n)
    ensures Accounted(a + b, x + y, m + n)
  {
    ItemsAppend(FromSplitter, a, b);
  }

  /** One pass of the inner loop: the others act, then the chunk is sent. */
  method Attempt(client: TcpClient, chunk: array<uint8>, turn: seq<Meanwhile>, buf: array<uint8>)
    returns (ret: int, ghost kept: seq<Sent>, ghost offline: nat)
    requires client.Valid() && (forall m <- turn :: Fits(m)) && buf !in client.Repr && buf.Length == TX_SLOT
    requires chunk !in client.Repr && chunk != buf && chunk.Length <= TX_SLOT
    modifies client`isConnected, client`wire, client.txQueue.Repr, buf
    ensures client.Valid() && client.Outgoing() == old(client.Outgoing()) + Untagged(kept)
    ensures Accounted(kept, if ret == 0 then [chunk[..]] else [], offline)
    ensures old(client.isConnected) && KeepsLink(turn) ==> client.isConnected && offline == 0
    ensures EndsInDrain(turn) ==> ret == 0
    ensures chunk[..] == old(chunk[..])
  {
    kept := Meantime(client, turn, buf);
    ghost var room := |client.txQueue.Contents()| < CAPACITY;
    ret := client.Send(chunk, chunk.Length);
    assert chunk[..chunk.Length] == chunk[..];
    offline := 0;
    if client.isConnected && room {
      ItemsExtend(FromSplitter, kept, Sent(FromSplitter, chunk[..]));
      Joined(old(client.Outgoing()), kept, [Sent(FromSplitter, chunk[..])]);
      assert Untagged([Sent(FromSplitter, chunk[..])]) == [chunk[..]];
      kept := kept + [Sent(FromSplitter, chunk[..])];
    } else if !client.isConnected {
      offline := 1;
    }
  }

  /** The inner loop, as far as the given turns go. */
  method SendChunk(client: TcpClient, chunk: array<uint8>, turns: seq<seq<Meanwhile>>, buf: array<uint8>)
    returns (ret: int, answers: seq<int>, ghost kept: seq<Sent>, ghost offline: nat)
    requires client.Valid() && buf !in client.Repr && buf.Length == TX_SLOT
    requires forall turn <- turns :: forall m <- turn :: Fits(m)
    requires chunk !in client.Repr && chunk != buf && chunk.Length <= TX_SLOT
    modifies client`isConnected, client`wire, client.txQueue.Repr, buf
    ensures client.Valid() && client.Outgoing() == old(client.Outgoing()) + Untagged(kept)
    ensures Accounted(kept, if ret == 0 then [chunk[..]] else [], offline)
    ensures |answers| <= |turns| && Successes(answers) == (if ret == 0 then 1 else 0)
    ensures ret != 0 ==> |answers| == |turns|
    ensures turns != [] ==> answers != []
    ensures old(client.isConnected) && (forall turn <- turns :: KeepsLink(turn)) ==> client.isConnected && offline == 0
    ensures (forall turn <- turns :: EndsInDrain(turn)) && turns != [] ==> ret == 0 && |answers| == 1
    ensures chunk[..] == old(chunk[..])
  {
    ret, answers, kept, offline := -1, [], [], 0;
    while ret != 0 && |answers| < |turns|
      invariant client.Valid() && client.Outgoing() == old(client.Outgoing()) + Untagged(kept)
      invariant Accounted(kept, if ret == 0 then [chunk[..]] else [], offline)
      invariant |answers| <= |turns| && Successes(answers) == (if ret == 0 then 1 else 0)
      invariant old(client.isConnected) && (forall turn <- turns :: KeepsLink(turn)) ==>
                  client.isConnected && offline == 0
      invariant (forall turn <- turns :: EndsInDrain(turn)) ==>
                  |answers| == (if ret == 0 then 1 else 0)
      invariant chunk[..] == old(chunk[..])
      decreases |turns| - |answers|
    {
      ghost var more, n;
      var turn := turns[|answers|];
      assert turn in turns;
      ret, more, n := Attempt(client, chunk, turn, buf);
      AccountedAppend(kept, more, [], if ret == 0 then [chunk[..]] else [], offline, n);
      Joined(old(client.Outgoing()), kept, more);
      assert (answers + [ret])[..|answers|] == answers;
      kept, offline, answers := kept + more, offline + n, answers + [ret];
    }
  }

  /** Every chunk taken stands for one answer 0, and is kept by the client or swallowed. */
  predicate Booked(kept: seq<Sent>, taken: seq<Item>, offline: nat, answers: seq<int>) {
    Accounted(kept, taken, offline) && |taken| == Successes(answers)
  }

  lemma BookedAppend(a: seq<Sent>, b: seq<Sent>, x: seq<Item>, y: seq<Item>, m: nat, n: nat, s: seq<int>, t: seq<int>)
    requires Booked(a, x, m, s) && Booked(b, y, n, t)
    ensures Booked(a + b, x + y, m + n, s + t)
  {
    AccountedAppend(a, b, x, y, m, n);
    SuccessesAppend(s, t);
  }

  /** The chunk at the moved pointer. */
  method SendPiece(client: TcpClient, piece: seq<uint8>, turns: seq<seq<Meanwhile>>, buf: array<uint8>)
    returns (ret: int, answers: seq<int>, ghost kept: seq<Sent>, ghost offline: nat)
    requires client.Valid() && buf !in client.Repr && buf.Length == TX_SLOT
    requires |piece| <= TX_SLOT && turns != [] && forall turn <- turns :: forall m <- turn :: Fits(m)
    modifies client`isConnected, client`wire, client.txQueue.Repr, buf
    ensures client.Valid() && client.Outgoing() == old(client.Outgoing()) + Untagged(kept)
    ensures Booked(kept, if ret == 0 then [piece] else [], offline, answers)
    ensures 0 < |answers| <= |turns| && (ret != 0 ==> |answers| == |turns|)
    ensures old(client.isConnected) && (forall turn <- turns :: KeepsLink(turn)) ==> client.isConnected && offline == 0
    ensures (forall turn <- turns :: EndsInDrain(turn)) ==> ret == 0 && |answers| == 1
  {
    var chunk := new uint8[|piece|](i requires 0 <= i < |piece| => piece[i]);
    assert chunk[..] == piece;
    ret, answers, kept, offline := SendChunk(client, chunk, turns, buf);
  }

  lemma NoneTaken(taken: seq<Item>)
    ensures taken + [] == taken
  {
  }

  lemma LaterTurns(turns: seq<seq<Meanwhile>>, n: nat)
    requires n <= |turns|
    ensures forall turn <- turns[n..] :: turn in turns
  {
  }

  /** The chunks there are to send; with a length of 0 there is no end of empty ones. */
  predicate Sendable(memory: seq<uint8>, n: nat, len: nat) {
    && 0 < n <= |memory| && len <= TX_SLOT && (len != 0 ==> Within(memory, 0, n, len))
  }

  predicate AllEmpty(chunks: seq<Item>) {
    forall i | 0 <= i < |chunks| :: chunks[i] == []
  }

  /** What has been taken when the loop stands at `index`. */
  predicate Underway(memory: seq<uint8>, n: nat, len: nat, taken: seq<Item>, index: nat, done: bool) {
    && Sendable(memory, n, len)
    && (done <==> index >= n)
    && (if len == 0 then index == 0 && AllEmpty(taken)
        else Within(memory, index, n, len) && taken + Chunks(memory, index, n, len) == Chunks(memory, 0, n, len))
  }

  lemma TakesOne(memory: seq<uint8>, n: nat, len: nat, taken: seq<Item>, index: nat)
    requires Underway(memory, n, len, taken, index, false)
    ensures index + len <= |memory|
    ensures Underway(memory, n, len, taken + [memory[index..index + len]], index + len, index + len >= n)
  {
    if len != 0 {
      var chunk := memory[index..index + len];
      assert taken + ([chunk] + Chunks(memory, index + len, n, len)) ==
             (taken + [chunk]) + Chunks(memory, index + len, n, len);
    }
  }

  /** What an unfinished or finished loop has to do with the chunks of the payload. */
  lemma TakenIsPrefix(memory: seq<uint8>, n: nat, len: nat, taken: seq<Item>, index: nat, done: bool)
    requires Underway(memory, n, len, taken, index, done) && len != 0
    ensures var all := Chunks(memory, 0, n, len);
      taken <= all && (done <==> taken == all) && (done <==> |taken| == |all|)
  {
    var all, left := Chunks(memory, 0, n, len), Chunks(memory, index, n, len);
    assert |all| == |taken| + |left| && all[..|taken|] == taken;
  }

  /**
   * What comes of the loops: chunks of the payload, in order, each once, all of them exactly when the loop is over; or
   * empty chunks without end. While the sender thread keeps up, it is over after as many attempts as there are chunks,
   * exactly when the declared length is not 0.
   */
  predicate Outcome(memory: seq<uint8>, n: nat, len: nat, turns: seq<seq<Meanwhile>>, taken: seq<Item>, done: bool)
    requires Sendable(memory, n, len)
  {
    var steady := forall turn <- turns :: EndsInDrain(turn);
    if len == 0 then !done && AllEmpty(taken) && (steady ==> |taken| == |turns|)
    else
      var all := Chunks(memory, 0, n, len);
      taken <= all && (done <==> taken == all) && (steady ==> (done <==> |all| <= |turns|))
  }

  lemma NothingTaken(memory: seq<uint8>, n: nat, len: nat)
    requires Sendable(memory, n, len)
    ensures Underway(memory, n, len, [], 0, false)
  {
    if len != 0 {
      assert [] + Chunks(memory, 0, n, len) == Chunks(memory, 0, n, len);
    }
  }

  lemma Finished(memory: seq<uint8>, n: nat, len: nat, turns: seq<seq<Meanwhile>>, taken: seq<Item>, index: nat,
                 done: bool, attempts: nat)
    requires Underway(memory, n, len, taken, index, done) && attempts <= |turns| && (!done ==> attempts == |turns|)
    requires (forall turn <- turns :: EndsInDrain(turn)) ==> attempts == |taken|
    ensures Outcome(memory, n, len, turns, taken, done)
  {
    if len != 0 {
      TakenIsPrefix(memory, n, len, taken, index, done);
    }
  }

  /** One pass of the outer loop: the chunk at `index`, and the loop's variables after it. */
  method Pass(client: TcpClient, memory: seq<uint8>, n: nat, len: nat, index: nat, later: seq<seq<Meanwhile>>,
              buf: array<uint8>, ghost stream: seq<Item>, taken: seq<Item>, answers: seq<int>,
              ghost kept: seq<Sent>, ghost offline: nat)
    returns (taken': seq<Item>, index': nat, done: bool, answers': seq<int>,
             ghost kept': seq<Sent>, ghost offline': nat)
    requires client.Valid() && buf !in client.Repr && buf.Length == TX_SLOT
    requires later != [] && forall turn <- later :: forall m <- turn :: Fits(m)
    requires Underway(memory, n, len, taken, index, false)
    requires client.Outgoing() == stream + Untagged(kept) && Booked(kept, taken, offline, answers)
    modifies client`isConnected, client`wire, client.txQueue.Repr, buf
    ensures client.Valid() && client.Outgoing() == stream + Untagged(kept')
    ensures Booked(kept', taken', offline', answers') && Underway(memory, n, len, taken', index', done)
    ensures |answers| < |answers'| <= |answers| + |later|
    ensures old(client.isConnected) && (forall turn <- later :: KeepsLink(turn)) ==>
              client.isConnected && offline' == offline
    ensures (forall turn <- later :: EndsInDrain(turn)) ==>
              |taken'| == |taken| + 1 && |answers'| == |answers| + 1
  {
    TakesOne(memory, n, len, taken, index);
    var piece := memory[index..index + len];
    ghost var more, k;
    var ret, some;
    ret, some, more, k := SendPiece(client, piece, later, buf);
    BookedAppend(kept, more, taken, if ret == 0 then [piece] else [], offline, k, answers, some);
    Joined(stream, kept, more);
    NoneTaken(taken);
    taken', index', done := taken, index, false;
    answers', kept', offline' := answers + some, kept + more, offline + k;
    if ret == 0 {
      taken', index', done := taken + [piece], index + len, index + len >= n;
    }
  }

  /**
   * The nested do/while loops on the TCP client itself, for a payload of `n` bytes at the start of `memory` and any
   * declared length, against anything the other threads do before each attempt (`turns`): other sends, turns of the
   * sender thread, a connection that comes and goes. The chunks taken are those of the payload, in order, each once,
   * one for every answer 0; the client's stream grows by what the others sent and exactly those chunks, but for the
   * ones swallowed without a connection. While the sender thread keeps up every attempt succeeds, and the loop is
   * over after as many attempts as there are chunks exactly when the declared length is not 0.
   */
  method SplitPayload(client: TcpClient, memory: seq<uint8>, n: nat, len: nat, turns: seq<seq<Meanwhile>>)
    returns (taken: seq<Item>, done: bool, answers: seq<int>, ghost kept: seq<Sent>, ghost offline: nat)
    requires client.Valid() && forall turn <- turns :: forall m <- turn :: Fits(m)
    requires Sendable(memory, n, len)
    modifies client`isConnected, client`wire, client.txQueue.Repr
    ensures client.Valid() && client.Outgoing() == old(client.Outgoing()) + Untagged(kept)
    ensures Accounted(kept, taken, offline)
    ensures old(client.isConnected) && (forall turn <- turns :: KeepsLink(turn)) ==> offline == 0
    ensures Outcome(memory, n, len, turns, taken, done)
    ensures |taken| == Successes(answers) && (!done ==> |answers| == |turns|)
  {
    var buf := new uint8[TX_SLOT](_ => 0);
    var index: nat := 0;
    ghost var stream := client.Outgoing();
    ghost var linked := client.isConnected && forall turn <- turns :: KeepsLink(turn);
    ghost var steady := forall turn <- turns :: EndsInDrain(turn);
    taken, done, answers, kept, offline := [], false, [], [], 0;
    NothingTaken(memory, n, len);
    while !done && |answers| < |turns|
      invariant fresh(buf) && buf.Length == TX_SLOT
      invariant client.Valid() && client.Outgoing() == stream + Untagged(kept)
      invariant Booked(kept, taken, offline, answers) && (linked ==> client.isConnected && offline == 0)
      invariant Underway(memory, n, len, taken, index, done)
      invariant |answers| <= |turns| && (steady ==> |answers| == |taken|)
      decreases |turns| - |answers|
    {
      LaterTurns(turns, |answers|);
      taken, index, done, answers, kept, offline :=
        Pass(client, memory, n, len, index, turns[|answers|..], buf, stream, taken, answers, kept, offline);
    }
    Finished(memory, n, len, turns, taken, index, done, |answers|);
  }

  // ---- what the chunks spell

  lemma {:induction false} ChunksSpell(memory: seq<uint8>, index: nat, n: nat, len: nat)
    requires Within(memory, index, n, len) && index <= |memory| && 0 < len
    ensures var all := Concat(Chunks(memory, index, n, len));
      && index + |all| <= |memory| && all == memory[index..index + |all|] && |all| % len == 0
      && (index < n ==> n <= index + |all| < n + len)
    decreases n - index
  {
    if index < n {
      var rest := Chunks(memory, index + len, n, len);
      ChunksSpell(memory, index + len, n, len);
      assert ([memory[index..index + len]] + rest)[1..] == rest;
      RemainderDrops(len + |Concat(rest)|, len);
    }
  }

  /** The chunks are the payload and nothing else exactly when the declared length divides its length. */
  lemma SplitsEvenlyIff(memory: seq<uint8>, n: nat, len: nat)
    requires 0 < n <= |memory| && 0 < len && Within(memory, 0, n, len)
    ensures var all := Concat(Chunks(memory, 0, n, len));
      && memory[..n] <= all && |all| < n + len
      && (all == memory[..n] <==> n % len == 0)
  {
    var all := Concat(Chunks(memory, 0, n, len));
    ChunksSpell(memory, 0, n, len);
    if n % len == 0 {
      SameMultiple(|all|, n, len);
    }
  }

  lemma SameMultiple(a: nat, b: nat, len: nat)
    requires 0 < len && a % len == 0 && b % len == 0 && b <= a < b + len
    ensures a == b
  {
    var p, q := a / len, b / len;
    assert p * len == a && q * len == b;
    assert (p - q) * len == a - b by { Distribute(p, q - 1, len); }
    Multiples(p - q, len);
  }

  lemma RemainderDrops(n: nat, len: nat)
    requires 0 < len <= n
    ensures n % len == (n - len) % len
  {
    var p, s := n / len, n % len;
    var q, r := (n - len) / len, (n - len) % len;
    assert p * len + s == n && q * len + r == n - len;
    assert (p - q - 1) * len == r - s by { Distribute(p, q, len); }
    Multiples(p - q - 1, len);
  }

  lemma Distribute(p: int, q: int, len: int)
    ensures (p - q - 1) * len == p * len - q * len - len
  {
  }

  lemma Multiples(d: int, len: int)
    requires 0 < len
    ensures d >= 1 ==> d * len >= len
    ensures d <= -1 ==> d * len <= -len
  {
  }
}
