/** The protocol steps of one actor, run without interruption, are the turns of the device on its byte queues. */
module CanTurns {
  import opened Bytes
  import opened CanFrames
  import D = CanDevices
  import P = CanProtocol

  /** Forgetting the message numbers. */
  function Packets(q: seq<P.Copy>): seq<Packet> {
    seq(|q|, i requires 0 <= i < |q| => q[i].pkt)
  }

  /** The frames of all transmissions, in order. */
  function Bus(sent: seq<P.Transmission>): seq<CanFrame> {
    if sent == [] then [] else Bus(sent[..|sent| - 1]) + sent[|sent| - 1].frames
  }

  function Wires(s: P.State): D.Wires {
    D.Wires(Packets(s.txQ), Packets(s.waitQ), Bus(s.sent))
  }

  lemma PacketsPush(q: seq<P.Copy>, c: P.Copy)
    ensures Packets(q + [c]) == Packets(q) + [c.pkt]
  {
  }

  lemma PacketsPop(q: seq<P.Copy>)
    requires q != []
    ensures Packets(q) != [] && Packets(q)[0] == q[0].pkt && Packets(q[1..]) == Packets(q)[1..]
  {
  }

  lemma BusPush(sent: seq<P.Transmission>, t: P.Transmission)
    ensures Bus(sent + [t]) == Bus(sent) + t.frames
  {
    assert (sent + [t])[..|sent|] == sent;
  }

  lemma ToTxWires(s: P.State, c: P.Copy)
    ensures Wires(P.ToTx(s, c)) == Wires(s).(tx := D.Append(Wires(s).tx, c.pkt))
  {
    PacketsPush(s.txQ, c);
  }

  lemma ToWaitingWires(s: P.State, c: P.Copy)
    ensures Wires(P.ToWaiting(s, c)) == Wires(s).(waiting := D.Append(Wires(s).waiting, c.pkt))
  {
    PacketsPush(s.waitQ, c);
  }

  function TxSteps(s: P.State, writesOk: nat): P.State {
    P.Step(P.Step(P.Step(P.Step(s, P.TxDequeue), P.TxWrite(writesOk)), P.TxStamp), P.TxRequeue)
  }

  function MgrSteps(s: P.State): P.State {
    P.Step(P.Step(P.Step(s, P.MgrDequeue), P.MgrTest), P.MgrRequeue)
  }

  /** A send, seen on the wires, is the device's send. */
  lemma {:induction false} SendIsStep(s: P.State, number: uint8, timeouts: uint16, payload: seq<uint8>)
    requires number > 0 && timeouts > 0 && HEADER_SIZE + |payload| <= MAX_DATA_SIZE
    ensures var p := Packet(RetransHeader(1, number, timeouts, s.clock), payload);
      Wires(P.Step(s, P.Send(number, timeouts, payload))) == Wires(s).(tx := D.Append(Wires(s).tx, p))
  {
    var c := P.Copy(|s.originals|, Packet(RetransHeader(1, number, timeouts, s.clock), payload));
    ToTxWires(s.(originals := s.originals + [P.Original(number, timeouts, payload)]), c);
  }

  /** The transmit thread's four steps are `tx_thread_func`'s turn, and leave it idle again. */
  lemma {:induction false} TxTurnIsSteps(s: P.State, writesOk: nat)
    requires s.txHand == P.TxIdle
    ensures Wires(TxSteps(s, writesOk)) == D.AfterTxTurn(Wires(s), s.canId, s.clock, writesOk)
    ensures TxSteps(s, writesOk).txHand == P.TxIdle && TxSteps(s, writesOk).mgrHand == s.mgrHand
  {
    if s.txQ != [] {
      var c, s1 := s.txQ[0], P.TxDequeueStep(s);
      PacketsPop(s.txQ);
      BusPush(s.sent, P.Written(s1, c, writesOk));
      var s3 := P.TxStampStep(P.TxWriteStep(s1, writesOk));
      if c.pkt.hdr.retryCounts > 1 {
        ToWaitingWires(s3.(txHand := P.TxIdle), s3.txHand.c);
      }
    }
  }

  /** The manager's three steps are `check_retransmissions`' turn, and leave it idle again. */
  lemma {:induction false} CheckTurnIsSteps(s: P.State)
    requires s.mgrHand == P.MgrIdle
    ensures Wires(MgrSteps(s)) == D.AfterCheckTurn(Wires(s), s.clock)
    ensures MgrSteps(s).mgrHand == P.MgrIdle && MgrSteps(s).txHand == s.txHand
  {
    if s.waitQ != [] {
      var c := s.waitQ[0];
      PacketsPop(s.waitQ);
      var s2 := P.MgrTestStep(P.MgrDequeueStep(s));
      if s2.mgrHand.MgrExpired? {
        ToTxWires(s2.(mgrHand := P.MgrIdle), c);
      } else {
        ToWaitingWires(s2.(mgrHand := P.MgrIdle), c);
      }
    }
  }
}
