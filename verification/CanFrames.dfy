/** The data of `can.c`: the retransmission header as packed bytes, and the cutting of a payload into CAN frames. */
module CanFrames {
  import opened Bytes
  import opened Clock

  const MAX_DATA_SIZE: nat := 256
  /** `sizeof(RetransHeader)`: two bytes, a 16-bit word and a 16-byte `struct timeval` (64-bit host). */
  const HEADER_SIZE: nat := 20
  const FRAME_DATA: nat := 8

  datatype RetransHeader = RetransHeader(isRetrans: uint8, retryCounts: uint8, timeouts: uint16, time: Time)

  datatype Packet = Packet(hdr: RetransHeader, payload: seq<uint8>)
  {
    /** What `can_device_send` queues in its header branch, and what every later copy still is. */
    predicate Sound() {
      && hdr.isRetrans == 1 && 1 <= hdr.retryCounts && 1 <= hdr.timeouts
      && InRange(hdr.time) && HEADER_SIZE + |payload| <= MAX_DATA_SIZE
    }

    /** The copy that goes back to waiting after a transmission: one try less, stamped with the present time. */
    function Again(now: Time): Packet
      requires hdr.retryCounts >= 1
    {
      this.(hdr := hdr.(retryCounts := hdr.retryCounts - 1, time := now))
    }
  }

  datatype CanFrame = CanFrame(canId: nat, dlc: nat, data: seq<uint8>)

  /** The frames of one transmission. */
  function Fragments(canId: nat, payload: seq<uint8>): seq<CanFrame> {
    if payload == [] then []
    else if |payload| <= FRAME_DATA then [CanFrame(canId, |payload|, payload)]
    else [CanFrame(canId, FRAME_DATA, payload[..FRAME_DATA])] + Fragments(canId, payload[FRAME_DATA..])
  }

  /** The payload bytes carried by a sequence of frames. */
  function Carried(frames: seq<CanFrame>): seq<uint8> {
    if frames == [] then [] else frames[0].data + Carried(frames[1..])
  }

  /** The number of frames the source computes: the length over eight, rounded up. */
  function FrameCount(n: nat): nat {
    n / FRAME_DATA + (if n % FRAME_DATA != 0 then 1 else 0)
  }

  /** Frame `i` by itself, as the loop body sees it. */
  function FragmentAt(canId: nat, payload: seq<uint8>, i: nat): CanFrame
    requires FRAME_DATA * i < |payload|
  {
    var dlc := if |payload| - FRAME_DATA * i > FRAME_DATA then FRAME_DATA else |payload| - FRAME_DATA * i;
    CanFrame(canId, dlc, payload[FRAME_DATA * i..FRAME_DATA * i + dlc])
  }

  lemma {:induction false} FragmentsIndexed(canId: nat, payload: seq<uint8>)
    ensures |Fragments(canId, payload)| == FrameCount(|payload|)
    ensures forall i | 0 <= i < |Fragments(canId, payload)| ::
              FRAME_DATA * i < |payload| && Fragments(canId, payload)[i] == FragmentAt(canId, payload, i)
    decreases |payload|
  {
    if |payload| > FRAME_DATA {
      var rest, all := payload[FRAME_DATA..], Fragments(canId, payload);
      FragmentsIndexed(canId, rest);
      forall i | 0 <= i < |all|
        ensures FRAME_DATA * i < |payload| && all[i] == FragmentAt(canId, payload, i)
      {
        if i > 0 {
          FragmentOfRest(canId, payload, i);
          assert all[i] == Fragments(canId, rest)[i - 1];
        }
      }
    } else if payload != [] {
      assert payload[..|payload|] == payload;
    }
  }

  lemma FragmentOfRest(canId: nat, payload: seq<uint8>, i: nat)
    requires |payload| > FRAME_DATA && 0 < i && FRAME_DATA * (i - 1) < |payload| - FRAME_DATA
    ensures FRAME_DATA * i < |payload|
    ensures FragmentAt(canId, payload[FRAME_DATA..], i - 1) == FragmentAt(canId, payload, i)
  {
  }

  lemma {:induction false} FragmentsCarry(canId: nat, payload: seq<uint8>)
    ensures Carried(Fragments(canId, payload)) == payload
    decreases |payload|
  {
    var all := Fragments(canId, payload);
    if |payload| > FRAME_DATA {
      FragmentsCarry(canId, payload[FRAME_DATA..]);
      assert all[1..] == Fragments(canId, payload[FRAME_DATA..]);
    } else if payload != [] {
      assert all[1..] == [];
    }
  }

  /**
   * Fragmentation: ceil(n/8) frames of the device's own id, all but the last of exactly eight bytes and the last of
   * one to eight, which together carry the payload.
   */
  lemma {:induction false} FragmentsExact(canId: nat, payload: seq<uint8>)
    ensures var fs := Fragments(canId, payload);
      && |fs| == (|payload| + 7) / 8
      && (forall i | 0 <= i < |fs| ::
            && fs[i].canId == canId && fs[i].dlc == |fs[i].data| && 1 <= fs[i].dlc <= 8
            && (i < |fs| - 1 ==> fs[i].dlc == 8))
      && Carried(fs) == payload
  {
    FragmentsIndexed(canId, payload);
    FragmentsCarry(canId, payload);
  }

  // ---- the header as bytes

  function LittleEndian(v: nat, n: nat): (s: seq<uint8>)
    ensures |s| == n
  {
    if n == 0 then [] else [v % 0x100] + LittleEndian(v / 0x100, n - 1)
  }

  function FromLittleEndian(s: seq<uint8>): nat {
    if s == [] then 0 else s[0] + 0x100 * FromLittleEndian(s[1..])
  }

  function Range(n: nat): nat {
    if n == 0 then 1 else 0x100 * Range(n - 1)
  }

  lemma {:induction false} LittleEndianRoundTrip(v: nat, n: nat)
    requires v < Range(n)
    ensures FromLittleEndian(LittleEndian(v, n)) == v
    decreases n
  {
    if n > 0 {
      LittleEndianRoundTrip(v / 0x100, n - 1);
      assert LittleEndian(v, n)[1..] == LittleEndian(v / 0x100, n - 1);
    }
  }

  function PackTime(t: Time): (s: seq<uint8>)
    ensures |s| == 16
  {
    LittleEndian(t.sec, 8) + LittleEndian(t.usec, 8)
  }

  function Pack(h: RetransHeader): (s: seq<uint8>)
    ensures |s| == HEADER_SIZE
  {
    [h.isRetrans, h.retryCounts, LowByte(h.timeouts), HighByte(h.timeouts)] + PackTime(h.time)
  }

  /** The whole queue item: packed header, then payload. */
  function Encode(p: Packet): seq<uint8> {
    Pack(p.hdr) + p.payload
  }

  /** What reading the header through a cast pointer yields; a time that is not normalised reads as zero here. */
  function UnpackTime(s: seq<uint8>): Time
    requires |s| == 16
  {
    var usec := FromLittleEndian(s[8..]);
    if usec < USEC then TimeVal(FromLittleEndian(s[..8]), usec) else TimeVal(0, 0)
  }

  function Decode(s: seq<uint8>): Packet
    requires HEADER_SIZE <= |s|
  {
    Packet(RetransHeader(s[0], s[1], Word(s[3], s[2]), UnpackTime(s[4..HEADER_SIZE])), s[HEADER_SIZE..])
  }

  lemma EightBytes()
    ensures Range(8) == ULONG
  {
    assert Range(4) == 0x1_0000_0000 by {
      assert Range(2) == 0x1_0000;
    }
    assert Range(6) == 0x1_0000_0000_0000;
  }

  lemma TimeRoundTrip(t: Time)
    requires InRange(t)
    ensures UnpackTime(PackTime(t)) == t
  {
    EightBytes();
    MillisSplit(t);
    LittleEndianRoundTrip(t.sec, 8);
    LittleEndianRoundTrip(t.usec, 8);
    assert PackTime(t)[..8] == LittleEndian(t.sec, 8) && PackTime(t)[8..] == LittleEndian(t.usec, 8);
  }

  lemma PackedTime(t: Time)
    requires InRange(t)
    ensures var s := PackTime(t);
      && s[0] == t.sec % 256 && FromLittleEndian(s[..8]) == t.sec
      && s[8] == t.usec % 256 && FromLittleEndian(s[8..]) == t.usec
  {
    EightBytes();
    MillisSplit(t);
    LittleEndianRoundTrip(t.sec, 8);
    LittleEndianRoundTrip(t.usec, 8);
    assert PackTime(t)[..8] == LittleEndian(t.sec, 8) && PackTime(t)[8..] == LittleEndian(t.usec, 8);
  }

  /** Where the fields lie in a queue item, and that its numbers are little-endian. */
  lemma PackedLayout(p: Packet)
    requires InRange(p.hdr.time)
    ensures var s := Encode(p);
      && |s| == 20 + |p.payload| && s[20..] == p.payload
      && s[0] == p.hdr.isRetrans && s[1] == p.hdr.retryCounts
      && s[2] == p.hdr.timeouts % 256 && s[3] == p.hdr.timeouts / 256
      && s[4] == p.hdr.time.sec % 256 && FromLittleEndian(s[4..12]) == p.hdr.time.sec
      && s[12] == p.hdr.time.usec % 256 && FromLittleEndian(s[12..20]) == p.hdr.time.usec
  {
    var s, packed := Encode(p), PackTime(p.hdr.time);
    PackedTime(p.hdr.time);
    assert s[4..12] == packed[..8] && s[12..20] == packed[8..] && s[20..] == p.payload;
    assert s[4] == packed[0] && s[12] == packed[8];
  }

  /** A packet survives being stored as bytes. */
  lemma PacketRoundTrip(p: Packet)
    requires InRange(p.hdr.time)
    ensures Decode(Encode(p)) == p
  {
    TimeRoundTrip(p.hdr.time);
    var s := Encode(p);
    assert s[4..HEADER_SIZE] == PackTime(p.hdr.time) && s[HEADER_SIZE..] == p.payload;
  }
}
