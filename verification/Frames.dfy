/**
 * The message frame shared by the field device and the cloud: two header bytes, big-endian total length, one sign
 * byte, payload, and a big-endian additive checksum of everything before it.
 */
module Frames {
  import opened Bytes

  const HDR1: uint8 := 0xAA
  const HDR2: uint8 := 0xBB
  const HDR_SIZE: nat := 5
  const CRC_SIZE: nat := 2

  /** `checkSum_8`: the bytes added up in a 16-bit word. */
  method CheckSum8(buf: array<uint8>, len: uint16) returns (ret: uint16)
    requires len <= buf.Length
    ensures ret == Sum(buf[..len]) % 0x1_0000
  {
    var i: uint16 := 0;
    ret := 0;
    while i < len
      invariant i <= len
      invariant ret == Sum(buf[..i]) % 0x1_0000
    {
      ret := (ret + buf[i]) % 0x1_0000;
      i := i + 1;
      assert buf[..i][..i - 1] == buf[..i - 1];
    }
  }

  /** The five header bytes of a frame with this sign and a payload of `n` bytes. */
  function Header(sign: uint8, n: nat): seq<uint8>
    requires HDR_SIZE + n + CRC_SIZE < 0x1_0000
  {
    var len := HDR_SIZE + n + CRC_SIZE;
    [HDR1, HDR1, HighByte(len), LowByte(len), sign]
  }

  /** Everything the checksum covers in a frame built for this sign and payload. */
  function Covered(sign: uint8, payload: seq<uint8>): seq<uint8>
    requires HDR_SIZE + |payload| + CRC_SIZE < 0x1_0000
  {
    Header(sign, |payload|) + payload
  }

  /** The frame every builder of the source produces. */
  function Frame(sign: uint8, payload: seq<uint8>): seq<uint8>
    requires HDR_SIZE + |payload| + CRC_SIZE < 0x1_0000
  {
    var crc := Sum(Covered(sign, payload)) % 0x1_0000;
    Covered(sign, payload) + [HighByte(crc), LowByte(crc)]
  }

  /**
   * How `func_dev_info_resp`, `heartbeat_req_task_cb`, `func_wave_file_resp` and `nav_data_msg_task_cb` build a
   * frame in a local buffer: header fields, payload, then the checksum of what is already there. The rest of the
   * buffer keeps its bytes.
   */
  method BuildFrame(buf: array<uint8>, sign: uint8, payload: seq<uint8>) returns (len: uint16)
    requires HDR_SIZE + |payload| + CRC_SIZE < 0x1_0000
    requires HDR_SIZE + |payload| + CRC_SIZE <= buf.Length
    modifies buf
    ensures len == |Frame(sign, payload)|
    ensures buf[..len] == Frame(sign, payload)
    ensures buf[len..] == old(buf[..])[len..]
  {
    len := HDR_SIZE + |payload| + CRC_SIZE;
    buf[0], buf[1] := HDR1, HDR1;
    buf[4] := sign;
    buf[2], buf[3] := HighByte(len), LowByte(len);
    forall i | 0 <= i < |payload| {
      buf[HDR_SIZE + i] := payload[i];
    }
    assert buf[..len - CRC_SIZE] == Covered(sign, payload);
    var crc := CheckSum8(buf, len - CRC_SIZE);
    buf[len - 2], buf[len - 1] := HighByte(crc), LowByte(crc);
    assert buf[..len] == buf[..len - CRC_SIZE] + [buf[len - 2], buf[len - 1]];
    assert buf[..len - CRC_SIZE] == Covered(sign, payload);
  }

  function DeclaredLen(buf: seq<uint8>): uint16
    requires HDR_SIZE <= |buf|
  {
    Word(buf[2], buf[3])
  }

  function Sign(buf: seq<uint8>): uint8
    requires HDR_SIZE <= |buf|
  {
    buf[4]
  }

  predicate HeaderOk(buf: seq<uint8>)
    requires HDR_SIZE <= |buf|
  {
    (buf[0] == HDR1 && buf[1] == HDR1) || (buf[0] == HDR2 && buf[1] == HDR2)
  }

  /** The buffer holds the whole frame it declares, so that a validator reads inside it. */
  predicate Readable(buf: seq<uint8>) {
    HDR_SIZE <= |buf| && CRC_SIZE <= DeclaredLen(buf) <= |buf|
  }

  function ActualSum(buf: seq<uint8>): uint16
    requires Readable(buf)
  {
    Sum(buf[..DeclaredLen(buf) - CRC_SIZE]) % 0x1_0000
  }

  function Trailer(buf: seq<uint8>): uint16
    requires Readable(buf)
  {
    var len := DeclaredLen(buf);
    Word(buf[len - 2], buf[len - 1])
  }

  /** The test in `cloud_event_task_entry`: both sides of the comparison are unsigned. */
  predicate CloudAccepts(buf: seq<uint8>)
    requires Readable(buf)
  {
    HeaderOk(buf) && ActualSum(buf) == Trailer(buf)
  }

  /** A 16-bit word read as the signed `int16_t` it is stored in. */
  function AsInt16(w: uint16): int {
    if w < 0x8000 then w else w - 0x1_0000
  }

  /** The test in `fkz9_event_task_entry`: the computed sum sits in an `int16_t`, the trailer stays unsigned. */
  predicate Fkz9Accepts(buf: seq<uint8>)
    requires Readable(buf)
  {
    HeaderOk(buf) && AsInt16(ActualSum(buf)) == Trailer(buf)
  }

  function PayloadOf(buf: seq<uint8>): seq<uint8>
    requires Readable(buf) && HDR_SIZE + CRC_SIZE <= DeclaredLen(buf)
  {
    buf[HDR_SIZE..DeclaredLen(buf) - CRC_SIZE]
  }

  lemma WordOfBytes(w: uint16)
    ensures Word(HighByte(w), LowByte(w)) == w
  {
  }

  /** Covered bytes with a trailer behind them. */
  function Closed(covered: seq<uint8>, crc: uint16): seq<uint8> {
    covered + [HighByte(crc), LowByte(crc)]
  }

  /** What a validator reads of a closed frame that declares its own length, whatever follows it. */
  lemma ClosedReads(covered: seq<uint8>, crc: uint16, stale: seq<uint8>)
    requires HDR_SIZE <= |covered| && Word(covered[2], covered[3]) == |covered| + CRC_SIZE
    ensures var buf := Closed(covered, crc) + stale;
      && Readable(buf) && DeclaredLen(buf) == |covered| + CRC_SIZE && Sign(buf) == covered[4]
      && HeaderOk(buf) == HeaderOk(covered) && PayloadOf(buf) == covered[HDR_SIZE..]
      && ActualSum(buf) == Sum(covered) % 0x1_0000 && Trailer(buf) == crc
  {
    var buf := Closed(covered, crc) + stale;
    assert forall i | 0 <= i < |covered| :: buf[i] == covered[i];
    assert buf[..|covered|] == covered;
    assert buf[|covered|] == HighByte(crc) && buf[|covered| + 1] == LowByte(crc);
    WordOfBytes(crc);
  }

  /** A built frame, whatever follows it in the receiver's buffer, is accepted by the cloud-side test and reads back. */
  lemma BuiltFrameIsAccepted(sign: uint8, payload: seq<uint8>, stale: seq<uint8>)
    requires HDR_SIZE + |payload| + CRC_SIZE < 0x1_0000
    ensures var buf := Frame(sign, payload) + stale;
      && Readable(buf) && DeclaredLen(buf) == |Frame(sign, payload)|
      && CloudAccepts(buf) && Sign(buf) == sign && PayloadOf(buf) == payload
      && (Fkz9Accepts(buf) <==> ActualSum(buf) < 0x8000)
  {
    var covered := Covered(sign, payload);
    WordOfBytes(|covered| + CRC_SIZE);
    ClosedReads(covered, Sum(covered) % 0x1_0000, stale);
    assert Frame(sign, payload) + stale == Closed(covered, Sum(covered) % 0x1_0000) + stale;
    assert covered[HDR_SIZE..] == payload;
  }

  /** The bytes that go over the wire, with big-endian length and checksum. */
  lemma FrameLayout(sign: uint8, payload: seq<uint8>)
    requires HDR_SIZE + |payload| + CRC_SIZE < 0x1_0000
    ensures var f := Frame(sign, payload); var n := |payload|;
      && |f| == n + 7 && f[0] == f[1] == 0xAA && f[2] == (n + 7) / 256 && f[3] == (n + 7) % 256 && f[4] == sign
      && f[5..n + 5] == payload
      && f[n + 5] == Sum(f[..n + 5]) % 65536 / 256 && f[n + 6] == Sum(f[..n + 5]) % 256
  {
    var f := Frame(sign, payload);
    assert f[..|payload| + 5] == Covered(sign, payload);
  }

  /** A frame like a built one, with these two header bytes. */
  function Headed(h1: uint8, h2: uint8, sign: uint8, payload: seq<uint8>): seq<uint8>
    requires HDR_SIZE + |payload| + CRC_SIZE < 0x1_0000
  {
    var len := HDR_SIZE + |payload| + CRC_SIZE;
    var covered := [h1, h2, HighByte(len), LowByte(len), sign] + payload;
    Closed(covered, Sum(covered) % 0x1_0000)
  }

  /** Which headers the validators know: of frames that are otherwise right, those of two 0xAA or two 0xBB only. */
  lemma KnownHeadersIff(h1: uint8, h2: uint8, sign: uint8, payload: seq<uint8>)
    requires HDR_SIZE + |payload| + CRC_SIZE < 0x1_0000
    ensures var f := Headed(h1, h2, sign, payload);
      && Readable(f) && DeclaredLen(f) == |f|
      && (CloudAccepts(f) <==> (h1 == 0xAA && h2 == 0xAA) || (h1 == 0xBB && h2 == 0xBB))
      && (Fkz9Accepts(f) <==> CloudAccepts(f) && Sum(f[..|f| - 2]) % 65536 < 32768)
  {
    var len := HDR_SIZE + |payload| + CRC_SIZE;
    var covered := [h1, h2, HighByte(len), LowByte(len), sign] + payload;
    WordOfBytes(len);
    ClosedReads(covered, Sum(covered) % 0x1_0000, []);
    var f := Headed(h1, h2, sign, payload);
    assert f + [] == f && f[..|f| - 2] == covered;
  }

  /** A buffer that holds one frame with a complete header and trailer, and nothing else. */
  predicate OneFrame(buf: seq<uint8>) {
    HDR_SIZE + CRC_SIZE <= |buf| && DeclaredLen(buf) == |buf|
  }

  /** `buf` is `frame` except that the payload bytes may have been replaced in transit. */
  predicate PayloadReplaced(frame: seq<uint8>, buf: seq<uint8>)
    requires OneFrame(frame)
  {
    && |buf| == |frame| && buf[..HDR_SIZE] == frame[..HDR_SIZE]
    && buf[|frame| - 2] == frame[|frame| - 2] && buf[|frame| - 1] == frame[|frame| - 1]
  }

  lemma SumOfParts(buf: seq<uint8>)
    requires OneFrame(buf)
    ensures Sum(buf[..|buf| - CRC_SIZE]) == Sum(buf[..HDR_SIZE]) + Sum(PayloadOf(buf))
  {
    assert buf[..|buf| - CRC_SIZE] == buf[..HDR_SIZE] + PayloadOf(buf);
    SumAppend(buf[..HDR_SIZE], PayloadOf(buf));
  }

  lemma ShiftedResidue(x: int, k: int)
    ensures (x + 0x1_0000 * k) % 0x1_0000 == x % 0x1_0000
  {
  }

  /** A common share `h` of two sums does not matter to whether they agree modulo 65536. */
  lemma ShareCancels(h: int, a: int, b: int)
    ensures (h + a) % 0x1_0000 == (h + b) % 0x1_0000 <==> a % 0x1_0000 == b % 0x1_0000
  {
    if a % 0x1_0000 == b % 0x1_0000 {
      ShiftedResidue(h + b, a / 0x1_0000 - b / 0x1_0000);
    }
    if (h + a) % 0x1_0000 == (h + b) % 0x1_0000 {
      ShiftedResidue(b, (h + a) / 0x1_0000 - (h + b) / 0x1_0000);
    }
  }

  lemma ReplacedKeepsEnvelope(frame: seq<uint8>, buf: seq<uint8>)
    requires OneFrame(frame) && PayloadReplaced(frame, buf)
    ensures OneFrame(buf) && HeaderOk(buf) == HeaderOk(frame) && Trailer(buf) == Trailer(frame)
    ensures |PayloadOf(buf)| == |PayloadOf(frame)|
  {
    assert forall i | 0 <= i < HDR_SIZE :: buf[i] == buf[..HDR_SIZE][i] == frame[..HDR_SIZE][i] == frame[i];
  }

  /** Exactly the corruptions of an accepted frame that keep the byte sum modulo 65536 go unnoticed. */
  lemma CorruptionUndetectedIff(frame: seq<uint8>, buf: seq<uint8>)
    requires OneFrame(frame) && CloudAccepts(frame) && PayloadReplaced(frame, buf)
    ensures OneFrame(buf)
    ensures CloudAccepts(buf) <==> Sum(PayloadOf(frame)) % 0x1_0000 == Sum(PayloadOf(buf)) % 0x1_0000
  {
    ReplacedKeepsEnvelope(frame, buf);
    SumOfParts(frame);
    SumOfParts(buf);
    ShareCancels(Sum(frame[..HDR_SIZE]), Sum(PayloadOf(frame)), Sum(PayloadOf(buf)));
  }

  lemma SumUpdate(s: seq<uint8>, i: nat, b: uint8)
    requires i < |s|
    ensures Sum(s[i := b]) == Sum(s) - s[i] + b
  {
    var t := s[i := b];
    assert s == s[..i] + ([s[i]] + s[i + 1..]) && t == s[..i] + ([b] + s[i + 1..]);
    SumAppend(s[..i], [s[i]] + s[i + 1..]);
    SumAppend([s[i]], s[i + 1..]);
    SumAppend(s[..i], [b] + s[i + 1..]);
    SumAppend([b], s[i + 1..]);
    SumOne(b);
    SumOne(s[i]);
  }

  lemma SmallChangeShows(sum: nat, from: uint8, to: uint8)
    requires from <= sum && from != to
    ensures sum % 0x1_0000 != (sum - from + to) % 0x1_0000
  {
  }

  lemma ElementWithinSum(s: seq<uint8>, i: nat)
    requires i < |s|
    ensures s[i] <= Sum(s)
  {
    if i < |s| - 1 {
      ElementWithinSum(s[..|s| - 1], i);
    }
  }

  /** Any change of a single payload byte of an accepted frame is rejected. */
  lemma SingleByteChangeRejected(frame: seq<uint8>, i: nat, b: uint8)
    requires OneFrame(frame) && CloudAccepts(frame)
    requires HDR_SIZE <= i < |frame| - CRC_SIZE && b != frame[i]
    ensures OneFrame(frame[i := b]) && !CloudAccepts(frame[i := b])
  {
    var buf, payload := frame[i := b], PayloadOf(frame);
    SumUpdate(payload, i - HDR_SIZE, b);
    ElementWithinSum(payload, i - HDR_SIZE);
    SmallChangeShows(Sum(payload), frame[i], b);
    CorruptionUndetectedIff(frame, buf);
    assert PayloadOf(buf) == payload[i - HDR_SIZE := b];
  }

  /** An additive sum cannot see order: exchanging two payload bytes of an accepted frame is always accepted. */
  lemma TranspositionAccepted(frame: seq<uint8>, i: nat, j: nat)
    requires OneFrame(frame) && CloudAccepts(frame) && HDR_SIZE <= i < j < |frame| - CRC_SIZE
    ensures var buf := frame[i := frame[j]][j := frame[i]]; OneFrame(buf) && CloudAccepts(buf)
  {
    var buf, payload := frame[i := frame[j]][j := frame[i]], PayloadOf(frame);
    var once := payload[i - HDR_SIZE := frame[j]];
    SumUpdate(payload, i - HDR_SIZE, frame[j]);
    SumUpdate(once, j - HDR_SIZE, frame[i]);
    CorruptionUndetectedIff(frame, buf);
    assert PayloadOf(buf) == once[j - HDR_SIZE := frame[i]];
  }

  /** The signed test accepts exactly what the unsigned one does when the sum is below 0x8000, and nothing else. */
  lemma SignedTestIsStricter(buf: seq<uint8>)
    requires Readable(buf)
    ensures Fkz9Accepts(buf) <==> CloudAccepts(buf) && ActualSum(buf) < 0x8000
    ensures (Fkz9Accepts(buf) <==> CloudAccepts(buf)) <==> !CloudAccepts(buf) || ActualSum(buf) < 0x8000
  {
  }

  lemma CoveredSumSmall(buf: seq<uint8>)
    requires Readable(buf) && HeaderOk(buf) && HDR_SIZE + CRC_SIZE <= DeclaredLen(buf) <= 132
    ensures Sum(buf[..DeclaredLen(buf) - CRC_SIZE]) < 0x8000
  {
    var n := DeclaredLen(buf) - CRC_SIZE;
    var head, rest := buf[..4], buf[4..n];
    assert buf[..n] == head + rest;
    SumAppend(head, rest);
    SumBound(rest);
    assert head == [buf[0], buf[1]] + [buf[2], buf[3]];
    SumAppend([buf[0], buf[1]], [buf[2], buf[3]]);
    SumPair(buf[0], buf[1]);
    SumPair(buf[2], buf[3]);
  }

  lemma SumPair(a: uint8, b: uint8)
    ensures Sum([a, b]) == a + b
  {
    assert [a, b][..1] == [a];
    SumOne(a);
  }

  lemma SumOne(a: uint8)
    ensures Sum([a]) == a
  {
    assert [a][..0] == [];
  }

  /** Up to a declared length of 132 (130 covered bytes) the two tests agree on every frame. */
  lemma TestsAgreeOnShortFrames(buf: seq<uint8>)
    requires Readable(buf) && HDR_SIZE + CRC_SIZE <= DeclaredLen(buf) <= 132
    ensures Fkz9Accepts(buf) <==> CloudAccepts(buf)
  {
    if HeaderOk(buf) {
      CoveredSumSmall(buf);
    }
  }

  lemma SumConstant(n: nat, b: uint8)
    ensures Sum(seq(n, i => b)) == n * b
  {
    if n > 0 {
      assert seq(n, i => b)[..n - 1] == seq(n - 1, i => b);
      SumConstant(n - 1, b);
    }
  }

  lemma SumFilled(n: nat, zeros: nat)
    ensures Sum(seq(n, i => 255) + seq(zeros, i => 0)) == n * 255
  {
    var a: seq<uint8>, b: seq<uint8> := seq(n, i => 255), seq(zeros, i => 0);
    SumAppend(a, b);
    SumConstant(n, 255);
    SumConstant(zeros, 0);
  }

  lemma SumFour(a: uint8, b: uint8, c: uint8, d: uint8)
    ensures Sum([a, b, c, d]) == a + b + c + d
  {
    SumAppend([a, b], [c, d]);
    SumPair(a, b);
    SumPair(c, d);
    assert [a, b] + [c, d] == [a, b, c, d];
  }

  /** Covered bytes of a frame of this length whose sum is at least 0x8000: the first ones at their maximum. */
  lemma BigCovered(len: nat) returns (covered: seq<uint8>)
    requires 133 <= len < 0x1_0000
    ensures |covered| == len - CRC_SIZE && covered[..4] == [HDR2, HDR2, HighByte(len), LowByte(len)]
    ensures 0x8000 <= Sum(covered) < 0x1_0000
  {
    var full := if len == 133 then 127 else 128;
    var head: seq<uint8> := [HDR2, HDR2, HighByte(len), LowByte(len)];
    var rest: seq<uint8> := seq(full, i => 255) + seq(len - 6 - full, i => 0);
    SumFour(HDR2, HDR2, HighByte(len), LowByte(len));
    SumFilled(full, len - 6 - full);
    SumAppend(head, rest);
    covered := head + rest;
    assert HighByte(len) + LowByte(len) >= 1;
  }

  lemma HeaderReads(covered: seq<uint8>, len: uint16)
    requires HDR_SIZE <= |covered| && covered[..4] == [HDR2, HDR2, HighByte(len), LowByte(len)]
    ensures HeaderOk(covered) && Word(covered[2], covered[3]) == len
  {
    assert forall i | 0 <= i < 4 :: covered[i] == covered[..4][i];
    WordOfBytes(len);
  }

  /** A frame closed with a sum of at least 0x8000. */
  lemma BigSumDisagrees(covered: seq<uint8>, sum: uint16) returns (buf: seq<uint8>)
    requires HDR_SIZE <= |covered| && HeaderOk(covered) && Word(covered[2], covered[3]) == |covered| + CRC_SIZE
    requires Sum(covered) == sum >= 0x8000
    ensures Readable(buf) && DeclaredLen(buf) == |buf| == |covered| + CRC_SIZE
    ensures CloudAccepts(buf) && !Fkz9Accepts(buf)
  {
    ClosedReads(covered, sum, []);
    buf := Closed(covered, sum) + [];
    SignedTestIsStricter(buf);
  }

  /** The bound is sharp: at every length from 133 on there is a frame that only the cloud side accepts. */
  lemma TestsDisagreeFrom133(len: nat) returns (buf: seq<uint8>)
    requires 133 <= len < 0x1_0000
    ensures Readable(buf) && DeclaredLen(buf) == |buf| == len
    ensures CloudAccepts(buf) && !Fkz9Accepts(buf)
  {
    var covered := BigCovered(len);
    HeaderReads(covered, len);
    buf := BigSumDisagrees(covered, Sum(covered));
  }
}
