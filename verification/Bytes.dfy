/** Bytes, 16-bit words and additive sums: the vocabulary every other module shares. */
module Bytes {

  type uint8 = x: int | 0 <= x < 0x100
  type uint16 = x: int | 0 <= x < 0x1_0000

  datatype Option<+T> = None | Some(value: T)

  /** The big-endian reading of two adjacent bytes (`bswap_16` of a packed field on a little-endian host). */
  function Word(high: uint8, low: uint8): uint16 {
    high * 0x100 + low
  }

  function HighByte(w: uint16): uint8 {
    w / 0x100
  }

  function LowByte(w: uint16): uint8 {
    w % 0x100
  }

  /** The unreduced sum of a byte string. */
  function Sum(s: seq<uint8>): nat {
    if s == [] then 0 else Sum(s[..|s| - 1]) + s[|s| - 1]
  }

  lemma {:induction false} SumAppend(a: seq<uint8>, b: seq<uint8>)
    ensures Sum(a + b) == Sum(a) + Sum(b)
  {
    if b == [] {
      assert a + b == a;
    } else {
      assert (a + b)[..|a + b| - 1] == a + b[..|b| - 1];
      SumAppend(a, b[..|b| - 1]);
    }
  }

  lemma {:induction false} SumBound(s: seq<uint8>)
    ensures Sum(s) <= 255 * |s|
  {
    if s != [] {
      SumBound(s[..|s| - 1]);
    }
  }

  /** The concatenation of a sequence of byte strings. */
  function Concat(parts: seq<seq<uint8>>): seq<uint8> {
    if parts == [] then [] else parts[0] + Concat(parts[1..])
  }
}
