/** Bytes, and numbers stored little-endian. */
module Bytes {
  type Byte = b: nat | b < 256

  /** The n low bytes of v, lowest first. */
  function Encode(v: nat, n: nat): (r: seq<Byte>)
    ensures |r| == n
  {
    if n == 0 then [] else [v % 256] + Encode(v / 256, n - 1)
  }

  function Decode(bs: seq<Byte>): nat {
    if bs == [] then 0 else bs[0] + 256 * Decode(bs[1..])
  }

  /** The lowest byte comes first. */
  lemma LittleEndian(bs: seq<Byte>)
    requires |bs| == 8
    ensures var b: seq<nat> := bs;
            && Decode(bs[..2]) == b[0] + 0x100 * b[1]
            && Decode(bs[..4]) == b[0] + 0x100 * b[1] + 0x1_0000 * b[2] + 0x100_0000 * b[3]
            && Decode(bs) == Decode(bs[..4]) + 0x1_0000_0000 * b[4] + 0x100_0000_0000 * b[5]
                             + 0x1_0000_0000_0000 * b[6] + 0x100_0000_0000_0000 * b[7]
  {
    Spelled(bs[..2]);
    Spelled(bs[..4]);
    Spelled(bs[..4][1..]);
    Spelled(bs[..4][2..]);
    Spelled(bs);
    Spelled(bs[1..]);
    Spelled(bs[2..]);
    Spelled(bs[3..]);
    Spelled(bs[4..]);
    Spelled(bs[5..]);
    Spelled(bs[6..]);
  }

  lemma Spelled(bs: seq<Byte>)
    requires |bs| >= 2
    ensures Decode(bs) == bs[0] + 0x100 * Decode(bs[1..]) && (|bs| == 2 ==> Decode(bs[1..]) == bs[1])
    ensures |bs| > 2 ==> bs[1..][1..] == bs[2..]
  {
  }

  function Pow256(n: nat): nat {
    if n == 0 then 1 else 256 * Pow256(n - 1)
  }

  /** What was stored in enough bytes reads back. */
  lemma {:induction false} DecodeEncode(v: nat, n: nat)
    requires v < Pow256(n)
    ensures Decode(Encode(v, n)) == v
  {
    if n > 0 {
      assert v / 256 < Pow256(n - 1);
      DecodeEncode(v / 256, n - 1);
      assert Encode(v, n)[1..] == Encode(v / 256, n - 1);
    }
  }

  lemma Joins<T>(a: seq<T>, b: seq<T>, c: seq<T>)
    ensures a + (b + c) == (a + b) + c
  {
  }
}
