/** Octets as numbers, big-endian 32-bit words, and optional values. */
module Bytes {

  type Byte = b: int | 0 <= b < 256
  type U32 = v: int | 0 <= v < 0x1_0000_0000
  type I32 = v: int | -0x8000_0000 <= v < 0x8000_0000

  /** A network, by the octets of its home id. */
  type Home = seq<Byte>

  datatype Option<+T> = None | Some(value: T)

  /** Exclusive or of two octets. */
  function Xor(a: Byte, b: Byte): Byte {
    ((a as bv8) ^ (b as bv8)) as int
  }

  lemma {:induction false} BitsRoundTrip(v: bv8)
    ensures (v as int) as bv8 == v
  {}

  lemma {:induction false} XorBitsAssociative(x: bv8, y: bv8, z: bv8)
    ensures (x ^ y) ^ z == x ^ (y ^ z)
  {}

  lemma {:induction false} XorAsBits(a: Byte, b: Byte)
    ensures Xor(a, b) as bv8 == (a as bv8) ^ (b as bv8)
  {
    BitsRoundTrip((a as bv8) ^ (b as bv8));
  }

  lemma {:induction false} XorAssociative(a: Byte, b: Byte, c: Byte)
    ensures Xor(Xor(a, b), c) == Xor(a, Xor(b, c))
  {
    XorAsBits(a, b);
    XorAsBits(b, c);
    XorBitsAssociative(a as bv8, b as bv8, c as bv8);
  }

  lemma {:induction false} XorCommutative(a: Byte, b: Byte)
    ensures Xor(a, b) == Xor(b, a)
  {}

  lemma {:induction false} XorSelf(a: Byte)
    ensures Xor(a, a) == 0 && Xor(a, 0) == a && Xor(0, a) == a
  {}

  /** Combining with a fixed octet loses nothing. */
  lemma {:induction false} XorInjective(a: Byte, b: Byte, c: Byte)
    requires Xor(a, b) == Xor(a, c)
    ensures b == c
  {
    XorAssociative(a, a, b);
    XorAssociative(a, a, c);
    XorSelf(a);
    XorSelf(b);
    XorSelf(c);
  }

  function U32ToBytes(v: U32): (s: seq<Byte>)
    ensures |s| == 4
  {
    var high := v / 0x100;
    var higher := high / 0x100;
    [higher / 0x100, higher % 0x100, high % 0x100, v % 0x100]
  }

  function BytesToU32(s: seq<Byte>): U32
    requires |s| == 4
  {
    var b3: int, b2: int, b1: int, b0: int := s[0], s[1], s[2], s[3];
    b3 * 0x100_0000 + b2 * 0x1_0000 + b1 * 0x100 + b0
  }

  /** Big-endian words and their four octets are in bijection. */
  lemma {:induction false} U32RoundTrip(v: U32)
    ensures BytesToU32(U32ToBytes(v)) == v
  {}

  /** The two's-complement reading of a 32-bit word, and its inverse. */
  function ToSigned(v: U32): I32 {
    if v < 0x8000_0000 then v else v - 0x1_0000_0000
  }

  function ToUnsigned(v: I32): U32 {
    if v < 0 then v + 0x1_0000_0000 else v
  }
}
