/** Bytes, big-endian words and the exclusive-or behind the KLF200 checksum. */
module Bytes {

  type byte = x: int | 0 <= x < 0x100
  type uint16 = x: int | 0 <= x < 0x1_0000
  type uint32 = x: int | 0 <= x < 0x1_0000_0000

  datatype Option<+T> = None | Some(value: T)
  datatype Result<+T> = Ok(value: T) | Err

  /** Bitwise exclusive or of two naturals that fit in the given number of bits. */
  function XorBits(bits: nat, a: nat, b: nat): (r: nat)
    ensures r < Pow2(bits)
  {
    if bits == 0 then 0 else 2 * XorBits(bits - 1, a / 2, b / 2) + (a % 2 + b % 2) % 2
  }

  function Pow2(n: nat): (r: nat)
    ensures r > 0
  {
    if n == 0 then 1 else 2 * Pow2(n - 1)
  }

  function Xor(a: byte, b: byte): byte {
    assert Pow2(8) == 256;
    XorBits(8, a, b)
  }

  lemma {:induction false} XorBitsCancel(bits: nat, a: nat, b: nat, c: nat)
    requires b < Pow2(bits) && c < Pow2(bits)
    requires XorBits(bits, a, b) == XorBits(bits, a, c)
    ensures b == c
  {
    if bits > 0 {
      var high, low := XorBits(bits - 1, a / 2, b / 2), (a % 2 + b % 2) % 2;
      var high', low' := XorBits(bits - 1, a / 2, c / 2), (a % 2 + c % 2) % 2;
      assert high == high' && low == low' by {
        assert 2 * high + low == 2 * high' + low';
      }
      SameParity(a, b, c);
      XorBitsCancel(bits - 1, a / 2, b / 2, c / 2);
    }
  }

  lemma SameParity(a: nat, b: nat, c: nat)
    requires (a % 2 + b % 2) % 2 == (a % 2 + c % 2) % 2
    ensures b % 2 == c % 2
  {
  }

  lemma XorBitsComm(bits: nat, a: nat, b: nat)
    ensures XorBits(bits, a, b) == XorBits(bits, b, a)
  {
  }

  lemma XorCancelRight(a: byte, b: byte, c: byte)
    requires Xor(b, a) == Xor(c, a)
    ensures b == c
  {
    XorBitsComm(8, a, b);
    XorBitsComm(8, a, c);
    assert Pow2(8) == 256;
    XorBitsCancel(8, a, b, c);
  }

  lemma XorCancelLeft(a: byte, b: byte, c: byte)
    requires Xor(a, b) == Xor(a, c)
    ensures b == c
  {
    assert Pow2(8) == 256;
    XorBitsCancel(8, a, b, c);
  }

  // ---------- Bits ----------

  /** Bit k of a number, counted from the least significant. */
  predicate Bit(x: nat, k: nat) {
    if k == 0 then x % 2 == 1 else Bit(x / 2, k - 1)
  }

  lemma {:induction false} XorBitsBit(bits: nat, a: nat, b: nat, k: nat)
    requires k < bits
    ensures Bit(XorBits(bits, a, b), k) <==> Bit(a, k) != Bit(b, k)
  {
    var low := (a % 2 + b % 2) % 2;
    assert XorBits(bits, a, b) == 2 * XorBits(bits - 1, a / 2, b / 2) + low;
    assert XorBits(bits, a, b) / 2 == XorBits(bits - 1, a / 2, b / 2);
    if k > 0 {
      XorBitsBit(bits - 1, a / 2, b / 2, k - 1);
    }
  }

  /** The bits of an exclusive or are those in which the operands differ. */
  lemma XorBit(a: byte, b: byte, k: nat)
    requires k < 8
    ensures Bit(Xor(a, b), k) <==> Bit(a, k) != Bit(b, k)
  {
    XorBitsBit(8, a, b, k);
  }

  lemma {:induction false} BitsDetermine(bits: nat, a: nat, b: nat)
    requires a < Pow2(bits) && b < Pow2(bits)
    requires forall k :: 0 <= k < bits ==> (Bit(a, k) <==> Bit(b, k))
    ensures a == b
  {
    if bits > 0 {
      assert Bit(a, 0) <==> Bit(b, 0);
      forall k | 0 <= k < bits - 1
        ensures Bit(a / 2, k) <==> Bit(b / 2, k)
      {
        assert Bit(a, k + 1) <==> Bit(b, k + 1);
      }
      BitsDetermine(bits - 1, a / 2, b / 2);
    }
  }

  /** A byte is determined by its eight bits. */
  lemma ByteOfBits(a: byte, b: byte)
    requires forall k :: 0 <= k < 8 ==> (Bit(a, k) <==> Bit(b, k))
    ensures a == b
  {
    assert Pow2(8) == 256;
    BitsDetermine(8, a, b);
  }

  lemma ZeroBits(k: nat)
    ensures !Bit(0, k)
  {
  }

  // ---------- Big-endian words ----------

  function Hi(w: uint16): byte { w / 0x100 }

  function Lo(w: uint16): byte { w % 0x100 }

  function U16(hi: byte, lo: byte): uint16 { hi as int * 0x100 + lo as int }

  function BE32(w: uint32): (b: seq<byte>)
    ensures |b| == 4
  {
    var high: uint16, low: uint16 := w / 0x1_0000, w % 0x1_0000;
    [Hi(high), Lo(high), Hi(low), Lo(low)]
  }

  function U32(b: seq<byte>): uint32
    requires |b| == 4
  {
    U16(b[0], b[1]) as int * 0x1_0000 + U16(b[2], b[3]) as int
  }

  /** The big-endian word at offset i. */
  function WordAt(p: seq<byte>, i: nat): uint16
    requires i + 2 <= |p|
  {
    p[i] as int * 256 + p[i + 1] as int
  }

  /** The big-endian double word at offset i. */
  function LongAt(p: seq<byte>, i: nat): nat
    requires i + 4 <= |p|
  {
    WordAt(p, i) as int * 0x1_0000 + WordAt(p, i + 2) as int
  }

  /** Bytes written as a double word read as one. */
  lemma LongOnWire(w: uint32, p: seq<byte>, i: nat)
    requires i + 4 <= |p| && p[i..i + 4] == BE32(w)
    ensures LongAt(p, i) == w
  {
    var b := p[i..i + 4];
    assert b[0] == p[i] && b[1] == p[i + 1] && b[2] == p[i + 2] && b[3] == p[i + 3];
  }

  lemma U16RoundTrip(w: uint16)
    ensures U16(Hi(w), Lo(w)) == w
  {
  }

  lemma U32RoundTrip(w: uint32)
    ensures U32(BE32(w)) == w
  {
    var high: uint16, low: uint16 := w / 0x1_0000, w % 0x1_0000;
    U16RoundTrip(high);
    U16RoundTrip(low);
  }

  lemma Assoc<T>(a: seq<T>, b: seq<T>, c: seq<T>)
    ensures a + (b + c) == (a + b) + c
  {
  }
}
