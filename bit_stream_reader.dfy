/** The bit cursor stream: a reader over a borrowed byte buffer whose cursor is a
    (byte position, bit position) pair. Bits are taken least significant first within
    a byte, and multi-bit values are assembled least significant bit first. */
module BitStream {
  import opened BitArith

  type Byte = x: int | 0 <= x < 256

  /** Bit k (0 = least significant) of a byte, `(b >> k) & 1`. */
  function ByteBit(b: Byte, k: nat): (r: nat)
    requires k < 8
    ensures r < 2
    ensures r == 1 <==> (b / Pow2(k)) % 2 == 1
  {
    (b / Pow2(k)) % 2
  }

  /** The bit at absolute bit position p: bit p % 8 of byte p / 8. */
  function BitAt(s: seq<Byte>, p: nat): (r: nat)
    requires p < 8 * |s|
    ensures r < 2
  {
    ByteBit(s[p / 8], p % 8)
  }

  /** What a bit contributes at position k of a value: 2^k when it is set. */
  function BitWeight(bit: nat, k: nat): (w: nat)
    ensures bit == 1 ==> w == Pow2(k)
    ensures bit != 1 ==> w == 0
  {
    if bit == 1 then Pow2(k) else 0
  }

  /** The value of n bits read from absolute position p, least significant bit first:
      the sum of BitAt(s, p + i) * 2^i for i < n. It is built in the order the reader
      builds it, bit i being added at step i. */
  function BitsValue(s: seq<Byte>, p: nat, n: nat): nat
    requires p + n <= 8 * |s|
  {
    if n == 0 then 0 else BitsValue(s, p, n - 1) + BitWeight(BitAt(s, p + n - 1), n - 1)
  }

  /** A negative bit count makes the reading loops run zero times. */
  function BitCount(numBits: int): nat
  {
    if numBits < 0 then 0 else numBits
  }

  /** n bits always make a value below 2^n. */
  lemma {:induction false} BitsValueBound(s: seq<Byte>, p: nat, n: nat)
    requires p + n <= 8 * |s|
    ensures BitsValue(s, p, n) < Pow2(n)
  {
    if n > 0 {
      BitsValueBound(s, p, n - 1);
      assert Pow2(n) == Pow2(n - 1) + Pow2(n - 1);
    }
  }

  /** Reading n bits and then m bits gives the two values of one (n + m)-bit read:
      the first n bits in the low-order positions. */
  lemma {:induction false} BitsValueSplit(s: seq<Byte>, p: nat, n: nat, m: nat)
    requires p + n + m <= 8 * |s|
    ensures BitsValue(s, p, n + m) == BitsValue(s, p, n) + Pow2(n) * BitsValue(s, p + n, m)
  {
    if m > 0 {
      var k := m - 1;
      BitsValueSplit(s, p, n, k);
      var bit := BitAt(s, p + n + k);
      assert BitsValue(s, p, n + m) == BitsValue(s, p, n + k) + BitWeight(bit, n + k);
      assert BitsValue(s, p + n, m) == BitsValue(s, p + n, k) + BitWeight(bit, k);
      ScaledWeight(bit, n, k);
      Regroup(BitsValue(s, p, n + m), BitsValue(s, p, n + k), BitWeight(bit, n + k),
              BitsValue(s, p, n), BitsValue(s, p + n, k), Pow2(n), BitWeight(bit, k));
    }
  }

  /** A bit weighs 2^n times more n positions higher. */
  lemma ScaledWeight(bit: nat, n: nat, k: nat)
    ensures BitWeight(bit, n + k) == Pow2(n) * BitWeight(bit, k)
  {
    Pow2Add(n, k);
  }

  /** The arithmetic step of BitsValueSplit, kept apart from the definitions. */
  lemma Regroup(total: int, prev: int, added: int, low: int, high: int, scale: int, top: int)
    requires total == prev + added
    requires prev == low + scale * high
    requires added == scale * top
    ensures total == low + scale * (high + top)
  {
  }

  /** Splitting an absolute bit position into its byte and its bit. */
  lemma DivMod8(q: int, byteIndex: int, bit: int)
    requires 8 * byteIndex + bit == q && 0 <= bit < 8
    ensures q / 8 == byteIndex && q % 8 == bit
  {
  }

  /** Reading one more bit, found at bit `bit` of byte `byteIndex`, adds it at weight 2^i. */
  lemma BitsValueNext(s: seq<Byte>, p: nat, i: nat, byteIndex: int, bit: int)
    requires p + i < 8 * |s|
    requires 8 * byteIndex + bit == p + i && 0 <= bit < 8
    ensures 0 <= byteIndex < |s|
    ensures BitsValue(s, p, i + 1) == BitsValue(s, p, i) + BitWeight(ByteBit(s[byteIndex], bit), i)
  {
    DivMod8(p + i, byteIndex, bit);
  }

  /** 2^31: every value of a C int that is not negative lies below it. */
  const IntLimit: nat := 0x8000_0000

  /** Up to 31 bits fit in a non-negative C int. */
  lemma Pow2FitsInt(n: nat)
    requires n <= 31
    ensures Pow2(n) <= IntLimit
  {
    Pow2Monotone(n, 31);
    assert Pow2(8) == 256;
    Pow2Add(8, 8);
    Pow2Add(8, 7);
    assert Pow2(7) == 128;
    Pow2Add(16, 15);
  }

  /** A single bit read is the one-bit case of the multi-bit value. */
  lemma OneBitValue(s: seq<Byte>, p: nat)
    requires p < 8 * |s|
    ensures BitsValue(s, p, 1) == BitAt(s, p)
  {
  }

  class BitStreamReader {
    /** The borrowed buffer (`_bitStream`): the reader never writes it. */
    const bitStream: array<Byte>
    /** `_bytePos`: the byte the next bit comes from. */
    var bytePos: nat
    /** `_bitPos`: the bit within that byte, least significant first. */
    var bitPos: nat

    ghost predicate Valid()
      reads this
    {
      bitPos < 8
    }

    /** The absolute bit position of the cursor. */
    function Position(): nat
      reads this
    {
      8 * bytePos + bitPos
    }

    /** Attaches the reader to a buffer at bit 0 of byte 0. */
    constructor (stream: array<Byte>)
      ensures Valid()
      ensures bitStream == stream && bytePos == 0 && bitPos == 0
    {
      bitStream := stream;
      bytePos := 0;
      bitPos := 0;
    }

    /** `Read()`: the bit at the cursor; the cursor moves on by one bit and wraps to
        bit 0 of the next byte after bit 7. */
    method ReadBit() returns (codeBit: int)
      requires Valid()
      requires Position() < 8 * bitStream.Length
      modifies this
      ensures Valid()
      ensures codeBit == BitAt(bitStream[..], old(Position()))
      ensures 0 <= codeBit <= 1
      ensures Position() == old(Position()) + 1
      ensures old(bitPos) < 7 ==> bytePos == old(bytePos) && bitPos == old(bitPos) + 1
      ensures old(bitPos) == 7 ==> bytePos == old(bytePos) + 1 && bitPos == 0
    {
      codeBit := ByteBit(bitStream[bytePos], bitPos);
      if bitPos < 7 {
        bitPos := bitPos + 1;
      } else {
        bitPos := 0;
        bytePos := bytePos + 1;
      }
    }

    /** `Read(numBits)`: numBits bits from the cursor, least significant bit first; the
        cursor moves on by numBits. A bit count of zero or less reads nothing. */
    method Read(numBits: int) returns (b: int)
      requires Valid()
      requires numBits <= 31
      requires Position() + BitCount(numBits) <= 8 * bitStream.Length
      modifies this
      ensures Valid()
      ensures b == BitsValue(bitStream[..], old(Position()), BitCount(numBits))
      ensures 0 <= b < Pow2(BitCount(numBits)) && b < IntLimit
      ensures Position() == old(Position()) + BitCount(numBits)
    {
      ghost var s := bitStream[..];
      ghost var start := Position();
      var pos := bitPos;
      b := 0;
      var i := 0;
      while i < numBits
        invariant 0 <= i <= BitCount(numBits)
        invariant pos < 8
        invariant 8 * bytePos + pos == start + i
        invariant b == BitsValue(s, start, i)
      {
        BitsValueNext(s, start, i, bytePos, pos);
        // Bit i of b is still clear, so `b | (1 << i)` adds 2^i and `b & ~(1 << i)`
        // leaves b as it is.
        if ByteBit(bitStream[bytePos], pos) == 1 {
          b := b + Pow2(i);
        }
        if pos < 7 {
          pos := pos + 1;
        } else {
          pos := 0;
          bytePos := bytePos + 1;
        }
        i := i + 1;
      }
      bitPos := pos;
      BitsValueBound(s, start, BitCount(numBits));
      Pow2FitsInt(BitCount(numBits));
    }

    /** `Peek(bitLoc, numBits)`: the value `Read(numBits)` would return with the cursor at
        absolute position bitLoc; the cursor itself is left alone. */
    method Peek(bitLoc: int, numBits: int) returns (b: int)
      requires numBits <= 31
      requires numBits > 0 ==> 0 <= bitLoc && bitLoc + numBits <= 8 * bitStream.Length
      ensures numBits <= 0 ==> b == 0
      ensures numBits > 0 ==> b == BitsValue(bitStream[..], bitLoc, numBits)
      ensures 0 <= b < Pow2(BitCount(numBits)) && b < IntLimit
    {
      ghost var s := bitStream[..];
      ghost var start: nat := if numBits > 0 then bitLoc else 0;
      var bytePos := bitLoc / 8;
      var bitPos := bitLoc % 8;
      b := 0;
      var i := 0;
      while i < numBits
        invariant 0 <= i <= BitCount(numBits)
        invariant 0 <= bitPos < 8
        invariant 8 * bytePos + bitPos == bitLoc + i
        invariant b == BitsValue(s, start, i)
      {
        BitsValueNext(s, start, i, bytePos, bitPos);
        if ByteBit(bitStream[bytePos], bitPos) == 1 {
          b := b + Pow2(i);
        }
        if bitPos < 7 {
          bitPos := bitPos + 1;
        } else {
          bitPos := 0;
          bytePos := bytePos + 1;
        }
        i := i + 1;
      }
      BitsValueBound(s, start, BitCount(numBits));
      Pow2FitsInt(BitCount(numBits));
    }
  }
}
