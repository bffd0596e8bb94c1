/** The bit accumulator of src/zlib: a little-endian stream of bits as a natural number. */
module BitStream {

  type Byte = n: nat | n < 256

  /** The lowest n bits of a number. */
  function Low(x: nat, n: nat): nat
    decreases n
  {
    if n == 0 then 0 else x % 2 + 2 * Low(x / 2, n - 1)
  }

  /** A number without its lowest n bits. */
  function Drop(x: nat, n: nat): nat
    decreases n
  {
    if n == 0 then x else Drop(x / 2, n - 1)
  }

  /** A number with n zero bits below it. */
  function Shl(x: nat, n: nat): nat
    decreases n
  {
    if n == 0 then x else 2 * Shl(x, n - 1)
  }

  function Pow2(n: nat): (r: nat)
    ensures r >= 1
  {
    if n == 0 then 1 else 2 * Pow2(n - 1)
  }

  lemma {:induction false} LowBound(x: nat, n: nat)
    ensures Low(x, n) < Pow2(n)
    decreases n
  {
    if n > 0 { LowBound(x / 2, n - 1); }
  }

  lemma {:induction false} LowOfLow(x: nat, b: nat, n: nat)
    requires n <= b
    ensures Low(Low(x, b), n) == Low(x, n)
    decreases n
  {
    if n > 0 {
      assert Low(x, b) % 2 == x % 2 && Low(x, b) / 2 == Low(x / 2, b - 1);
      LowOfLow(x / 2, b - 1, n - 1);
    }
  }

  lemma {:induction false} DropOfLow(x: nat, b: nat, n: nat)
    requires n <= b
    ensures Drop(Low(x, b), n) == Low(Drop(x, n), b - n)
    decreases n
  {
    if n > 0 {
      assert Low(x, b) / 2 == Low(x / 2, b - 1);
      DropOfLow(x / 2, b - 1, n - 1);
    }
  }

  lemma {:induction false} DropOfDrop(x: nat, a: nat, b: nat)
    ensures Drop(Drop(x, a), b) == Drop(x, a + b)
    decreases a
  {
    if a > 0 { DropOfDrop(x / 2, a - 1, b); }
  }

  /** Putting the next n bits on top of the low b bits. */
  lemma {:induction false} LowAppend(x: nat, b: nat, n: nat)
    ensures Low(x, b) + Shl(Low(Drop(x, b), n), b) == Low(x, b + n)
    decreases b
  {
    if b > 0 { LowAppend(x / 2, b - 1, n); }
  }

  lemma {:induction false} DropOfAppend(x: nat, y: nat, b: nat)
    requires Low(x, b) == x
    ensures Drop(x + Shl(y, b), b) == y && Low(x + Shl(y, b), b) == x
    decreases b
  {
    if b > 0 {
      assert x == x % 2 + 2 * Low(x / 2, b - 1);
      assert x / 2 == Low(x / 2, b - 1);
      var t := x + Shl(y, b);
      assert t / 2 == x / 2 + Shl(y, b - 1) && t % 2 == x % 2;
      DropOfAppend(x / 2, y, b - 1);
    }
  }

  /** A byte string as bits, least significant bit of each byte first. */
  function Value(input: seq<Byte>): nat
  {
    if input == [] then 0 else input[0] + 256 * Value(input[1..])
  }

  /** The eight bits at that place, as a byte. */
  function ByteAt(stream: nat, offset: nat, k: nat): nat
  {
    Low(Drop(stream, offset + 8 * k), 8)
  }

  lemma LowByte(b: Byte, rest: nat)
    ensures Low(b + 256 * rest, 8) == b && Drop(b + 256 * rest, 8) == rest
  {
    ByteIsLow(b);
    assert Shl(rest, 8) == 256 * rest by { ShlByte(rest); }
    DropOfAppend(b, rest, 8);
  }

  lemma ByteIsLow(b: Byte)
    ensures Low(b, 8) == b
  {
    LowSmall(b, 8);
    assert Pow2(8) == 256 by { assert Pow2(4) == 16; assert Pow2(8) == 16 * Pow2(4); }
  }

  lemma {:induction false} LowSmall(x: nat, n: nat)
    ensures x < Pow2(n) <==> Low(x, n) == x
    decreases n
  {
    if n > 0 { LowSmall(x / 2, n - 1); }
  }

  lemma ShlByte(x: nat)
    ensures Shl(x, 8) == 256 * x
  {
    assert Shl(x, 4) == 16 * x;
    assert Shl(x, 8) == 16 * Shl(x, 4);
  }

  lemma ByteFurther(v: nat, k: nat)
    requires k > 0
    ensures ByteAt(v, 0, k) == ByteAt(Drop(v, 8), 0, k - 1)
  {
    DropOfDrop(v, 8, 8 * (k - 1));
  }

  lemma {:induction false} ValueBytes(input: seq<Byte>, k: nat)
    requires k < |input|
    ensures ByteAt(Value(input), 0, k) == input[k]
    decreases k
  {
    LowByte(input[0], Value(input[1..]));
    if k > 0 {
      ByteFurther(Value(input), k);
      ValueBytes(input[1..], k - 1);
    }
  }

  ghost predicate Holds(stream: nat, offset: nat, input: seq<Byte>)
  {
    forall k: nat :: k < |input| ==> ByteAt(stream, offset, k) == input[k]
  }

  /** What is held followed by the input. */
  function Stream(hold: nat, bits: nat, input: seq<Byte>): nat
  {
    hold + Shl(Value(input), bits)
  }

  lemma StreamHolds(hold: nat, bits: nat, input: seq<Byte>)
    requires Low(hold, bits) == hold
    ensures Holds(Stream(hold, bits, input), bits, input) && Low(Stream(hold, bits, input), bits) == hold
  {
    var s := Stream(hold, bits, input);
    DropOfAppend(hold, Value(input), bits);
    forall k: nat | k < |input| ensures ByteAt(s, bits, k) == input[k] {
      DropOfDrop(s, bits, 8 * k);
      ValueBytes(input, k);
    }
  }

  /** The next byte of the input goes on top of what is held. */
  lemma NextByte(stream: nat, offset: nat, input: seq<Byte>, k: nat, pos: nat, bits: nat)
    requires Holds(stream, offset, input) && k < |input| && pos + bits == offset + 8 * k
    ensures Low(Drop(stream, pos), bits) + Shl(input[k], bits) == Low(Drop(stream, pos), bits + 8)
  {
    DropOfDrop(stream, pos, bits);
    assert ByteAt(stream, offset, k) == input[k];
    LowAppend(Drop(stream, pos), bits, 8);
  }

  // ---------- Reading bits ----------

  class BitReader {
    const input: seq<Byte>
    /** How many bits were held at the start. */
    const offset: nat
    ghost const stream: nat

    var nextIn: nat
    var hold: nat
    var bits: nat
    /** How many bits of the stream are used up. */
    ghost var pos: nat

    constructor (hold: nat, bits: nat, input: seq<Byte>)
      requires bits < 8 && hold < Pow2(bits)
      ensures Valid() && stream == Stream(hold, bits, input) && this.input == input && offset == bits
      ensures pos == 0 && nextIn == 0 && this.bits == bits && this.hold == hold
    {
      LowSmall(hold, bits);
      StreamHolds(hold, bits, input);
      this.input, offset, stream := input, bits, Stream(hold, bits, input);
      nextIn, this.hold, this.bits, pos := 0, hold, bits, 0;
    }

    /** What is held are the next bits of the stream, and no bit is lost or read twice. */
    ghost predicate Valid()
      reads this
    {
      && Holds(stream, offset, input) && offset < 8
      && nextIn <= |input| && pos + bits == offset + 8 * nextIn && bits <= 32
      && hold == Low(Drop(stream, pos), bits)
    }

    /** The next byte of the input goes on top of the bits that are held. */
    method Refill()
      requires Valid() && nextIn < |input| && bits + 8 <= 32
      modifies this
      ensures Valid() && nextIn == old(nextIn) + 1 && bits == old(bits) + 8 && pos == old(pos)
    {
      NextByte(stream, offset, input, nextIn, pos, bits);
      hold := hold + Shl(input[nextIn], bits);
      nextIn := nextIn + 1;
      bits := bits + 8;
    }

    /** The lowest n of the bits that are held. */
    method Peek(n: nat) returns (v: nat)
      requires Valid() && n <= bits
      ensures v == Low(Drop(stream, pos), n) && v < Pow2(n)
    {
      v := Low(hold, n);
      LowOfLow(Drop(stream, pos), bits, n);
      LowBound(hold, n);
    }

    /** The lowest n bits are used up. */
    method Skip(n: nat)
      requires Valid() && n <= bits
      modifies this
      ensures Valid() && pos == old(pos) + n && bits == old(bits) - n && nextIn == old(nextIn)
    {
      DropOfLow(Drop(stream, pos), bits, n);
      DropOfDrop(stream, pos, n);
      hold := Drop(hold, n);
      bits := bits - n;
      pos := pos + n;
    }

    /** Whole bytes that were read ahead go back to the input. */
    method ReturnUnused()
      requires Valid()
      modifies this
      ensures Valid() && pos == old(pos) && bits < 8 && hold < Pow2(bits)
      ensures nextIn == old(nextIn) - old(bits) / 8 && bits == old(bits) % 8
    {
      var len := bits / 8;
      LowOfLow(Drop(stream, pos), bits, bits - 8 * len);
      nextIn := nextIn - len;
      bits := bits - 8 * len;
      hold := Low(hold, bits);
      LowBound(Drop(stream, pos), bits);
    }
  }
}
