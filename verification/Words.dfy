/** Machine words over bytes in memory, on a little-endian platform. */
module Words {

  type Byte = bv8

  function Load32(s: seq<Byte>): bv32
    requires |s| == 4
  {
    (s[0] as bv32) | ((s[1] as bv32) << 8) | ((s[2] as bv32) << 16) | ((s[3] as bv32) << 24)
  }

  function Load64(s: seq<Byte>): bv64
    requires |s| == 8
  {
    (s[0] as bv64) | ((s[1] as bv64) << 8) | ((s[2] as bv64) << 16) | ((s[3] as bv64) << 24)
    | ((s[4] as bv64) << 32) | ((s[5] as bv64) << 40) | ((s[6] as bv64) << 48) | ((s[7] as bv64) << 56)
  }

  /** The word shifted right by j bytes. */
  function Shift32(w: bv32, j: nat): bv32
    requires j < 4
  {
    if j == 0 then w else if j == 1 then w >> 8 else if j == 2 then w >> 16 else w >> 24
  }

  function Shift64(w: bv64, j: nat): bv64
    requires j < 8
  {
    if j == 0 then w else if j == 1 then w >> 8 else if j == 2 then w >> 16 else if j == 3 then w >> 24
    else if j == 4 then w >> 32 else if j == 5 then w >> 40 else if j == 6 then w >> 48 else w >> 56
  }

  /** Byte j of a word, shifted out. */
  function Lane32(w: bv32, j: nat): Byte
    requires j < 4
  {
    (Shift32(w, j) & 0xFF) as Byte
  }

  function Lane64(w: bv64, j: nat): Byte
    requires j < 8
  {
    (Shift64(w, j) & 0xFF) as Byte
  }

  predicate Word(w: seq<Byte>) { |w| == 4 || |w| == 8 }

  function Lane(w: seq<Byte>, j: nat): Byte
    requires Word(w) && j < |w|
  {
    if |w| == 4 then Lane32(Load32(w), j) else Lane64(Load64(w), j)
  }

  lemma LaneIsByte(w: seq<Byte>, j: nat)
    requires Word(w) && j < |w|
    ensures Lane(w, j) == w[j]
  {
  }

  /** The word XOR of two words, stored back to memory. */
  function XorWord(v: seq<Byte>, w: seq<Byte>): (r: seq<Byte>)
    requires Word(v) && |v| == |w|
    ensures |r| == |v|
  {
    seq(|v|, j requires 0 <= j < |v| =>
      if |v| == 4 then Lane32(Load32(v) ^ Load32(w), j) else Lane64(Load64(v) ^ Load64(w), j))
  }

  function Bytewise(v: seq<Byte>, w: seq<Byte>): (r: seq<Byte>)
    requires |v| == |w|
    ensures |r| == |v|
  {
    seq(|v|, j requires 0 <= j < |v| => v[j] ^ w[j])
  }

  lemma XorOfLoads32(v: seq<Byte>, w: seq<Byte>)
    requires |v| == |w| == 4
    ensures Load32(v) ^ Load32(w) == Load32(Bytewise(v, w))
  {
  }

  lemma XorOfLoads64(v: seq<Byte>, w: seq<Byte>)
    requires |v| == |w| == 8
    ensures Load64(v) ^ Load64(w) == Load64(Bytewise(v, w))
  {
  }

  /** A word XOR is a XOR of the bytes. */
  lemma XorWordIsBytewise(v: seq<Byte>, w: seq<Byte>, j: nat)
    requires Word(v) && |v| == |w| && j < |v|
    ensures XorWord(v, w)[j] == v[j] ^ w[j]
  {
    if |v| == 4 { XorOfLoads32(v, w); } else { XorOfLoads64(v, w); }
    LaneIsByte(Bytewise(v, w), j);
  }
}
