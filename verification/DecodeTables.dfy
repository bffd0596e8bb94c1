/** The entries of src/zlib/inftrees.h and what a decoder reads through them. */
module DecodeTables {
  import opened BitStream

  datatype Code = Code(op: Byte, bits: nat, val: nat)

  /** A length or a distance: bit 4 of op is set. */
  predicate IsBase(c: Code) { c.op / 16 % 2 == 1 }

  /** A link to a sub-table, with bit 6 of op clear; in a literal/length table op 0 is a literal instead. */
  predicate IsLink(c: Code, lens: bool) { !IsBase(c) && c.op / 64 % 2 == 0 && !(lens && c.op == 0) }

  /** The end of a block: bits 6 and 5 of op are set. */
  predicate IsEnd(c: Code) { !IsBase(c) && c.op / 64 % 2 == 1 && c.op / 32 % 2 == 1 }

  /** The number of extra bits: the lowest four bits of op. */
  function Extra(c: Code): nat { c.op % 16 }

  function SubBits(c: Code): nat { c.op }

  /** Lengths are 3 to 258 with at most 5 extra bits, distances are positive with at most 13. */
  predicate GoodEntry(c: Code, lens: bool)
  {
    && !IsLink(c, lens)
    && (IsBase(c) ==>
          if lens then Extra(c) <= 5 && 3 <= c.val && c.val + Pow2(Extra(c)) - 1 <= 258
          else Extra(c) <= 13 && 1 <= c.val)
  }

  /** No code has more than 15 bits, and every index a decoder can form is inside the table. */
  predicate ValidEntry(t: seq<Code>, c: Code, lens: bool)
  {
    if IsLink(c, lens) then
      && c.bits + SubBits(c) <= 15 && c.val + Pow2(SubBits(c)) <= |t|
      && forall j :: c.val <= j < c.val + Pow2(SubBits(c)) ==> GoodEntry(t[j], lens) && c.bits + t[j].bits <= 15
    else GoodEntry(c, lens) && c.bits <= 15
  }

  predicate ValidTable(t: seq<Code>, root: nat, lens: bool)
  {
    root <= 15 && Pow2(root) <= |t| && forall i :: 0 <= i < Pow2(root) ==> ValidEntry(t, t[i], lens)
  }

  datatype Tables = Tables(lens: seq<Code>, lenBits: nat, dists: seq<Code>, distBits: nat) {
    predicate Valid() { ValidTable(lens, lenBits, true) && ValidTable(dists, distBits, false) }
  }

  /** The n bits of the stream at that position. */
  function At(stream: nat, pos: nat, n: nat): nat
  {
    Low(Drop(stream, pos), n)
  }

  /** The entry that the bits at that position select, and the position after its code. */
  function Entry(stream: nat, pos: nat, t: seq<Code>, root: nat, lens: bool): (r: (Code, nat))
    requires ValidTable(t, root, lens)
    ensures GoodEntry(r.0, lens) && pos <= r.1 <= pos + 15
  {
    LowBound(Drop(stream, pos), root);
    var c := t[At(stream, pos, root)];
    if IsLink(c, lens) then
      LowBound(Drop(stream, pos + c.bits), SubBits(c));
      var d := t[c.val + At(stream, pos + c.bits, SubBits(c))];
      (d, pos + c.bits + d.bits)
    else (c, pos + c.bits)
  }

  /** The selected entry, spelled out. */
  lemma EntryIs(stream: nat, pos: nat, t: seq<Code>, root: nat, lens: bool)
    requires ValidTable(t, root, lens)
    ensures At(stream, pos, root) < |t|
    ensures var c := t[At(stream, pos, root)];
            if IsLink(c, lens) then
              var j := c.val + At(stream, pos + c.bits, SubBits(c));
              j < |t| && Entry(stream, pos, t, root, lens) == (t[j], pos + c.bits + t[j].bits)
            else Entry(stream, pos, t, root, lens) == (c, pos + c.bits)
  {
    LowBound(Drop(stream, pos), root);
    var c := t[At(stream, pos, root)];
    if IsLink(c, lens) {
      LowBound(Drop(stream, pos + c.bits), SubBits(c));
      assert ValidEntry(t, c, lens);
    }
  }

  datatype Token = Literal(b: Byte) | Match(len: nat, dist: nat) | EndOfBlock | BadLength | BadDistance

  /** The rest of a match after its length code. */
  function MatchAt(stream: nat, pos: nat, c: Code, t: Tables): (r: (Token, nat))
    requires t.Valid() && IsBase(c) && GoodEntry(c, true)
    ensures pos <= r.1 <= pos + 33
    ensures r.0.Match? || r.0 == BadDistance
    ensures r.0.Match? ==> 3 <= r.0.len <= 258 && 1 <= r.0.dist
  {
    LowBound(Drop(stream, pos), Extra(c));
    var len := c.val + At(stream, pos, Extra(c));
    var (d, q) := Entry(stream, pos + Extra(c), t.dists, t.distBits, false);
    if IsBase(d) then (Match(len, d.val + At(stream, q, Extra(d))), q + Extra(d)) else (BadDistance, q)
  }

  /** The token at that position of the stream, and the position after it. */
  function NextToken(stream: nat, pos: nat, t: Tables): (r: (Token, nat))
    requires t.Valid()
    ensures pos <= r.1 <= pos + 48
    ensures r.0.Match? ==> 3 <= r.0.len <= 258 && 1 <= r.0.dist
  {
    var (c, p) := Entry(stream, pos, t.lens, t.lenBits, true);
    if c.op == 0 then (Literal(c.val % 256), p)
    else if IsBase(c) then MatchAt(stream, p, c, t)
    else if IsEnd(c) then (EndOfBlock, p)
    else (BadLength, p)
  }
}
