/** The fast decoding loop of src/zlib/inffast.c. */
module Inffast {
  import opened BitStream
  import opened DecodeTables
  import opened MatchCopy

  /** Position and output after n literals and matches, if there are so many in a row. */
  datatype Progress = Stopped | At(pos: nat, history: seq<Byte>)

  /** The reference: tokens read one by one from the bit stream, matches copied byte by byte. */
  function Decoded(stream: nat, t: Tables, start: Progress, n: nat): Progress
    requires t.Valid()
    decreases n
  {
    if n == 0 then start else
    var p := Decoded(stream, t, start, n - 1);
    if p.Stopped? then Stopped else After(stream, t, p)
  }

  /** One token further. */
  function After(stream: nat, t: Tables, p: Progress): Progress
    requires t.Valid() && p.At?
  {
    var (token, q) := NextToken(stream, p.pos, t);
    match token
    case Literal(b) => At(q, p.history + [b])
    case Match(len, dist) => if dist <= |p.history| then At(q, Lz(p.history, dist, len)) else Stopped
    case _ => Stopped
  }

  lemma RootEntry(t: seq<Code>, root: nat, lens: bool, i: nat)
    requires ValidTable(t, root, lens) && i < Pow2(root)
    ensures ValidEntry(t, t[i], lens) && t[i].bits <= 15 && (IsLink(t[i], lens) ==> t[i].bits + SubBits(t[i]) <= 15)
  {
  }

  lemma SubEntry(t: seq<Code>, c: Code, lens: bool, j: nat)
    requires ValidEntry(t, c, lens) && IsLink(c, lens) && j < Pow2(SubBits(c))
    ensures c.val + j < |t| && GoodEntry(t[c.val + j], lens) && c.bits + t[c.val + j].bits <= 15
  {
  }

  /** The entry of the root table that the bits at that position select. */
  ghost predicate Selected(stream: nat, pos: nat, t: seq<Code>, root: nat, lens: bool, c: Code)
  {
    && DecodeTables.At(stream, pos, root) < |t| && c == t[DecodeTables.At(stream, pos, root)]
    && ValidEntry(t, c, lens) && c.bits <= 15 && (IsLink(c, lens) ==> c.bits + SubBits(c) <= 15)
  }

  lemma MatchToken(stream: nat, pos: nat, t: Tables, c: Code, d: Code, q: nat)
    requires t.Valid() && IsBase(c) && GoodEntry(c, true)
    requires (d, q) == Entry(stream, pos + Extra(c), t.dists, t.distBits, false)
    ensures MatchAt(stream, pos, c, t)
            == if IsBase(d)
               then (Match(c.val + DecodeTables.At(stream, pos, Extra(c)), d.val
                   + DecodeTables.At(stream, q, Extra(d))),
                     q + Extra(d))
               else (BadDistance, q)
  {
  }

  datatype Mode = LEN | TYPE | BAD

  class Inflater {
    const t: Tables
    const reader: BitReader
    const output: Output
    var mode: Mode

    constructor (t: Tables, reader: BitReader, output: Output)
      requires t.Valid() && reader.Valid() && output.Valid()
      ensures this.t == t && this.reader == reader && this.output == output && mode == LEN && Valid()
    {
      this.t, this.reader, this.output, mode := t, reader, output, LEN;
    }

    ghost predicate Valid()
      reads this, reader, output, output.window, output.buffer
    {
      t.Valid() && reader.Valid() && output.Valid()
    }

    ghost function Now(): Progress
      reads reader, output
    {
      At(reader.pos, output.history)
    }

    /** A lookup in a table, with at most one sub-table: `dolen` and `dodist`. */
    method LookUp(table: seq<Code>, root: nat, lens: bool) returns (here: Code)
      requires ValidTable(table, root, lens) && reader.Valid() && reader.bits >= 15
      modifies reader
      ensures reader.Valid() && (here, reader.pos) == Entry(reader.stream, old(reader.pos), table, root, lens)
      ensures reader.nextIn == old(reader.nextIn) && reader.bits >= old(reader.bits) - 15
    {
      here := LookUpRoot(table, root, lens);
      if IsLink(here, lens) {
        here := LookUpSub(table, root, here, lens, old(reader.pos));
      }
    }

    method LookUpRoot(table: seq<Code>, root: nat, lens: bool) returns (here: Code)
      requires ValidTable(table, root, lens) && reader.Valid() && reader.bits >= 15
      modifies reader
      ensures reader.Valid() && reader.nextIn == old(reader.nextIn)
      ensures Selected(reader.stream, old(reader.pos), table, root, lens, here)
      ensures reader.pos == old(reader.pos) + here.bits && reader.bits == old(reader.bits) - here.bits
      ensures !IsLink(here, lens) ==>
                here.bits <= 15 && (here, reader.pos) == Entry(reader.stream, old(reader.pos), table, root, lens)
    {
      var i := reader.Peek(root);
      RootEntry(table, root, lens, i);
      here := table[i];
      reader.Skip(here.bits);
      EntryIs(reader.stream, old(reader.pos), table, root, lens);
    }

    method LookUpSub(table: seq<Code>, root: nat, link: Code, lens: bool, ghost start: nat) returns (here: Code)
      requires ValidTable(table, root, lens) && reader.Valid() && IsLink(link, lens)
      requires Selected(reader.stream, start, table, root, lens, link)
      requires reader.bits >= 15 - link.bits && reader.pos == start + link.bits
      modifies reader
      ensures reader.Valid() && reader.nextIn == old(reader.nextIn)
      ensures (here, reader.pos) == Entry(reader.stream, start, table, root, lens)
      ensures link.bits + here.bits <= 15 && reader.bits == old(reader.bits) - here.bits
    {
      hide ValidTable, GoodEntry, Low;
      var j := reader.Peek(SubBits(link));
      SubEntry(table, link, lens, j);
      here := table[link.val + j];
      reader.Skip(here.bits);
      EntryIs(reader.stream, start, table, root, lens);
    }

    /** With fewer than 15 bits held, two bytes are read, so that a whole code is held. */
    method RefillForCode()
      requires reader.Valid() && reader.nextIn + 2 <= |reader.input|
      modifies reader
      ensures reader.Valid() && reader.pos == old(reader.pos) && reader.bits >= 15
      ensures reader.nextIn == old(reader.nextIn) + if old(reader.bits) < 15 then 2 else 0
    {
      if reader.bits < 15 {
        reader.Refill();
        reader.Refill();
      }
    }

    /** The value of a length entry and its extra bits. */
    method ReadLength(here: Code) returns (len: nat)
      requires reader.Valid() && IsBase(here) && Extra(here) <= 5 && reader.nextIn < |reader.input|
      modifies reader
      ensures reader.Valid() && reader.pos == old(reader.pos) + Extra(here)
      ensures len == here.val + DecodeTables.At(reader.stream, old(reader.pos), Extra(here))
      ensures old(reader.nextIn) <= reader.nextIn <= old(reader.nextIn) + 1
    {
      var op := Extra(here);
      len := here.val;
      if op != 0 {
        if reader.bits < op { reader.Refill(); }
        var more := reader.Peek(op);
        len := len + more;
        reader.Skip(op);
      }
    }

    /** The value of a distance entry and its extra bits; the first reading may leave too few. */
    method ReadDistance(here: Code) returns (dist: nat)
      requires reader.Valid() && IsBase(here) && Extra(here) <= 13
      requires reader.bits < Extra(here) ==> reader.nextIn < |reader.input|
      requires reader.bits + 8 < Extra(here) ==> reader.nextIn + 1 < |reader.input|
      modifies reader
      ensures reader.Valid() && reader.pos == old(reader.pos) + Extra(here)
      ensures dist == here.val + DecodeTables.At(reader.stream, old(reader.pos), Extra(here))
      ensures reader.nextIn == old(reader.nextIn) + if old(reader.bits) >= Extra(here) then 0
                                                    else if old(reader.bits) + 8 >= Extra(here) then 1 else 2
    {
      var op := Extra(here);
      if reader.bits < op {
        reader.Refill();
        if reader.bits < op { reader.Refill(); }
      }
      var more := reader.Peek(op);
      dist := here.val + more;
      reader.Skip(op);
    }

    /** One turn of the loop: the next token of the reference, at most 6 bytes of input and 258 of output. */
    method Turn()
      requires Valid() && mode == LEN
      requires reader.nextIn + 6 <= |reader.input| && output.out + 258 <= output.buffer.Length
      modifies this, reader, output, output.buffer
      ensures Valid() && reader.nextIn <= old(reader.nextIn) + 6 && output.out <= old(output.out) + 258
      ensures mode == LEN ==> output.out > old(output.out)
      ensures mode == LEN ==> Now() == After(reader.stream, t, old(Now()))
      ensures mode != LEN ==> StoppedAt(old(Now()))
    {
      RefillForCode();
      var here := LookUp(t.lens, t.lenBits, true);
      if here.op == 0 {
        output.Put(here.val % 256);
      } else if IsBase(here) {
        TurnMatch(here, old(reader.nextIn), old(Now()));
      } else if IsEnd(here) {
        mode := TYPE;
      } else {
        mode := BAD;
      }
    }

    /** The loop ended at a token that is neither a literal nor a match that can be copied; it is used up. */
    ghost predicate StoppedAt(p: Progress)
      requires t.Valid() && p.At?
      reads this, reader, output
    {
      && After(reader.stream, t, p) == Stopped && output.history == p.history
      && reader.pos == NextToken(reader.stream, p.pos, t).1
      && mode == if NextToken(reader.stream, p.pos, t).0 == EndOfBlock then TYPE else BAD
    }

    /** What follows a length code; `start` is where the turn began, with `first` bytes of input read. */
    method ReadMatch(here: Code, ghost first: nat, ghost start: nat) returns (found: bool, len: nat, dist: nat)
      requires t.Valid() && reader.Valid() && IsBase(here) && GoodEntry(here, true)
      requires start <= reader.pos <= start + 15
      requires first <= reader.nextIn <= first + 2 && first + 6 <= |reader.input|
      requires reader.pos + reader.bits >= start + 8 * (reader.nextIn - first)
      modifies reader
      ensures reader.Valid() && reader.nextIn <= first + 6
      ensures MatchAt(reader.stream, old(reader.pos), here, t)
              == (if found then Match(len, dist) else BadDistance, reader.pos)
    {
      len := ReadLength(here);
      ghost var there, q;
      found, dist, there, q := ReadDistanceCode(first, start);
      MatchToken(reader.stream, old(reader.pos), t, here, there, q);
    }

    method ReadDistanceCode(ghost first: nat, ghost start: nat) returns (found: bool, dist: nat, ghost there: Code,
        ghost q: nat)
      requires t.Valid() && reader.Valid() && start <= reader.pos <= start + 20
      requires first <= reader.nextIn <= first + 3 && first + 6 <= |reader.input|
      requires reader.pos + reader.bits >= start + 8 * (reader.nextIn - first)
      modifies reader
      ensures reader.Valid() && reader.nextIn <= first + 6 && found == IsBase(there)
      ensures (there, q) == Entry(reader.stream, old(reader.pos), t.dists, t.distBits, false)
      ensures if found then reader.pos == q + Extra(there) && dist == there.val
          + DecodeTables.At(reader.stream, q, Extra(there))
              else reader.pos == q
    {
      RefillForCode();
      var code := LookUp(t.dists, t.distBits, false);
      there, q := code, reader.pos;
      found, dist := IsBase(code), 0;
      if found { dist := ReadDistance(code); }
    }

    method TurnMatch(here: Code, ghost first: nat, ghost before: Progress)
      requires Valid() && mode == LEN && IsBase(here) && GoodEntry(here, true)
      requires before.At? && before.history == output.history
      requires (here, reader.pos) == Entry(reader.stream, before.pos, t.lens, t.lenBits, true)
      requires first <= reader.nextIn <= first + 2 && first + 6 <= |reader.input|
      requires reader.pos + reader.bits >= before.pos + 8 * (reader.nextIn - first)
      requires output.out + 258 <= output.buffer.Length
      modifies this, reader, output, output.buffer
      ensures Valid() && reader.nextIn <= first + 6
      ensures output.out <= old(output.out) + 258 && (mode == LEN ==> output.out > old(output.out))
      ensures mode == LEN ==> Now() == After(reader.stream, t, before)
      ensures mode != LEN ==> StoppedAt(before)
    {
      ghost var p := reader.pos;
      var found, len, dist := ReadMatch(here, first, before.pos);
      assert MatchAt(reader.stream, p, here, t) == NextToken(reader.stream, before.pos, t);
      if found {
        var ok := output.CopyMatch(len, dist);
        if !ok { mode := BAD; }
      } else {
        mode := BAD;
      }
    }

    /** The loop, before whole bytes that were read ahead go back. */
    method Turns() returns (ghost n: nat)
      requires Valid() && mode == LEN
      requires reader.nextIn + 6 <= |reader.input| && output.out + 258 <= output.buffer.Length
      modifies this, reader, output, output.buffer
      ensures Valid()
      ensures var p := Decoded(reader.stream, t, old(Now()), n);
              p.At? && if mode == LEN then p == Now() else StoppedAt(p)
      ensures mode == LEN ==> n > 0 && (reader.nextIn + 6 > |reader.input| || output.out + 258 > output.buffer.Length)
    {
      ghost var start := Now();
      ghost var p := start;
      n := 0;
      var last := |reader.input| - 5;
      var end := output.buffer.Length - 257;
      while true
        invariant Valid() && mode == LEN && p.At? && Now() == p && p == Decoded(reader.stream, t, start, n)
        invariant reader.nextIn < last && output.out < end
        decreases output.buffer.Length - output.out
      {
        Turn();
        if mode != LEN { break; }
        p := After(reader.stream, t, p);
        n := n + 1;
        if !(reader.nextIn < last && output.out < end) { break; }
      }
    }

    /** inflate_fast: the output is that of the reference after some number of tokens, and the reader
        stands exactly behind the last bit of them, with less than a byte held. It ends at the end of a block
        or at an error, or else because what is left of the input, but for at most four bytes that were read
        ahead, or of the output is not enough for one more token. */
    method InflateFast() returns (ghost n: nat)
      requires Valid() && mode == LEN
      requires reader.nextIn + 6 <= |reader.input| && output.out + 258 <= output.buffer.Length
      modifies this, reader, output, output.buffer
      ensures Valid() && reader.bits < 8 && reader.hold < Pow2(reader.bits)
      ensures var p := Decoded(reader.stream, t, old(Now()), n);
              p.At? && if mode == LEN then p == Now() else StoppedAt(p)
      ensures mode == LEN ==> n > 0 && (reader.nextIn + 10 > |reader.input| || output.out + 258 > output.buffer.Length)
    {
      n := Turns();
      reader.ReturnUnused();
    }
  }
}
