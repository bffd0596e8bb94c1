/** The tables of src/zlib/inftrees.c and the loop of src/zlib/inffast.c together: the fast loop decodes the tokens
    that the canonical codes of section 3.2 of RFC 1951 give. */
module Deflate {
  import opened BitStream
  import opened Canonical
  import opened DecodeTables
  import opened HuffTable
  import opened HuffDecode
  import opened MatchCopy
  import opened Inftrees
  import Inffast

  type Progress = Inffast.Progress

  // ---------- Section 3.2.5 of RFC 1951 ----------

  /** The extra bits of the length symbols 257 to 285. */
  function LengthExtra(s: nat): nat
    requires 257 <= s <= 285
  {
    if s < 265 || s == 285 then 0 else (s - 261) / 4
  }

  /** The first length of a symbol: the ranges of the symbols follow each other, and 258 has one of its own. */
  function LengthBase(s: nat): nat
    requires 257 <= s <= 285
    decreases s
  {
    if s == 257 then 3 else if s == 285 then 258 else LengthBase(s - 1) + Pow2(LengthExtra(s - 1))
  }

  /** The same for the distance symbols 0 to 29. */
  function DistanceExtra(s: nat): nat
    requires s < 30
  {
    if s < 4 then 0 else (s - 2) / 2
  }

  function DistanceBase(s: nat): nat
    requires s < 30
    decreases s
  {
    if s == 0 then 1 else DistanceBase(s - 1) + Pow2(DistanceExtra(s - 1))
  }

  lemma Powers()
    ensures Pow2(0) == 1 && Pow2(1) == 2 && Pow2(2) == 4 && Pow2(3) == 8 && Pow2(4) == 16 && Pow2(5) == 32
    ensures Pow2(6) == 64 && Pow2(7) == 128 && Pow2(8) == 256 && Pow2(9) == 512 && Pow2(10) == 1024
    ensures Pow2(11) == 2048 && Pow2(12) == 4096 && Pow2(13) == 8192
  {
  }

  /** The lengths in closed form: four symbols, or eight at first, for each number of extra bits. */
  function LengthFrom(i: nat): nat
  {
    if i < 8 then 3 + i else if i < 12 then 11 + 2 * (i - 8) else if i < 16 then 19 + 4 * (i - 12)
    else if i < 20 then 35 + 8 * (i - 16) else if i < 24 then 67 + 16 * (i - 20) else 131 + 32 * (i - 24)
  }

  lemma {:induction false} LengthBaseFrom(s: nat)
    requires 257 <= s < 285
    ensures LengthBase(s) == LengthFrom(s - 257)
    decreases s
  {
    Powers();
    if s > 257 { LengthBaseFrom(s - 1); }
    hide Pow2;
  }

  lemma LengthConstants(i: nat)
    requires i < 28
    ensures LBASE[i] == LengthFrom(i) && LEXT[i] == 16 + if i < 8 then 0 else (i - 4) / 4
  {
    if i < 8 {
      assert LBASE[i] == 3 + i && LEXT[i] == 16;
    } else if i < 12 {
      assert LBASE[i] == 11 + 2 * (i - 8) && LEXT[i] == 17;
    } else if i < 16 {
      assert LBASE[i] == 19 + 4 * (i - 12) && LEXT[i] == 18;
    } else if i < 20 {
      assert LBASE[i] == 35 + 8 * (i - 16) && LEXT[i] == 19;
    } else if i < 24 {
      assert LBASE[i] == 67 + 16 * (i - 20) && LEXT[i] == 20;
    } else {
      assert LBASE[i] == 131 + 32 * (i - 24) && LEXT[i] == 21;
    }
  }

  /** The constants of the code are those of the standard. */
  lemma LengthTable(s: nat)
    requires 257 <= s <= 285
    ensures LBASE[s - 257] == LengthBase(s) && LEXT[s - 257] == 16 + LengthExtra(s)
  {
    if s < 285 {
      LengthBaseFrom(s);
      LengthConstants(s - 257);
      hide LengthBase, LengthFrom;
    }
  }

  /** The distances in closed form: two symbols, or four at first, for each number of extra bits. */
  function DistanceFrom(i: nat): nat
  {
    if i < 4 then 1 + i else if i % 2 == 0 then 1 + 2 * Pow2(i / 2 - 1) else 1 + 3 * Pow2(i / 2 - 1)
  }

  lemma DistanceStep(k: nat)
    requires 1 <= k
    ensures Pow2(k) == 2 * Pow2(k - 1)
    ensures 2 <= k ==> DistanceFrom(2 * k + 2) == DistanceFrom(2 * k + 1) + Pow2(k - 1)
    ensures DistanceFrom(2 * k + 3) == DistanceFrom(2 * k + 2) + Pow2(k)
  {
    assert (2 * k + 2) / 2 - 1 == k && (2 * k + 1) / 2 - 1 == k - 1 && (2 * k + 3) / 2 - 1 == k;
  }

  lemma {:induction false} DistanceBaseFrom(s: nat)
    requires s < 30
    ensures DistanceBase(s) == DistanceFrom(s)
    decreases s
  {
    if s > 0 { DistanceBaseFrom(s - 1); }
    if s > 4 {
      var k := s / 2 - 1;
      DistanceStep(k);
      assert s == 2 * k + 2 || s == 2 * k + 3;
      hide DistanceFrom, Pow2;
      assert DistanceExtra(s - 1) == if s % 2 == 0 then k - 1 else k;
    }
  }

  lemma DistanceConstants(i: nat)
    requires i < 30
    ensures DBASE[i] == DistanceFrom(i) && DEXT[i] == 16 + if i < 4 then 0 else (i - 2) / 2
  {
    Powers();
    hide Pow2;
    if i < 8 {
      assert i < 4 || DBASE[i] == DistanceFrom(i);
    } else if i < 14 {
      assert DBASE[i] == DistanceFrom(i);
    } else if i < 20 {
      assert DBASE[i] == DistanceFrom(i);
    } else if i < 26 {
      assert DBASE[i] == DistanceFrom(i);
    } else {
      assert DBASE[i] == DistanceFrom(i);
    }
  }

  lemma DistanceTable(s: nat)
    requires s < 30
    ensures DBASE[s] == DistanceBase(s) && DEXT[s] == 16 + DistanceExtra(s)
  {
    DistanceBaseFrom(s);
    DistanceConstants(s);
    hide DistanceBase, DistanceFrom;
  }

  // ---------- Tokens ----------

  /** The canonical code of the symbol stands at that position of the stream. */
  predicate IsSymbol(stream: nat, pos: nat, lens: Lengths, s: nat)
  {
    s < |lens| && 0 < lens[s] <= 15 && Begins(stream, pos, lens, s)
  }

  /** The token that a distance symbol completes, with its extra bits from position p on. */
  predicate DistanceToken(stream: nat, p: nat, len: nat, d: nat, token: Token, q: nat)
  {
    if d >= 30 then token == BadDistance && q == p
    else
      token == Match(len, DistanceBase(d) + DecodeTables.At(stream, p, DistanceExtra(d)))
      && q == p + DistanceExtra(d)
  }

  /** The rest of a match, whose extra bits of the length begin at position p. */
  ghost predicate LengthToken(stream: nat, p: nat, dists: Lengths, s: nat, token: Token, q: nat)
    requires 257 <= s <= 285
  {
    var len, p' := LengthBase(s) + DecodeTables.At(stream, p, LengthExtra(s)), p + LengthExtra(s);
    exists d: nat :: IsSymbol(stream, p', dists, d) && DistanceToken(stream, p' + dists[d], len, d, token, q)
  }

  /** The token that begins with a literal/length symbol whose code ends at position p. */
  ghost predicate SymbolToken(stream: nat, p: nat, dists: Lengths, s: nat, token: Token, q: nat)
  {
    if s < 256 then token == Literal(s) && q == p
    else if s == 256 then token == EndOfBlock && q == p
    else if s > 285 then token == BadLength && q == p
    else LengthToken(stream, p, dists, s, token, q)
  }

  /** The token at a position of the stream ends at position q. */
  ghost predicate IsToken(stream: nat, pos: nat, lens: Lengths, dists: Lengths, token: Token, q: nat)
  {
    exists s: nat :: IsSymbol(stream, pos, lens, s) && SymbolToken(stream, pos + lens[s], dists, s, token, q)
  }

  /** The tables of a complete set of lengths. */
  ghost predicate Serves(ty: CodeType, lens: Lengths, max: nat, t: seq<Code>, root: nat)
  {
    && Codable(ty, lens) && Complete(lens, max) && EveryPlaced(ty, lens, t, root)
    && root <= 15 && Pow2(root) <= |t| && ValidTable(t, root, Literals(ty))
  }

  /** The symbol at a position of the stream is that one only. */
  ghost predicate OnlySymbol(stream: nat, pos: nat, lens: Lengths, s: nat)
  {
    IsSymbol(stream, pos, lens, s) && forall e: nat :: IsSymbol(stream, pos, lens, e) ==> e == s
  }

  /** The entry of a distance symbol. */
  predicate LeadsOn(c: Code, d: nat)
  {
    IsBase(c) == (d < 30) && (d < 30 ==> c.val == DistanceBase(d) && Extra(c) == DistanceExtra(d))
  }

  lemma DistanceLeads(d: nat, bits: nat)
    requires d < 32
    ensures LeadsOn(SymbolCode(DISTS, d, bits), d)
  {
    if d < 30 {
      DistanceTable(d);
      hide DistanceBase, DistanceExtra;
      assert SymbolCode(DISTS, d, bits) == Code(DEXT[d], bits, DBASE[d]);
    } else {
      assert DEXT[30] == 64 && DEXT[31] == 64;
    }
  }

  /** A distance is decoded as its code says. */
  lemma DistanceIs(dists: Lengths, max: nat, t: seq<Code>, root: nat, stream: nat, pos: nat) returns (d: nat)
    requires Serves(DISTS, dists, max, t, root)
    ensures OnlySymbol(stream, pos, dists, d)
    ensures var e := Entry(stream, pos, t, root, false); e.1 == pos + dists[d] && LeadsOn(e.0, d)
  {
    d := DecodesEverything(DISTS, dists, max, t, root, stream, pos);
    DistanceLeads(d, Entry(stream, pos, t, root, false).0.bits);
    hide SymbolCode, LeadsOn, EveryPlaced, ValidTable, Entry, Begins;
  }

  /** The entry of a literal/length symbol. */
  predicate Leads(c: Code, s: nat)
  {
    if s < 256 then c.op == 0 && c.val == s
    else if s == 256 then c.op == 96
    else if s > 285 then c.op != 0 && !IsBase(c) && !IsEnd(c)
    else c.op != 0 && IsBase(c) && c.val == LengthBase(s) && Extra(c) == LengthExtra(s)
  }

  lemma SymbolLeads(s: nat, bits: nat)
    requires s < 288
    ensures Leads(SymbolCode(LENS, s, bits), s)
  {
    if 257 <= s <= 285 {
      LengthTable(s);
      hide LengthBase, LengthExtra;
    } else if s > 285 {
      assert LEXT[29] == 77 && LEXT[30] == 202;
    }
  }

  lemma LengthIs(lens: Lengths, max: nat, t: seq<Code>, root: nat, stream: nat, pos: nat) returns (s: nat)
    requires Serves(LENS, lens, max, t, root)
    ensures OnlySymbol(stream, pos, lens, s)
    ensures var e := Entry(stream, pos, t, root, true); e.1 == pos + lens[s] && Leads(e.0, s)
  {
    s := DecodesEverything(LENS, lens, max, t, root, stream, pos);
    SymbolLeads(s, Entry(stream, pos, t, root, true).0.bits);
    hide SymbolCode, Leads, EveryPlaced, ValidTable, Entry, Begins;
  }

  /** The rest of a match, if the distance is decoded as its code says. */
  lemma MatchIs(dists: Lengths, d: nat, t: Tables, c: Code, s: nat, stream: nat, p: nat)
    requires t.Valid() && IsBase(c) && GoodEntry(c, true) && 257 <= s <= 285 && Leads(c, s)
    requires OnlySymbol(stream, p + LengthExtra(s), dists, d)
    requires var e := Entry(stream, p + LengthExtra(s), t.dists, t.distBits, false);
             e.1 == p + LengthExtra(s) + dists[d] && LeadsOn(e.0, d)
    ensures forall token: Token, q: nat ::
              LengthToken(stream, p, dists, s, token, q) <==> (token, q) == MatchAt(stream, p, c, t)
  {
    hide LengthBase, LengthExtra, DistanceBase, DistanceExtra, OnlySymbol, ValidTable, DecodeTables.At;
    var p' := p + LengthExtra(s);
    var (e, x) := Entry(stream, p', t.dists, t.distBits, false);
    Inffast.MatchToken(stream, p, t, c, e, x);
    var len := LengthBase(s) + DecodeTables.At(stream, p, LengthExtra(s));
    var r := MatchAt(stream, p, c, t);
    assert DistanceToken(stream, x, len, d, r.0, r.1);
    hide MatchAt, Entry;
    forall token: Token, q: nat ensures LengthToken(stream, p, dists, s, token, q) <==> (token, q) == r {
      OneDistance(dists, d, stream, p', len, token, q, r);
    }
  }

  lemma OneDistance(dists: Lengths, d: nat, stream: nat, p: nat, len: nat, token: Token, q: nat, r: (Token, nat))
    requires OnlySymbol(stream, p, dists, d) && DistanceToken(stream, p + dists[d], len, d, r.0, r.1)
    ensures (exists e: nat :: IsSymbol(stream, p, dists, e) && DistanceToken(stream, p + dists[e], len, e, token, q))
            <==> (token, q) == r
  {
    hide DistanceBase, DistanceExtra, Begins;
    if (token, q) == r { assert IsSymbol(stream, p, dists, d); }
  }

  /** What the tables of complete sets decode at any position of any stream is the token that the canonical codes
      give, and that is the only one. */
  lemma TokenIsCanonical(lens: Lengths, max: nat, dists: Lengths, max': nat, t: Tables, stream: nat, pos: nat)
    requires t.Valid() && Serves(LENS, lens, max, t.lens, t.lenBits) && Serves(DISTS, dists, max', t.dists, t.distBits)
    ensures forall token: Token, q: nat ::
              IsToken(stream, pos, lens, dists, token, q) <==> (token, q) == NextToken(stream, pos, t)
  {
    hide Serves, ValidTable, LengthBase, LengthExtra, OnlySymbol;
    var s := LengthIs(lens, max, t.lens, t.lenBits, stream, pos);
    var (c, p) := Entry(stream, pos, t.lens, t.lenBits, true);
    var r := NextToken(stream, pos, t);
    if 257 <= s <= 285 {
      var d := DistanceIs(dists, max', t.dists, t.distBits, stream, p + LengthExtra(s));
      MatchIs(dists, d, t, c, s, stream, p);
    }
    SymbolIs(dists, t, c, s, stream, p);
    hide Entry, NextToken, Leads;
    forall token: Token, q: nat ensures IsToken(stream, pos, lens, dists, token, q) <==> (token, q) == r {
      OneSymbol(lens, dists, s, stream, pos, token, q, r);
    }
  }

  /** The token of an entry, as NextToken takes it. */
  function TokenOf(c: Code, stream: nat, p: nat, t: Tables): (Token, nat)
    requires t.Valid() && GoodEntry(c, true)
  {
    if c.op == 0 then (Literal(c.val % 256), p)
    else if IsBase(c) then MatchAt(stream, p, c, t)
    else if IsEnd(c) then (EndOfBlock, p)
    else (BadLength, p)
  }

  lemma SymbolIs(dists: Lengths, t: Tables, c: Code, s: nat, stream: nat, p: nat)
    requires t.Valid() && GoodEntry(c, true) && Leads(c, s)
    requires 257 <= s <= 285 ==> forall token: Token, q: nat ::
               LengthToken(stream, p, dists, s, token, q) <==> (token, q) == MatchAt(stream, p, c, t)
    ensures forall token: Token, q: nat ::
              SymbolToken(stream, p, dists, s, token, q) <==> (token, q) == TokenOf(c, stream, p, t)
  {
    hide LengthToken, MatchAt, LengthBase, LengthExtra, ValidTable;
  }

  lemma OneSymbol(lens: Lengths, dists: Lengths, s: nat, stream: nat, pos: nat, token: Token, q: nat, r: (Token, nat))
    requires OnlySymbol(stream, pos, lens, s)
    requires forall x: Token, y: nat :: SymbolToken(stream, pos + lens[s], dists, s, x, y) <==> (x, y) == r
    ensures IsToken(stream, pos, lens, dists, token, q) <==> (token, q) == r
  {
    hide SymbolToken, Begins;
    assert IsSymbol(stream, pos, lens, s);
    assert SymbolToken(stream, pos + lens[s], dists, s, token, q) <==> (token, q) == r;
  }

  // ---------- Runs ----------

  /** One token further: a literal, or a match that does not reach back too far. */
  ghost predicate OneToken(stream: nat, lens: Lengths, dists: Lengths, p: Progress, r: Progress)
  {
    p.At? && exists token: Token, q: nat :: IsToken(stream, p.pos, lens, dists, token, q) && Puts(p, token, q, r)
  }

  predicate Puts(p: Progress, token: Token, q: nat, r: Progress)
    requires p.At?
  {
    match token
    case Literal(b) => r == Inffast.At(q, p.history + [b])
    case Match(len, dist) => 1 <= dist <= |p.history| && r == Inffast.At(q, Lz(p.history, dist, len))
    case _ => false
  }

  /** The output after n tokens of the canonical codes, and the position behind them. */
  ghost predicate Inflated(stream: nat, lens: Lengths, dists: Lengths, start: Progress, n: nat, p: Progress)
    decreases n
  {
    if n == 0 then p == start
    else exists r: Progress :: Inflated(stream, lens, dists, start, n - 1, r) && OneToken(stream, lens, dists, r, p)
  }

  lemma OneTokenIs(lens: Lengths, max: nat, dists: Lengths, max': nat, t: Tables, stream: nat, p: Progress, r: Progress)
    requires t.Valid() && Serves(LENS, lens, max, t.lens, t.lenBits) && Serves(DISTS, dists, max', t.dists, t.distBits)
    requires p.At? && r.At?
    ensures OneToken(stream, lens, dists, p, r) <==> r == Inffast.After(stream, t, p)
  {
    TokenIsCanonical(lens, max, dists, max', t, stream, p.pos);
    hide Serves, IsToken, ValidTable;
    var (token, q) := NextToken(stream, p.pos, t);
    assert IsToken(stream, p.pos, lens, dists, token, q);
    hide NextToken;
    if r == Inffast.After(stream, t, p) { assert Puts(p, token, q, r); }
  }

  lemma PutsAt(p: Progress, token: Token, q: nat, r: Progress)
    requires p.At? && Puts(p, token, q, r)
    ensures r.At?
  {
  }

  lemma {:induction false} InflatedAt(stream: nat, lens: Lengths, dists: Lengths, start: Progress, n: nat, p: Progress)
    requires start.At? && Inflated(stream, lens, dists, start, n, p)
    ensures p.At?
  {
    hide IsToken;
    if n > 0 {
      var r :| Inflated(stream, lens, dists, start, n - 1, r) && OneToken(stream, lens, dists, r, p);
      var token: Token, q: nat :| IsToken(stream, r.pos, lens, dists, token, q) && Puts(r, token, q, p);
      PutsAt(r, token, q, p);
    }
  }

  /** Reading through the tables of complete sets is reading by the canonical codes. */
  lemma {:induction false} DecodedIsInflated(lens: Lengths, max: nat, dists: Lengths, max': nat, t: Tables, stream: nat,
      start: Progress, n: nat, p: Progress)
    requires t.Valid() && Serves(LENS, lens, max, t.lens, t.lenBits) && Serves(DISTS, dists, max', t.dists, t.distBits)
    requires start.At? && p.At?
    ensures Inflated(stream, lens, dists, start, n, p) <==> p == Inffast.Decoded(stream, t, start, n)
    decreases n
  {
    hide Serves, OneToken, Inffast.After, ValidTable;
    if n > 0 {
      var d := Inffast.Decoded(stream, t, start, n - 1);
      if d.At? { DecodedIsInflated(lens, max, dists, max', t, stream, start, n - 1, d); }
      if Inflated(stream, lens, dists, start, n, p) {
        var r :| Inflated(stream, lens, dists, start, n - 1, r) && OneToken(stream, lens, dists, r, p);
        InflatedAt(stream, lens, dists, start, n - 1, r);
        DecodedIsInflated(lens, max, dists, max', t, stream, start, n - 1, r);
        OneTokenIs(lens, max, dists, max', t, stream, r, p);
      } else if d.At? {
        OneTokenIs(lens, max, dists, max', t, stream, d, p);
      }
    }
  }

  // ---------- A block ----------

  /** A set of lengths that is not refused, whose tables do not have too many entries. */
  ghost predicate Usable(ty: CodeType, lens: Lengths, bits: nat)
  {
    NoCodes(lens) || (!Refused(ty, lens) && !exists root: nat, max: nat, w: seq<nat>, used: nat ::
                                               Outcome(ty, lens, bits, root, max, w, 1, used))
  }

  /** The space for the tables of a block, and for building them. */
  class Tree {
    const lens: array<Code>
    const dists: array<Code>
    const work: array<nat>

    constructor ()
      ensures fresh(lens) && fresh(dists) && fresh(work) && Valid()
    {
      lens := new Code[Enough(LENS)](_ => Code(0, 0, 0));
      dists := new Code[Enough(DISTS)](_ => Code(0, 0, 0));
      work := new nat[288](_ => 0);
    }

    ghost predicate Valid()
    {
      lens.Length == Enough(LENS) && dists.Length == Enough(DISTS) && work.Length == 288 && lens != dists
    }

    /** The tables for the lengths that the header of a block gives, with 9 and 6 index bits; none if a set is
        refused. */
    method Build(ll: Lengths, dl: Lengths) returns (ok: bool, t: Tables)
      requires Valid() && Bounded(ll) && |ll| <= 288 && Bounded(dl) && |dl| <= 32
      modifies lens, dists, work
      ensures ok ==> t.Valid() && EveryPlaced(LENS, ll, t.lens, t.lenBits)
                     && EveryPlaced(DISTS, dl, t.dists, t.distBits)
      ensures !ok ==> !Usable(LENS, ll, 9) || !Usable(DISTS, dl, 6)
    {
      t := Tables([], 0, [], 0);
      var result, root, used := InflateTable(LENS, ll, lens, 9, work);
      if result != 0 { return false, t; }
      var result', root', used' := InflateTable(DISTS, dl, dists, 6, work);
      if result' != 0 { return false, t; }
      return true, Tables(lens[..used], root, dists[..used'], root');
    }
  }

  /** A set of lengths whose codes use up all bit strings. */
  ghost predicate IsComplete(lens: Lengths) { !NoCodes(lens) && NotOversubscribed(lens) && !Incomplete(lens) }

  lemma CompleteServes(ty: CodeType, lens: Lengths, t: seq<Code>, root: nat) returns (max: nat)
    requires IsComplete(lens) && Bounded(lens) && |lens| <= Symbols(ty)
    requires EveryPlaced(ty, lens, t, root) && ValidTable(t, root, Literals(ty))
    ensures Serves(ty, lens, max, t, root)
  {
    hide Pow2, Used, EveryPlaced, Incomplete, ValidEntry;
    max := 15;
    IncompleteAt(lens, 15);
    assert Fits(lens, 15);
  }

  /** A run of the fast loop with the tables of complete sets, and the token at its end. */
  lemma RunIs(ll: Lengths, dl: Lengths, t: Tables, stream: nat, start: Progress, n: nat, p: Progress)
    requires IsComplete(ll) && Bounded(ll) && |ll| <= 288 && IsComplete(dl) && Bounded(dl) && |dl| <= 32 && t.Valid()
    requires EveryPlaced(LENS, ll, t.lens, t.lenBits) && EveryPlaced(DISTS, dl, t.dists, t.distBits)
    requires start.At? && p.At? && p == Inffast.Decoded(stream, t, start, n)
    ensures Inflated(stream, ll, dl, start, n, p)
    ensures forall token: Token, q: nat ::
              IsToken(stream, p.pos, ll, dl, token, q) <==> (token, q) == NextToken(stream, p.pos, t)
    ensures Inffast.After(stream, t, p).Stopped? ==> forall r: Progress :: !OneToken(stream, ll, dl, p, r)
  {
    var max := CompleteServes(LENS, ll, t.lens, t.lenBits);
    var max' := CompleteServes(DISTS, dl, t.dists, t.distBits);
    hide IsComplete, EveryPlaced, ValidTable, Serves, Inflated, Inffast.After, NextToken, Inffast.Decoded, IsToken;
    DecodedIsInflated(ll, max, dl, max', t, stream, start, n, p);
    TokenIsCanonical(ll, max, dl, max', t, stream, p.pos);
    forall r: Progress | OneToken(stream, ll, dl, p, r) ensures !Inffast.After(stream, t, p).Stopped? {
      var token: Token, q: nat :| IsToken(stream, p.pos, ll, dl, token, q) && Puts(p, token, q, r);
      PutsAt(p, token, q, r);
      OneTokenIs(ll, max, dl, max', t, stream, p, r);
    }
  }

  /** Building the tables of a block and running the fast loop with them. If both sets of lengths are complete, what
      is written are the tokens of the canonical codes, up to the end of the block, to a token that is no token or
      reaches back too far, or to where input or output may not be enough for one more. */
  method FastBlock(tree: Tree, ll: Lengths, dl: Lengths, reader: BitReader, output: Output)
    returns (ok: bool, mode: Inffast.Mode, ghost n: nat, ghost p: Progress)
    requires tree.Valid() && Bounded(ll) && |ll| <= 288 && Bounded(dl) && |dl| <= 32
    requires reader.Valid() && output.Valid()
    requires reader.nextIn + 6 <= |reader.input| && output.out + 258 <= output.buffer.Length
    modifies tree.lens, tree.dists, tree.work, reader, output, output.buffer
    ensures !ok ==> !Usable(LENS, ll, 9) || !Usable(DISTS, dl, 6)
    ensures reader.Valid() && output.Valid()
    ensures ok && IsComplete(ll) && IsComplete(dl) ==>
              && p.At? && Inflated(reader.stream, ll, dl, Inffast.At(old(reader.pos), old(output.history)), n, p)
              && output.history == p.history
              && (mode == Inffast.LEN ==> reader.pos == p.pos && n > 0)
              && (mode == Inffast.TYPE ==> IsToken(reader.stream, p.pos, ll, dl, EndOfBlock, reader.pos))
              && (mode == Inffast.BAD ==>
                    && (forall r: Progress :: !OneToken(reader.stream, ll, dl, p, r))
                    && forall q: nat :: !IsToken(reader.stream, p.pos, ll, dl, EndOfBlock, q))
    ensures ok && mode == Inffast.LEN ==>
              reader.nextIn + 10 > |reader.input| || output.out + 258 > output.buffer.Length
  {
    var t;
    ok, t := tree.Build(ll, dl);
    ghost var start := Inffast.At(reader.pos, output.history);
    n, p, mode := 0, start, Inffast.BAD;
    if !ok { return; }
    var inflater := new Inffast.Inflater(t, reader, output);
    n := inflater.InflateFast();
    mode, p := inflater.mode, Inffast.Decoded(reader.stream, t, start, n);
    if IsComplete(ll) && IsComplete(dl) { RunIs(ll, dl, t, reader.stream, start, n, p); }
  }
}
