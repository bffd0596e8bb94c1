/** What the tables of src/zlib/inftrees.c hold, and why filling in one more symbol disturbs no other. */
module HuffTable {
  import opened BitStream
  import opened Canonical
  import opened DecodeTables

  datatype CodeType = CODES | LENS | DISTS

  const LBASE: seq<nat> := [3, 4, 5, 6, 7, 8, 9, 10, 11, 13, 15, 17, 19, 23, 27, 31,
                            35, 43, 51, 59, 67, 83, 99, 115, 131, 163, 195, 227, 258, 0, 0]
  const LEXT: seq<Byte> := [16, 16, 16, 16, 16, 16, 16, 16, 17, 17, 17, 17, 18, 18, 18, 18,
                            19, 19, 19, 19, 20, 20, 20, 20, 21, 21, 21, 21, 16, 77, 202]
  const DBASE: seq<nat> := [1, 2, 3, 4, 5, 7, 9, 13, 17, 25, 33, 49, 65, 97, 129, 193,
                            257, 385, 513, 769, 1025, 1537, 2049, 3073, 4097, 6145,
                            8193, 12289, 16385, 24577, 0, 0]
  const DEXT: seq<Byte> := [16, 16, 16, 16, 17, 17, 18, 18, 19, 19, 20, 20, 21, 21, 22, 22,
                            23, 23, 24, 24, 25, 25, 26, 26, 27, 27,
                            28, 28, 29, 29, 64, 64]

  /** The symbols that a code of that type can have. */
  function Symbols(ty: CodeType): nat
  {
    match ty case CODES => 19 case LENS => 288 case DISTS => 32
  }

  function MatchFrom(ty: CodeType): nat
  {
    match ty case CODES => 20 case LENS => 257 case DISTS => 0
  }

  /** The entry for a symbol whose code has that many bits left in this table. */
  function SymbolCode(ty: CodeType, sym: nat, bits: nat): Code
    requires sym < Symbols(ty)
  {
    if sym + 1 < MatchFrom(ty) then Code(0, bits, sym)
    else if sym >= MatchFrom(ty) then
      if ty == LENS then Code(LEXT[sym - 257], bits, LBASE[sym - 257]) else Code(DEXT[sym], bits, DBASE[sym])
    else Code(96, bits, 0)
  }

  /** A base entry of the length table, by its number of extra bits. */
  lemma LengthGood(i: nat, bits: nat)
    requires i < 31
    ensures GoodEntry(Code(LEXT[i], bits, LBASE[i]), true)
  {
    assert Pow2(1) == 2 && Pow2(2) == 4 && Pow2(3) == 8 && Pow2(4) == 16 && Pow2(5) == 32;
    if i < 8 {
      assert LEXT[i] == 16 && 3 <= LBASE[i] <= 10;
    } else if i < 12 {
      assert LEXT[i] == 17 && 11 <= LBASE[i] <= 17;
    } else if i < 16 {
      assert LEXT[i] == 18 && 19 <= LBASE[i] <= 31;
    } else if i < 20 {
      assert LEXT[i] == 19 && 35 <= LBASE[i] <= 59;
    } else if i < 24 {
      assert LEXT[i] == 20 && 67 <= LBASE[i] <= 115;
    } else if i < 28 {
      assert LEXT[i] == 21 && 131 <= LBASE[i] <= 227;
    }
  }

  lemma DistanceGood(i: nat, bits: nat)
    requires i < 32
    ensures GoodEntry(Code(DEXT[i], bits, DBASE[i]), false)
  {
    if i < 30 { assert 16 <= DEXT[i] <= 29 && 1 <= DBASE[i]; }
  }

  /** Every symbol's entry is one that the decoder can use. */
  lemma SymbolGood(ty: CodeType, sym: nat, bits: nat)
    requires sym < Symbols(ty)
    ensures GoodEntry(SymbolCode(ty, sym, bits), ty != DISTS) && SymbolCode(ty, sym, bits).bits == bits
  {
    if ty == LENS && sym >= 257 { LengthGood(sym - 257, bits); }
    if ty == DISTS { DistanceGood(sym, bits); }
  }

  // ---------- Filled tables ----------

  /** The low b bits of the index are h. */
  predicate Ends(k: nat, h: nat, b: nat) { Low(k, b) == h }

  /** An index of a table with that many index bits and those low bits. */
  predicate Wanted(k: nat, bits: nat, h: nat, b: nat) { k < Pow2(bits) && Ends(k, h, b) }

  /** All indices of the table whose low b bits are h hold the entry. */
  ghost predicate Filled(t: seq<Code>, base: nat, bits: nat, h: nat, b: nat, c: Code)
  {
    base + Pow2(bits) <= |t| && forall k: nat :: Wanted(k, bits, h, b) ==> t[base + k] == c
  }

  /** The root entry links to a sub-table that lies behind the root table and ends before the limit. */
  ghost predicate Linked(t: seq<Code>, root: nat, r: nat, limit: nat)
  {
    && r < Pow2(root) <= |t| && t[r].bits == root && 1 <= t[r].op && root + t[r].op <= 15
    && Pow2(root) <= t[r].val && t[r].val + Pow2(t[r].op) <= limit <= |t|
  }

  /** A set of lengths that can be coded. */
  ghost predicate Codable(ty: CodeType, lens: Lengths)
  {
    Bounded(lens) && |lens| <= Symbols(ty) && NotOversubscribed(lens)
  }

  function HuffOf(lens: Lengths, s: nat): nat
    requires s < |lens| && lens[s] > 0
  {
    Huff(CodeOf(lens, s), lens[s])
  }

  /** The root index of a symbol's code. */
  function RootOf(lens: Lengths, s: nat, root: nat): nat
    requires s < |lens| && lens[s] > 0
  {
    Low(HuffOf(lens, s), root)
  }

  /** The symbol can be looked up: in the root table, or by a link in a sub-table. */
  ghost predicate Placed(ty: CodeType, lens: Lengths, t: seq<Code>, root: nat, limit: nat, s: nat)
    requires Coded(lens, s) && |lens| <= Symbols(ty)
  {
    var l, h := lens[s], HuffOf(lens, s);
    if l <= root then Filled(t, 0, root, h, l, SymbolCode(ty, s, l))
    else
      var r := RootOf(lens, s, root);
      && Linked(t, root, r, limit) && l - root <= t[r].op
      && Filled(t, t[r].val, t[r].op, Drop(h, root), l - root, SymbolCode(ty, s, l - root))
  }

  /** The fill loop's effect: all indices of one table with those low bits are overwritten. */
  ghost predicate Overwritten(t: seq<Code>, t': seq<Code>, base: nat, bits: nat, h: nat, b: nat, c: Code)
  {
    && |t'| == |t| && base + Pow2(bits) <= |t|
    && forall k: nat :: k < |t| ==>
         t'[k] == if base <= k && Wanted(k - base, bits, h, b) then c else t[k]
  }

  // ---------- Codes do not clash ----------

  lemma Clash(ty: CodeType, lens: Lengths, s: nat, q: nat, x: nat)
    requires Codable(ty, lens) && Coded(lens, s) && Coded(lens, q) && s != q
    ensures !(Low(x, lens[s]) == HuffOf(lens, s) && Low(x, lens[q]) == HuffOf(lens, q))
  {
    CodeBound(lens, s);
    CodeBound(lens, q);
    StartsWith(x, CodeOf(lens, s), lens[s]);
    StartsWith(x, CodeOf(lens, q), lens[q]);
    PrefixFree(lens, s, q, x);
  }

  /** Root index and sub-table index together are the bits of the code. */
  lemma Joined(k: nat, root: nat, l: nat, h: nat)
    requires root <= l && h < Pow2(l) && Low(k, l - root) == Drop(h, root)
    ensures Low(Low(h, root) + Shl(k, root), l) == h && Low(Low(h, root) + Shl(k, root), root) == Low(h, root)
    ensures Drop(Low(h, root) + Shl(k, root), root) == k
  {
    var r := Low(h, root);
    var x := r + Shl(k, root);
    LowOfLow(h, root, root);
    DropOfAppend(r, k, root);
    LowAppend(x, root, l - root);
    LowSmall(h, l);
    DropOfLow(h, l, root);
    LowAppend(h, root, l - root);
  }

  lemma SubClash(ty: CodeType, lens: Lengths, root: nat, s: nat, q: nat, k: nat)
    requires Codable(ty, lens) && Coded(lens, s) && Coded(lens, q) && s != q && root < lens[s] && root < lens[q]
    requires RootOf(lens, s, root) == RootOf(lens, q, root)
    ensures !(Low(k, lens[s] - root) == Drop(HuffOf(lens, s), root)
        && Low(k, lens[q] - root) == Drop(HuffOf(lens, q), root))
  {
    if Low(k, lens[s] - root) == Drop(HuffOf(lens, s), root) && Low(k, lens[q] - root) == Drop(HuffOf(lens, q), root) {
      HuffBound(CodeOf(lens, s), lens[s]);
      HuffBound(CodeOf(lens, q), lens[q]);
      Joined(k, root, lens[s], HuffOf(lens, s));
      Joined(k, root, lens[q], HuffOf(lens, q));
      Clash(ty, lens, s, q, RootOf(lens, s, root) + Shl(k, root));
    }
  }

  /** A root index that begins a long code does not end a short one. */
  lemma RootClash(ty: CodeType, lens: Lengths, root: nat, s: nat, q: nat)
    requires Codable(ty, lens) && Coded(lens, s) && Coded(lens, q) && lens[q] <= root < lens[s]
    ensures Low(RootOf(lens, s, root), lens[q]) != HuffOf(lens, q)
  {
    var h := HuffOf(lens, s);
    HuffBound(CodeOf(lens, s), lens[s]);
    LowSmall(h, lens[s]);
    LowOfLow(h, root, lens[q]);
    Clash(ty, lens, s, q, h);
  }

  // ---------- One more symbol ----------

  /** No index ends in both. */
  ghost predicate Distinct(h: nat, b: nat, h': nat, b': nat)
  {
    forall k: nat :: Ends(k, h, b) ==> !Ends(k, h', b')
  }

  lemma DistinctCodes(ty: CodeType, lens: Lengths, s: nat, q: nat)
    requires Codable(ty, lens) && Coded(lens, s) && Coded(lens, q) && s != q
    ensures Distinct(HuffOf(lens, q), lens[q], HuffOf(lens, s), lens[s])
  {
    var hs, hq := HuffOf(lens, s), HuffOf(lens, q);
    forall k: nat | Ends(k, hq, lens[q]) ensures !Ends(k, hs, lens[s]) { Clash(ty, lens, s, q, k); }
  }

  lemma DistinctRests(ty: CodeType, lens: Lengths, root: nat, s: nat, q: nat)
    requires Codable(ty, lens) && Coded(lens, s) && Coded(lens, q) && s != q && root < lens[s] && root < lens[q]
    requires RootOf(lens, s, root) == RootOf(lens, q, root)
    ensures Distinct(Drop(HuffOf(lens, q), root), lens[q] - root, Drop(HuffOf(lens, s), root), lens[s] - root)
  {
    var hs, hq, bs, bq := Drop(HuffOf(lens, s), root), Drop(HuffOf(lens, q), root), lens[s] - root, lens[q] - root;
    forall k: nat | Ends(k, hq, bq) ensures !Ends(k, hs, bs) { SubClash(ty, lens, root, s, q, k); }
  }

  lemma FilledStays(t: seq<Code>, t': seq<Code>, base: nat, bits: nat, h: nat, b: nat, c: Code,
                    base': nat, bits': nat, h': nat, b': nat, c': Code)
    requires Filled(t, base, bits, h, b, c) && Overwritten(t, t', base', bits', h', b', c')
    requires base + Pow2(bits) <= base' || base' + Pow2(bits') <= base || (base == base' && Distinct(h, b, h', b'))
    ensures Filled(t', base, bits, h, b, c)
  {
  }

  lemma FilledNow(t: seq<Code>, t': seq<Code>, base: nat, bits: nat, h: nat, b: nat, c: Code)
    requires Overwritten(t, t', base, bits, h, b, c)
    ensures Filled(t', base, bits, h, b, c)
  {
  }

  /** The table at next is the one for the symbol. */
  ghost predicate Current(lens: Lengths, t: seq<Code>, root: nat, next: nat, curr: nat, used: nat, s: nat)
    requires Coded(lens, s)
  {
    && root <= 15 && next + Pow2(curr) == used <= |t|
    && if lens[s] <= root then next == 0 && curr == root
       else CurrentSub(t, root, next, curr, used, RootOf(lens, s, root)) && lens[s] - root <= curr
  }

  ghost predicate CurrentSub(t: seq<Code>, root: nat, next: nat, curr: nat, used: nat, r: nat)
  {
    Linked(t, root, r, used) && t[r].val == next && t[r].op == curr
  }

  /** A symbol placed before lies in the current table or in one that ends before it. */
  ghost predicate Apart(lens: Lengths, t: seq<Code>, root: nat, next: nat, s: nat, q: nat)
    requires Coded(lens, s) && Coded(lens, q)
  {
    lens[q] <= lens[s] && (root < lens[q] ==>
      RootOf(lens, q, root) == RootOf(lens, s, root) || Linked(t, root, RootOf(lens, q, root), next))
  }

  /** What the fill loop does for a symbol. */
  ghost predicate FillsSymbol(ty: CodeType, lens: Lengths, t: seq<Code>, t': seq<Code>, root: nat, next: nat,
      curr: nat, s: nat)
    requires Coded(lens, s) && |lens| <= Symbols(ty)
  {
    if lens[s] <= root then Overwritten(t, t', next, curr, HuffOf(lens, s), lens[s], SymbolCode(ty, s, lens[s]))
    else Overwritten(t, t', next, curr, Drop(HuffOf(lens, s), root), lens[s] - root, SymbolCode(ty, s, lens[s] - root))
  }

  lemma OverwrittenKeepsLink(t: seq<Code>, t': seq<Code>, base: nat, bits: nat, h: nat, b: nat, c: Code,
                             root: nat, r: nat, limit: nat)
    requires Overwritten(t, t', base, bits, h, b, c) && Linked(t, root, r, limit) && Pow2(root) <= base
    ensures Linked(t', root, r, limit) && t'[r] == t[r]
  {
  }

  lemma FillPlacesShort(ty: CodeType, lens: Lengths, t: seq<Code>, t': seq<Code>, root: nat, next: nat, curr: nat,
      used: nat, s: nat)
    requires Coded(lens, s) && |lens| <= Symbols(ty) && lens[s] <= root && Current(lens, t, root, next, curr, used, s)
    requires FillsSymbol(ty, lens, t, t', root, next, curr, s)
    ensures Placed(ty, lens, t', root, used, s) && Current(lens, t', root, next, curr, used, s)
  {
    FilledNow(t, t', next, curr, HuffOf(lens, s), lens[s], SymbolCode(ty, s, lens[s]));
  }

  lemma FillPlacesLong(ty: CodeType, lens: Lengths, t: seq<Code>, t': seq<Code>, root: nat, next: nat, curr: nat,
      used: nat, s: nat)
    requires Coded(lens, s) && |lens| <= Symbols(ty) && lens[s] > root && Current(lens, t, root, next, curr, used, s)
    requires FillsSymbol(ty, lens, t, t', root, next, curr, s)
    ensures Placed(ty, lens, t', root, used, s) && Current(lens, t', root, next, curr, used, s)
  {
    var h, b, c := Drop(HuffOf(lens, s), root), lens[s] - root, SymbolCode(ty, s, lens[s] - root);
    FilledNow(t, t', next, curr, h, b, c);
    OverwrittenKeepsLink(t, t', next, curr, h, b, c, root, RootOf(lens, s, root), used);
  }

  lemma ShortStays(ty: CodeType, lens: Lengths, t: seq<Code>, t': seq<Code>, root: nat, q: nat,
                   base: nat, bits: nat, h: nat, b: nat, c: Code)
    requires Coded(lens, q) && q < Symbols(ty) && lens[q] <= root && Overwritten(t, t', base, bits, h, b, c)
    requires Filled(t, 0, root, HuffOf(lens, q), lens[q], SymbolCode(ty, q, lens[q]))
    requires Pow2(root) <= base || (base == 0 && Distinct(HuffOf(lens, q), lens[q], h, b))
    ensures Filled(t', 0, root, HuffOf(lens, q), lens[q], SymbolCode(ty, q, lens[q]))
  {
    FilledStays(t, t', 0, root, HuffOf(lens, q), lens[q], SymbolCode(ty, q, lens[q]), base, bits, h, b, c);
  }

  /** A symbol in the root table stays when another one is filled in there. */
  lemma FillKeepsShort(ty: CodeType, lens: Lengths, t: seq<Code>, t': seq<Code>, root: nat, next: nat, curr: nat,
      used: nat, s: nat, q: nat)
    requires Codable(ty, lens) && Coded(lens, s) && Coded(lens, q) && s != q && lens[q] <= root && lens[s] <= root
    requires next == 0 && FillsSymbol(ty, lens, t, t', root, next, curr, s)
    requires Placed(ty, lens, t, root, used, q)
    ensures Placed(ty, lens, t', root, used, q)
  {
    DistinctCodes(ty, lens, s, q);
    ShortStays(ty, lens, t, t', root, q, next, curr, HuffOf(lens, s), lens[s], SymbolCode(ty, s, lens[s]));
  }

  /** A symbol in the root table stays when one is filled in elsewhere. */
  lemma FillKeepsRoot(ty: CodeType, lens: Lengths, t: seq<Code>, t': seq<Code>, root: nat, next: nat, curr: nat,
      used: nat, q: nat, h: nat, b: nat, c: Code)
    requires Coded(lens, q) && |lens| <= Symbols(ty) && lens[q] <= root && Pow2(root) <= next
    requires Overwritten(t, t', next, curr, h, b, c) && Placed(ty, lens, t, root, used, q)
    ensures Placed(ty, lens, t', root, used, q)
  {
    ShortStays(ty, lens, t, t', root, q, next, curr, h, b, c);
  }

  /** A symbol in an earlier sub-table stays. */
  lemma FillKeepsEarlier(ty: CodeType, lens: Lengths, t: seq<Code>, t': seq<Code>, root: nat, next: nat, curr: nat,
      used: nat, q: nat, h: nat, b: nat, c: Code)
    requires Coded(lens, q) && |lens| <= Symbols(ty) && root < lens[q] && Overwritten(t, t', next, curr, h, b, c)
    requires Placed(ty, lens, t, root, used, q) && Linked(t, root, RootOf(lens, q, root), next) && Pow2(root) <= next
    ensures Placed(ty, lens, t', root, used, q) && Linked(t', root, RootOf(lens, q, root), next)
  {
    var r := RootOf(lens, q, root);
    OverwrittenKeepsLink(t, t', next, curr, h, b, c, root, r, used);
    OverwrittenKeepsLink(t, t', next, curr, h, b, c, root, r, next);
    FilledStays(t, t', t[r].val, t[r].op, Drop(HuffOf(lens, q), root), lens[q] - root,
        SymbolCode(ty, q, lens[q] - root),
                next, curr, h, b, c);
  }

  /** A symbol in the same sub-table stays. */
  lemma FillKeepsSame(ty: CodeType, lens: Lengths, t: seq<Code>, t': seq<Code>, root: nat, next: nat, curr: nat,
      used: nat, q: nat, h: nat, b: nat, c: Code)
    requires Coded(lens, q) && |lens| <= Symbols(ty) && root < lens[q] && Overwritten(t, t', next, curr, h, b, c)
    requires Placed(ty, lens, t, root, used, q) && CurrentSub(t, root, next, curr, used, RootOf(lens, q, root))
    requires Distinct(Drop(HuffOf(lens, q), root), lens[q] - root, h, b)
    ensures Placed(ty, lens, t', root, used, q)
  {
    var r := RootOf(lens, q, root);
    OverwrittenKeepsLink(t, t', next, curr, h, b, c, root, r, used);
    FilledStays(t, t', next, curr, Drop(HuffOf(lens, q), root), lens[q] - root, SymbolCode(ty, q, lens[q] - root),
                next, curr, h, b, c);
  }

  // ---------- A new sub-table ----------

  lemma FilledBesides(t: seq<Code>, base: nat, bits: nat, h: nat, b: nat, c: Code, r: nat, link: Code)
    requires Filled(t, base, bits, h, b, c) && r < |t| && (r < base || !Ends(r - base, h, b))
    ensures Filled(t[r := link], base, bits, h, b, c)
  {
  }

  lemma ShortBesides(ty: CodeType, lens: Lengths, t: seq<Code>, root: nat, q: nat, r: nat, link: Code)
    requires Coded(lens, q) && q < Symbols(ty) && lens[q] <= root && r < |t| && Low(r, lens[q]) != HuffOf(lens, q)
    requires Filled(t, 0, root, HuffOf(lens, q), lens[q], SymbolCode(ty, q, lens[q]))
    ensures Filled(t[r := link], 0, root, HuffOf(lens, q), lens[q], SymbolCode(ty, q, lens[q]))
  {
    FilledBesides(t, 0, root, HuffOf(lens, q), lens[q], SymbolCode(ty, q, lens[q]), r, link);
  }

  /** The root entry becomes a link to a new table behind all others; short codes stay. */
  lemma LinkKeepsShort(ty: CodeType, lens: Lengths, t: seq<Code>, root: nat, limit: nat, used: nat, s: nat, q: nat,
      link: Code)
    requires Codable(ty, lens) && Coded(lens, s) && Coded(lens, q) && lens[q] <= root < lens[s]
    requires Placed(ty, lens, t, root, limit, q) && RootOf(lens, s, root) < |t|
    ensures Placed(ty, lens, t[RootOf(lens, s, root) := link], root, used, q)
  {
    RootClash(ty, lens, root, s, q);
    ShortBesides(ty, lens, t, root, q, RootOf(lens, s, root), link);
  }

  lemma LinkKeepsLong(ty: CodeType, lens: Lengths, t: seq<Code>, root: nat, limit: nat, used: nat, s: nat, q: nat,
      link: Code)
    requires Codable(ty, lens) && Coded(lens, s) && Coded(lens, q) && root < lens[q] <= lens[s]
    requires Placed(ty, lens, t, root, limit, q) && RootOf(lens, s, root) < Pow2(root) && limit <= used <= |t|
    requires RootOf(lens, q, root) != RootOf(lens, s, root)
    ensures var t' := t[RootOf(lens, s, root) := link];
            Placed(ty, lens, t', root, used, q) && Apart(lens, t', root, limit, s, q)
  {
    var r := RootOf(lens, q, root);
    FilledBesides(t, t[r].val, t[r].op, Drop(HuffOf(lens, q), root), lens[q] - root, SymbolCode(ty, q, lens[q] - root),
                  RootOf(lens, s, root), link);
  }
}
