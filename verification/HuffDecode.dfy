/** What a decoder reads through the finished tables. */
module HuffDecode {
  import opened BitStream
  import opened Canonical
  import opened DecodeTables
  import opened HuffTable
  import opened HuffBuild

  /** Whether op 0 is a literal. */
  predicate Literals(ty: CodeType) { ty != DISTS }

  /** The stream at that position starts with the symbol's canonical code. */
  predicate Begins(stream: nat, pos: nat, lens: Lengths, s: nat)
    requires s < |lens| && lens[s] > 0
  {
    Msb(Drop(stream, pos), lens[s]) == CodeOf(lens, s)
  }

  /** The codes, of at most max bits, together use up all bit strings. */
  predicate Complete(lens: Lengths, max: nat)
  {
    max <= 15 && Used(lens, max) == Pow2(max)
  }

  ghost predicate EveryPlaced(ty: CodeType, lens: Lengths, t: seq<Code>, root: nat)
    requires |lens| <= Symbols(ty)
  {
    forall s: nat {:trigger Placed(ty, lens, t, root, |t|, s)} :: Coded(lens, s) ==> Placed(ty, lens, t, root, |t|, s)
  }

  lemma BeginsLow(stream: nat, pos: nat, lens: Lengths, s: nat)
    requires NotOversubscribed(lens) && Coded(lens, s)
    ensures Begins(stream, pos, lens, s) <==> Low(Drop(stream, pos), lens[s]) == HuffOf(lens, s)
  {
    CodeBound(lens, s);
    StartsWith(Drop(stream, pos), CodeOf(lens, s), lens[s]);
  }

  // ---------- Looking up ----------

  lemma RootIndex(x: nat, h: nat, l: nat, root: nat)
    requires Low(x, l) == h
    ensures l <= root ==> Low(Low(x, root), l) == h
    ensures l >= root ==> Low(x, root) == Low(h, root)
  {
    if l <= root { LowOfLow(x, root, l); }
    if l >= root { LowOfLow(x, l, root); }
  }

  lemma SubIndex(x: nat, h: nat, l: nat, root: nat, bits: nat)
    requires Low(x, l) == h && root <= l <= root + bits
    ensures Low(Low(Drop(x, root), bits), l - root) == Drop(h, root)
  {
    LowOfLow(Drop(x, root), bits, l - root);
    DropOfLow(x, l, root);
  }

  lemma LinkIs(c: Code, lens: bool)
    requires 1 <= c.op <= 15
    ensures IsLink(c, lens)
  {
  }

  lemma DirectEntry(ty: CodeType, lens: Lengths, t: seq<Code>, root: nat, s: nat, x: nat)
    requires Coded(lens, s) && |lens| <= Symbols(ty) && lens[s] <= root && Placed(ty, lens, t, root, |t|, s)
    requires Low(x, lens[s]) == HuffOf(lens, s)
    ensures Low(x, root) < |t| && t[Low(x, root)] == SymbolCode(ty, s, lens[s])
  {
    var h, c := HuffOf(lens, s), SymbolCode(ty, s, lens[s]);
    RootIndex(x, h, lens[s], root);
    LowBound(x, root);
    assert Filled(t, 0, root, h, lens[s], c);
    FilledAt(t, 0, root, h, lens[s], c, Low(x, root));
  }

  lemma FilledAt(t: seq<Code>, base: nat, bits: nat, h: nat, b: nat, c: Code, k: nat)
    requires Filled(t, base, bits, h, b, c) && k < Pow2(bits) && Low(k, b) == h
    ensures base + k < |t| && t[base + k] == c
  {
    assert Wanted(k, bits, h, b);
  }

  /** The root entry for x links to a sub-table in which the next bits of x select the entry e. */
  ghost predicate Reads(t: seq<Code>, root: nat, x: nat, e: Code)
  {
    && Linked(t, root, Low(x, root), |t|)
    && var c := t[Low(x, root)];
       var i := c.val + Low(Drop(x, root), c.op);
       i < |t| && t[i] == e
  }

  lemma LinkedEntry(ty: CodeType, lens: Lengths, t: seq<Code>, root: nat, s: nat, x: nat)
    requires Coded(lens, s) && |lens| <= Symbols(ty) && root < lens[s] && Placed(ty, lens, t, root, |t|, s)
    requires Low(x, lens[s]) == HuffOf(lens, s)
    ensures Low(x, root) == RootOf(lens, s, root) && Reads(t, root, x, SymbolCode(ty, s, lens[s] - root))
  {
    var h, b, e := HuffOf(lens, s), lens[s] - root, SymbolCode(ty, s, lens[s] - root);
    RootIndex(x, h, lens[s], root);
    var c := t[RootOf(lens, s, root)];
    SubIndex(x, h, lens[s], root, c.op);
    LowBound(Drop(x, root), c.op);
    FilledAt(t, c.val, c.op, Drop(h, root), b, e, Low(Drop(x, root), c.op));
  }

  lemma ReadsEntry(t: seq<Code>, root: nat, lens: bool, stream: nat, pos: nat, e: Code)
    requires ValidTable(t, root, lens) && Reads(t, root, Drop(stream, pos), e)
    ensures Entry(stream, pos, t, root, lens) == (e, pos + root + e.bits)
  {
    var c := t[Low(Drop(stream, pos), root)];
    LinkIs(c, lens);
    DropOfDrop(stream, pos, root);
    assert At(stream, pos, root) == Low(Drop(stream, pos), root);
    assert At(stream, pos + c.bits, SubBits(c)) == Low(Drop(Drop(stream, pos), root), c.op);
    EntryIs(stream, pos, t, root, lens);
  }

  /** One lookup in the root table and at most one in a sub-table find the symbol whose code the
      stream starts with, and exactly the bits of the code are used. */
  lemma Decodes(ty: CodeType, lens: Lengths, t: seq<Code>, root: nat, s: nat, stream: nat, pos: nat)
    requires Codable(ty, lens) && Coded(lens, s) && Placed(ty, lens, t, root, |t|, s)
    requires ValidTable(t, root, Literals(ty)) && Begins(stream, pos, lens, s)
    ensures var e := Entry(stream, pos, t, root, Literals(ty));
            e.0 == SymbolCode(ty, s, e.0.bits) && e.1 == pos + lens[s]
  {
    var x := Drop(stream, pos);
    BeginsLow(stream, pos, lens, s);
    if lens[s] <= root {
      DirectEntry(ty, lens, t, root, s, x);
      SymbolGood(ty, s, lens[s]);
      EntryIs(stream, pos, t, root, Literals(ty));
    } else {
      LinkedEntry(ty, lens, t, root, s, x);
      SymbolGood(ty, s, lens[s] - root);
      ReadsEntry(t, root, Literals(ty), stream, pos, SymbolCode(ty, s, lens[s] - root));
    }
  }

  // ---------- Complete sets ----------

  /** Every bit string starts with a code. */
  lemma SomeSymbol(lens: Lengths, max: nat, x: nat) returns (s: nat)
    requires Complete(lens, max) && NotOversubscribed(lens)
    ensures Coded(lens, s) && Low(x, lens[s]) == HuffOf(lens, s)
  {
    MsbBound(x, max);
    s := SomeCode(lens, x, max);
    assert Drop(x, 0) == x;
    BeginsLow(x, 0, lens, s);
  }

  /** The symbol whose code a root index and a sub-table index make up has that root index. */
  lemma SubSymbol(ty: CodeType, lens: Lengths, max: nat, root: nat, s: nat, k: nat) returns (q: nat, x: nat)
    requires Codable(ty, lens) && Complete(lens, max) && Coded(lens, s) && root < lens[s]
    ensures Coded(lens, q) && root < lens[q] && Low(x, lens[q]) == HuffOf(lens, q)
    ensures Low(x, root) == RootOf(lens, s, root) && Drop(x, root) == k
  {
    var r := RootOf(lens, s, root);
    LowOfLow(HuffOf(lens, s), root, root);
    DropOfAppend(r, k, root);
    x := r + Shl(k, root);
    q := SomeSymbol(lens, max, x);
    if lens[q] <= root {
      RootIndex(x, HuffOf(lens, q), lens[q], root);
      RootClash(ty, lens, root, s, q);
    }
  }

  ghost predicate SubGood(t: seq<Code>, c: Code, lens: bool, k: nat)
  {
    c.val + k < |t| && GoodEntry(t[c.val + k], lens) && c.bits + t[c.val + k].bits <= 15
  }

  lemma SubEntryGood(ty: CodeType, lens: Lengths, max: nat, t: seq<Code>, root: nat, s: nat, k: nat)
    requires Codable(ty, lens) && Complete(lens, max) && EveryPlaced(ty, lens, t, root)
    requires Coded(lens, s) && root < lens[s] && Linked(t, root, RootOf(lens, s, root), |t|)
    requires k < Pow2(t[RootOf(lens, s, root)].op)
    ensures SubGood(t, t[RootOf(lens, s, root)], Literals(ty), k)
  {
    var q, x := SubSymbol(ty, lens, max, root, s, k);
    assert Placed(ty, lens, t, root, |t|, q);
    SubGoodFor(ty, lens, t, root, q, x, RootOf(lens, s, root), k);
  }

  lemma SubGoodFor(ty: CodeType, lens: Lengths, t: seq<Code>, root: nat, q: nat, x: nat, r: nat, k: nat)
    requires Coded(lens, q) && |lens| <= Symbols(ty) && root < lens[q] && Placed(ty, lens, t, root, |t|, q)
    requires Low(x, lens[q]) == HuffOf(lens, q) && Low(x, root) == r && Drop(x, root) == k
    requires r < |t| && k < Pow2(t[r].op)
    ensures SubGood(t, t[r], Literals(ty), k)
  {
    LinkedEntry(ty, lens, t, root, q, x);
    SymbolGood(ty, q, lens[q] - root);
    SubGoodAt(t, root, x, r, k, SymbolCode(ty, q, lens[q] - root), Literals(ty));
  }

  lemma SubGoodAt(t: seq<Code>, root: nat, x: nat, r: nat, k: nat, e: Code, lens: bool)
    requires Reads(t, root, x, e) && Low(x, root) == r && Drop(x, root) == k && k < Pow2(t[r].op)
    requires GoodEntry(e, lens) && root + e.bits <= 15
    ensures SubGood(t, t[r], lens, k)
  {
    LowSmall(k, t[r].op);
  }

  lemma LinkValid(t: seq<Code>, c: Code, lens: bool)
    requires 1 <= c.op && c.bits + c.op <= 15 && c.val + Pow2(c.op) <= |t|
    requires forall k: nat :: k < Pow2(c.op) ==> SubGood(t, c, lens, k)
    ensures ValidEntry(t, c, lens)
  {
    LinkIs(c, lens);
    forall j | c.val <= j < c.val + Pow2(c.op) ensures GoodEntry(t[j], lens) && c.bits + t[j].bits <= 15 {
      assert SubGood(t, c, lens, j - c.val);
    }
  }

  lemma LinkGood(ty: CodeType, lens: Lengths, max: nat, t: seq<Code>, root: nat, s: nat)
    requires Codable(ty, lens) && Complete(lens, max) && EveryPlaced(ty, lens, t, root)
    requires Coded(lens, s) && root < lens[s] && Linked(t, root, RootOf(lens, s, root), |t|)
    ensures ValidEntry(t, t[RootOf(lens, s, root)], Literals(ty))
  {
    var c := t[RootOf(lens, s, root)];
    forall k: nat | k < Pow2(c.op) ensures SubGood(t, c, Literals(ty),
        k) { SubEntryGood(ty, lens, max, t, root, s, k); }
    LinkValid(t, c, Literals(ty));
  }

  lemma RootEntryGood(ty: CodeType, lens: Lengths, max: nat, t: seq<Code>, root: nat, r: nat)
    requires Codable(ty, lens) && Complete(lens, max) && EveryPlaced(ty, lens, t, root)
    requires r < Pow2(root) <= |t|
    ensures ValidEntry(t, t[r], Literals(ty))
  {
    LowSmall(r, root);
    var s := SomeSymbol(lens, max, r);
    if lens[s] <= root {
      DirectEntry(ty, lens, t, root, s, r);
      SymbolGood(ty, s, lens[s]);
    } else {
      LinkedEntry(ty, lens, t, root, s, r);
      LinkGood(ty, lens, max, t, root, s);
    }
  }

  /** The tables of a complete set are ones that the decoder can use for every input. */
  lemma CompleteIsValid(ty: CodeType, lens: Lengths, max: nat, t: seq<Code>, root: nat)
    requires Codable(ty, lens) && Complete(lens, max) && EveryPlaced(ty, lens, t, root)
    requires root <= 15 && Pow2(root) <= |t|
    ensures ValidTable(t, root, Literals(ty))
  {
    forall r | 0 <= r < Pow2(root) ensures ValidEntry(t, t[r],
        Literals(ty)) { RootEntryGood(ty, lens, max, t, root, r); }
  }

  /** At every position of every stream the tables of a complete set find a symbol, and it is the only
      one whose code starts there. */
  lemma DecodesEverything(ty: CodeType, lens: Lengths, max: nat, t: seq<Code>, root: nat, stream: nat,
      pos: nat) returns (s: nat)
    requires Codable(ty, lens) && Complete(lens, max) && EveryPlaced(ty, lens, t, root)
    requires root <= 15 && Pow2(root) <= |t|
    ensures Coded(lens, s) && forall q: nat :: Coded(lens, q) ==> (Begins(stream, pos, lens, q) <==> q == s)
    ensures ValidTable(t, root, Literals(ty))
    ensures var e := Entry(stream, pos, t, root, Literals(ty));
            e.0 == SymbolCode(ty, s, e.0.bits) && e.1 == pos + lens[s]
  {
    s := SomeSymbol(lens, max, Drop(stream, pos));
    BeginsLow(stream, pos, lens, s);
    CompleteIsValid(ty, lens, max, t, root);
    Decodes(ty, lens, t, root, s, stream, pos);
    forall q: nat | Coded(lens, q) ensures Begins(stream, pos, lens, q) <==> q == s {
      if q != s { PrefixFree(lens, s, q, Drop(stream, pos)); }
    }
  }
}
