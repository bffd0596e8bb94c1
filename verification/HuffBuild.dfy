/** The main loop of src/zlib/inftrees.c, symbol by symbol. */
module HuffBuild {
  import opened BitStream
  import opened Canonical
  import opened DecodeTables
  import opened HuffTable

  /** All symbols of the first i places can be looked up. */
  ghost predicate AllPlaced(ty: CodeType, lens: Lengths, t: seq<Code>, root: nat, limit: nat, i: nat)
    requires |lens| <= Symbols(ty)
  {
    forall s: nat {:trigger Placed(ty, lens, t, root, limit, s)} ::
      Coded(lens, s) && Place(lens, s) < i ==> Placed(ty, lens, t, root, limit, s)
  }

  ghost predicate AllApart(lens: Lengths, t: seq<Code>, root: nat, next: nat, s: nat, i: nat)
    requires Coded(lens, s)
  {
    forall q: nat {:trigger Apart(lens, t, root, next, s, q)} ::
      Coded(lens, q) && Place(lens, q) < i ==> Apart(lens, t, root, next, s, q)
  }

  /** The sub-table of the symbol's root index has room for the longest code of that index. */
  ghost predicate Sized(lens: Lengths, root: nat, curr: nat, s: nat)
    requires Coded(lens, s)
  {
    forall q: nat :: Coded(lens, q) && root < lens[q] && RootOf(lens, q, root) == RootOf(lens, s, root)
                     ==> lens[q] <= root + curr
  }

  /** The first i symbols are placed and the current table is the one for symbol s, the next one. */
  ghost predicate Ready(ty: CodeType, lens: Lengths, t: seq<Code>, root: nat, next: nat, curr: nat, used: nat, s: nat,
      i: nat)
    requires Coded(lens, s) && |lens| <= Symbols(ty)
  {
    && AllPlaced(ty, lens, t, root, used, i) && AllApart(lens, t, root, next, s, i)
    && Current(lens, t, root, next, curr, used, s) && (root < lens[s] ==> Sized(lens, root, curr, s))
  }

  lemma FillKeeps(ty: CodeType, lens: Lengths, t: seq<Code>, t': seq<Code>, root: nat, next: nat, curr: nat,
      used: nat, s: nat, q: nat)
    requires Codable(ty, lens) && Coded(lens, s) && Coded(lens, q) && s != q
    requires Current(lens, t, root, next, curr, used, s) && FillsSymbol(ty, lens, t, t', root, next, curr, s)
    requires Placed(ty, lens, t, root, used, q) && Apart(lens, t, root, next, s, q)
    ensures Placed(ty, lens, t', root, used, q) && Apart(lens, t', root, next, s, q)
  {
    if lens[s] <= root {
      FillKeepsShort(ty, lens, t, t', root, next, curr, used, s, q);
    } else {
      var h, b, c := Drop(HuffOf(lens, s), root), lens[s] - root, SymbolCode(ty, s, lens[s] - root);
      FillKeepsInSub(ty, lens, t, t', root, next, curr, used, s, q, h, b, c);
    }
  }

  lemma FillKeepsInSub(ty: CodeType, lens: Lengths, t: seq<Code>, t': seq<Code>, root: nat, next: nat, curr: nat,
      used: nat, s: nat, q: nat, h: nat, b: nat, c: Code)
    requires Codable(ty, lens) && Coded(lens, s) && Coded(lens, q) && s != q && root < lens[s]
    requires CurrentSub(t, root, next, curr, used, RootOf(lens, s, root)) && Overwritten(t, t', next, curr, h, b, c)
    requires h == Drop(HuffOf(lens, s), root) && b == lens[s] - root
    requires Placed(ty, lens, t, root, used, q) && Apart(lens, t, root, next, s, q)
    ensures Placed(ty, lens, t', root, used, q) && Apart(lens, t', root, next, s, q)
  {
    if lens[q] <= root {
      FillKeepsRoot(ty, lens, t, t', root, next, curr, used, q, h, b, c);
    } else if RootOf(lens, q, root) == RootOf(lens, s, root) {
      DistinctRests(ty, lens, root, s, q);
      FillKeepsSame(ty, lens, t, t', root, next, curr, used, q, h, b, c);
    } else {
      FillKeepsEarlier(ty, lens, t, t', root, next, curr, used, q, h, b, c);
    }
  }

  /** After the fill loop the symbol is placed too. */
  lemma Fill(ty: CodeType, lens: Lengths, t: seq<Code>, t': seq<Code>, root: nat, next: nat, curr: nat, used: nat,
      s: nat, i: nat)
    requires Codable(ty, lens) && Coded(lens, s) && Place(lens, s) == i
    requires Ready(ty, lens, t, root, next, curr, used, s, i) && FillsSymbol(ty, lens, t, t', root, next, curr, s)
    ensures Ready(ty, lens, t', root, next, curr, used, s, i + 1)
  {
    if lens[s] <= root {
      FillPlacesShort(ty, lens, t, t', root, next, curr, used, s);
    } else {
      FillPlacesLong(ty, lens, t, t', root, next, curr, used, s);
    }
    forall q: nat | Coded(lens, q) && Place(lens, q) < i + 1
      ensures Placed(ty, lens, t', root, used, q) && Apart(lens, t', root, next, s, q)
    {
      if q != s {
        SamePlace(lens, s, q);
        FillKeeps(ty, lens, t, t', root, next, curr, used, s, q);
      }
    }
  }

  lemma SamePlace(lens: Lengths, s: nat, q: nat)
    requires Coded(lens, s) && Coded(lens, q) && s != q
    ensures Place(lens, s) != Place(lens, q)
  {
    PlaceBound(lens, s);
    PlaceBound(lens, q);
    if lens[s] < lens[q] { OffsMonotone(lens, lens[s] + 1, lens[q]); }
    if lens[q] < lens[s] { OffsMonotone(lens, lens[q] + 1, lens[s]); }
    if lens[q] == lens[s] { if s < q { SameLength(lens, s, q); } else { SameLength(lens, q, s); } }
  }

  // ---------- Root indices ----------

  /** The bits of a code that index the root table, as a number in code order. */
  function Prefix(lens: Lengths, s: nat, root: nat): nat
    requires s < |lens| && root < lens[s]
  {
    Drop(CodeOf(lens, s), lens[s] - root)
  }

  lemma RootIsPrefix(lens: Lengths, s: nat, root: nat)
    requires Coded(lens, s) && root < lens[s] && NotOversubscribed(lens)
    ensures RootOf(lens, s, root) == Huff(Prefix(lens, s, root), root) && Prefix(lens, s, root) < Pow2(root)
  {
    CodeBound(lens, s);
    HuffLow(CodeOf(lens, s), lens[s], root);
    DropBound(CodeOf(lens, s), lens[s], lens[s] - root);
  }

  lemma PrefixMonotone(lens: Lengths, q: nat, s: nat, root: nat)
    requires Coded(lens, q) && Coded(lens, s) && root < lens[q] && root < lens[s] && Place(lens, q) <= Place(lens, s)
    ensures Prefix(lens, q, root) <= Prefix(lens, s, root)
  {
    if q != s {
      SamePlace(lens, q, s);
      EarlierPlace(lens, q, s);
      if lens[q] == lens[s] {
        SameLength(lens, q, s);
        DropMonotone(CodeOf(lens, q), CodeOf(lens, s), lens[q] - root);
      } else {
        PrefixLonger(lens, q, s, root);
      }
    }
  }

  lemma PrefixLonger(lens: Lengths, q: nat, s: nat, root: nat)
    requires Coded(lens, q) && Coded(lens, s) && root < lens[q] < lens[s]
    ensures Prefix(lens, q, root) <= Prefix(lens, s, root)
  {
    var d := lens[s] - lens[q];
    LongerCode(lens, q, s);
    DropOfDrop(CodeOf(lens, s), d, lens[q] - root);
    DropMonotone(CodeOf(lens, q), Drop(CodeOf(lens, s), d), lens[q] - root);
  }

  lemma NextPrefix(lens: Lengths, s: nat, t: nat, root: nat)
    requires Coded(lens, s) && Coded(lens, t) && Place(lens, t) == Place(lens, s) + 1 && root < lens[s]
    ensures root < lens[t] && Prefix(lens, t, root) == Drop(CodeOf(lens, s) + 1, lens[s] - root)
  {
    NextCode(lens, s, t);
    var d := lens[t] - lens[s];
    DropOfDrop(CodeOf(lens, t), d, lens[s] - root);
    DropShl(CodeOf(lens, s) + 1, d);
  }

  /** A new root index is one that no earlier symbol has. */
  lemma NewRoot(lens: Lengths, q: nat, s: nat, t: nat, root: nat)
    requires NotOversubscribed(lens) && Coded(lens, q) && Coded(lens, s) && Coded(lens, t)
    requires Place(lens, q) <= Place(lens, s) && Place(lens, t) == Place(lens, s) + 1
    requires root < lens[q] && root < lens[s] && root < lens[t] && RootOf(lens, s, root) != RootOf(lens, t, root)
    ensures RootOf(lens, q, root) != RootOf(lens, t, root)
  {
    RootIsPrefix(lens, q, root);
    RootIsPrefix(lens, s, root);
    RootIsPrefix(lens, t, root);
    PrefixMonotone(lens, q, s, root);
    PrefixMonotone(lens, s, t, root);
    if RootOf(lens, q, root) == RootOf(lens, t, root) {
      HuffInjective(Prefix(lens, q, root), Prefix(lens, t, root), root);
    }
  }

  /** The first code of a root index has only zeros behind it. */
  lemma Aligned(lens: Lengths, s: nat, t: nat, root: nat)
    requires NotOversubscribed(lens) && Coded(lens, s) && Coded(lens, t) && Place(lens, t) == Place(lens, s) + 1
    requires root < lens[t] && (root < lens[s] ==> RootOf(lens, s, root) != RootOf(lens, t, root))
    ensures CodeOf(lens, t) == Shl(Prefix(lens, t, root), lens[t] - root)
  {
    NextCode(lens, s, t);
    if root < lens[s] {
      AlignedLong(lens, s, t, root);
    } else {
      AlignedShort(CodeOf(lens, s) + 1, root - lens[s], lens[t] - root);
    }
  }

  lemma AlignedShort(c: nat, a: nat, b: nat)
    ensures Shl(c, a + b) == Shl(Drop(Shl(c, a + b), b), b)
  {
    ShlShl(c, a, b);
    DropShl(Shl(c, a), b);
  }

  lemma AlignedLong(lens: Lengths, s: nat, t: nat, root: nat)
    requires NotOversubscribed(lens) && Coded(lens, s) && Coded(lens, t) && Place(lens, t) == Place(lens, s) + 1
    requires root < lens[s] && root < lens[t] && RootOf(lens, s, root) != RootOf(lens, t, root)
    requires lens[s] <= lens[t] && CodeOf(lens, t) == Shl(CodeOf(lens, s) + 1, lens[t] - lens[s])
    ensures CodeOf(lens, t) == Shl(Prefix(lens, t, root), lens[t] - root)
  {
    RootIsPrefix(lens, s, root);
    RootIsPrefix(lens, t, root);
    NextPrefix(lens, s, t, root);
    AlignedCarry(CodeOf(lens, s), lens[s] - root, lens[t] - lens[s], Prefix(lens, t, root));
  }

  lemma AlignedCarry(c: nat, k: nat, d: nat, p: nat)
    requires p == Drop(c + 1, k) != Drop(c, k)
    ensures Shl(c + 1, d) == Shl(p, k + d)
  {
    Carry(c, k);
    ShlShl(p, k, d);
  }

  // ---------- The size of a sub-table ----------

  /** How many codes of l bits come before the ones that symbol s and the later symbols may use. */
  function Before(lens: Lengths, s: nat, l: nat): nat
    requires Coded(lens, s) && lens[s] <= l
  {
    if l == lens[s] then CodeOf(lens, s) else 2 * Used(lens, l - 1)
  }

  /** The entries left in count when the first i symbols are done. */
  function Remaining(lens: Lengths, i: nat, l: nat): nat
  {
    if i <= Offs(lens, l) then Count(lens, l) else if i < Offs(lens, l + 1) then Offs(lens, l + 1) - i else 0
  }

  lemma BeforeAndRemaining(lens: Lengths, s: nat, l: nat)
    requires Coded(lens, s) && lens[s] <= l
    ensures Before(lens, s, l) + Remaining(lens, Place(lens, s), l) == Used(lens, l)
  {
    if lens[s] == l {
      RemainingHere(lens, s);
    } else {
      PlaceBound(lens, s);
      OffsMonotone(lens, lens[s] + 1, l);
    }
  }

  lemma RemainingHere(lens: Lengths, s: nat)
    requires Coded(lens, s)
    ensures Remaining(lens, Place(lens, s), lens[s]) == Count(lens, lens[s]) - Count(lens[..s], lens[s])
  {
    PlaceBound(lens, s);
  }

  /** Once the codes of at most l bits use up the root index, no longer code has it. */
  lemma EnoughBits(lens: Lengths, s: nat, root: nat, curr: nat)
    requires NotOversubscribed(lens) && Coded(lens, s) && root < lens[s]
    requires Used(lens, root + curr) >= Shl(Prefix(lens, s, root) + 1, curr)
    ensures Sized(lens, root, curr, s)
  {
    forall q: nat | Coded(lens, q) && root < lens[q] && RootOf(lens, q, root) == RootOf(lens, s, root)
      ensures lens[q] <= root + curr
    {
      if lens[q] > root + curr {
        BeyondRoot(lens, q, root, curr, Prefix(lens, s, root) + 1);
        RootIsPrefix(lens, q, root);
        RootIsPrefix(lens, s, root);
        HuffInjective(Prefix(lens, q, root), Prefix(lens, s, root), root);
      }
    }
  }

  lemma BeyondRoot(lens: Lengths, q: nat, root: nat, curr: nat, p: nat)
    requires Coded(lens, q) && root + curr < lens[q] && Used(lens, root + curr) >= Shl(p, curr)
    ensures Prefix(lens, q, root) >= p
  {
    var d := lens[q] - (root + curr);
    AfterShorter(lens, q, root + curr);
    DropOfDrop(CodeOf(lens, q), d, curr);
    DropMonotone(Shl(p, curr), Drop(CodeOf(lens, q), d), curr);
    DropShl(p, curr);
  }

  // ---------- The next symbol ----------

  /** The next symbol goes into the same table. */
  lemma SameTable(ty: CodeType, lens: Lengths, t: seq<Code>, root: nat, next: nat, curr: nat, used: nat, s: nat,
      s': nat)
    requires Codable(ty, lens) && Coded(lens, s) && Coded(lens, s') && Place(lens, s') == Place(lens, s) + 1
    requires Ready(ty, lens, t, root, next, curr, used, s, Place(lens, s) + 1)
    requires lens[s'] <= root || (root < lens[s] && RootOf(lens, s', root) == RootOf(lens, s, root))
    ensures Ready(ty, lens, t, root, next, curr, used, s', Place(lens, s'))
  {
    EarlierPlace(lens, s, s');
    forall q: nat | Coded(lens, q) && Place(lens, q) < Place(lens, s') ensures Apart(lens, t, root, next, s', q) {
      assert Apart(lens, t, root, next, s, q);
    }
  }

  /** The next symbol starts a new sub-table behind all others. */
  lemma NewTable(ty: CodeType, lens: Lengths, t: seq<Code>, t': seq<Code>, root: nat, next: nat, curr: nat, used: nat,
                 s: nat, s': nat, bits: nat, total: nat)
    requires Codable(ty, lens) && Coded(lens, s) && Coded(lens, s') && Place(lens, s') == Place(lens, s) + 1
    requires Ready(ty, lens, t, root, next, curr, used, s, Place(lens, s) + 1) && Pow2(root) <= used
    requires root < lens[s'] && (root < lens[s] ==> RootOf(lens, s, root) != RootOf(lens, s', root))
    requires Sized(lens, root, bits, s') && root + bits <= 15 && total == used + Pow2(bits) <= |t|
    requires RootOf(lens, s', root) < Pow2(root) && t' == t[RootOf(lens, s', root) := Code(bits, root, used)]
    ensures Ready(ty, lens, t', root, used, bits, total, s', Place(lens, s'))
  {
    assert lens[s'] <= root + bits;
    forall q: nat | Coded(lens, q) && Place(lens, q) < Place(lens, s')
      ensures Placed(ty, lens, t', root, total, q) && Apart(lens, t', root, used, s', q)
    {
      LinkKeeps(ty, lens, t, root, next, used, s, s', bits, q);
    }
  }

  lemma LinkKeeps(ty: CodeType, lens: Lengths, t: seq<Code>, root: nat, next: nat, used: nat, s: nat, s': nat,
      bits: nat, q: nat)
    requires Codable(ty, lens) && Coded(lens, s) && Coded(lens, s') && Coded(lens, q)
    requires Place(lens, s') == Place(lens, s) + 1 && Place(lens, q) <= Place(lens, s)
    requires Placed(ty, lens, t, root, used, q) && Apart(lens, t, root, next, s, q)
    requires root < lens[s'] && (root < lens[s] ==> RootOf(lens, s, root) != RootOf(lens, s', root))
    requires used + Pow2(bits) <= |t| && RootOf(lens, s', root) < Pow2(root) <= |t| && bits < 256
    ensures var t' := t[RootOf(lens, s', root) := Code(bits, root, used)];
            Placed(ty, lens, t', root, used + Pow2(bits), q) && Apart(lens, t', root, used, s', q)
  {
    EarlierPlace(lens, s, s');
    if lens[q] <= root {
      LinkKeepsShort(ty, lens, t, root, used, used + Pow2(bits), s', q, Code(bits, root, used));
    } else {
      NewRoot(lens, q, s, s', root);
      LinkKeepsLong(ty, lens, t, root, used, used + Pow2(bits), s', q, Code(bits, root, used));
    }
  }

  // ---------- The counters ----------

  lemma RemainingNext(lens: Lengths, s: nat, l: nat)
    requires Coded(lens, s) && 1 <= l
    ensures Remaining(lens, Place(lens, s) + 1, l) == Remaining(lens, Place(lens, s), l) - if l == lens[s] then 1 else 0
  {
    PlaceBound(lens, s);
    if l < lens[s] { OffsMonotone(lens, l + 1, lens[s]); }
    if l > lens[s] { OffsMonotone(lens, lens[s] + 1, l); }
  }

  /** As long as a length has symbols left, the next symbol has it. */
  lemma NextHasLength(lens: Lengths, w: seq<nat>, i: nat)
    requires Sorted(lens, w) && i < |w| && Remaining(lens, i + 1, lens[w[i]]) > 0
    ensures i + 1 < |w| && lens[w[i + 1]] == lens[w[i]]
  {
    var s := w[i];
    PlaceBound(lens, s);
    var t := KthSymbol(lens, lens[s], i + 1 - Offs(lens, lens[s]));
    assert InPlace(lens, w, t) && Place(lens, t) == i + 1;
  }

  /** When the longest length has none left, all symbols are done; otherwise there is a next symbol. */
  lemma LastSymbol(lens: Lengths, w: seq<nat>, i: nat, l: nat, max: nat)
    requires Sorted(lens, w) && i < |w| && Offs(lens, l + 1) == i + 1 && 1 <= l <= max <= 15
    requires Count(lens, max) > 0 && forall s: nat :: Coded(lens, s) ==> lens[s] <= max
    ensures l == max <==> i + 1 == |w|
  {
    if l == max {
      NoneAfter(lens, w, i + 1, max);
    } else {
      LongerFollows(lens, w, i + 1, l + 1, max);
    }
  }

  lemma NoneAfter(lens: Lengths, w: seq<nat>, i: nat, max: nat)
    requires Sorted(lens, w) && i >= Offs(lens, max + 1) && forall s: nat :: Coded(lens, s) ==> lens[s] <= max
    ensures i >= |w|
  {
    if i < |w| {
      var t := w[i];
      PlaceBound(lens, t);
      OffsMonotone(lens, lens[t] + 1, max + 1);
    }
  }

  lemma LastOfItsLength(lens: Lengths, s: nat)
    requires Coded(lens, s) && Remaining(lens, Place(lens, s) + 1, lens[s]) == 0
    ensures Offs(lens, lens[s] + 1) == Place(lens, s) + 1
  {
    PlaceBound(lens, s);
  }

  lemma LongerFollows(lens: Lengths, w: seq<nat>, i: nat, l: nat, max: nat)
    requires Sorted(lens, w) && Offs(lens, l) == i && 1 <= l <= max <= 15 && Count(lens, max) > 0
    ensures i < |w|
  {
    var t := KthSymbol(lens, max, 0);
    PlaceBound(lens, t);
    OffsMonotone(lens, l, max);
    assert InPlace(lens, w, t);
  }

  /** The backwards increment gives the bits of the next symbol's code. */
  lemma NextHuff(lens: Lengths, s: nat, t: nat, huff: nat)
    requires NotOversubscribed(lens) && Coded(lens, s) && Coded(lens, t) && Place(lens, t) == Place(lens, s) + 1
    requires huff == HuffOf(lens, s)
    ensures BackInc(huff, lens[s]) == HuffOf(lens, t)
  {
    NextCode(lens, s, t);
    HuffIncrement(lens, s);
    HuffShl(CodeOf(lens, s) + 1, lens[s], lens[t] - lens[s]);
  }

  lemma HuffIncrement(lens: Lengths, s: nat)
    requires NotOversubscribed(lens) && Coded(lens, s)
    ensures BackInc(HuffOf(lens, s), lens[s]) == Huff(CodeOf(lens, s) + 1, lens[s])
  {
    CodeBound(lens, s);
    HuffStarts(CodeOf(lens, s), lens[s]);
    BackIncIsNext(HuffOf(lens, s), CodeOf(lens, s), lens[s]);
  }

  /** The first symbol has the shortest length and the code 0. */
  lemma FirstSymbol(lens: Lengths, w: seq<nat>, min: nat)
    requires Sorted(lens, w) && 1 <= min <= 15 && Count(lens, min) > 0
    requires forall l :: 1 <= l < min ==> Count(lens, l) == 0
    ensures |w| > 0 && lens[w[0]] == min && HuffOf(lens, w[0]) == 0
  {
    var s := KthSymbol(lens, min, 0);
    NoneBefore(lens, min);
    assert InPlace(lens, w, s) && Place(lens, s) == 0;
    FirstCode(lens, s);
    HuffZero(min);
  }

  lemma {:induction false} NoneBefore(lens: Lengths, min: nat)
    requires forall l :: 1 <= l < min ==> Count(lens, l) == 0
    ensures Offs(lens, min) == 0
    decreases min
  {
    if min > 1 { NoneBefore(lens, min - 1); }
  }

  lemma {:induction false} HuffZero(n: nat)
    ensures Huff(0, n) == 0
  {
    if n > 0 { HuffZero(n - 1); }
  }

  /** Nothing is placed yet and the root table is the current one. */
  lemma Start(ty: CodeType, lens: Lengths, t: seq<Code>, root: nat, s: nat)
    requires Coded(lens, s) && |lens| <= Symbols(ty) && lens[s] <= root <= 15 && Pow2(root) <= |t|
    ensures Ready(ty, lens, t, root, 0, root, Pow2(root), s, 0)
  {
  }

  /** What follows the current table is not needed. */
  lemma Shorten(ty: CodeType, lens: Lengths, t: seq<Code>, root: nat, used: nat, s: nat)
    requires Coded(lens, s) && |lens| <= Symbols(ty) && Placed(ty, lens, t, root, used, s) && Pow2(root) <= used <= |t|
    ensures Placed(ty, lens, t[..used], root, used, s)
  {
    if lens[s] <= root {
      FilledPart(t, used, 0, root, HuffOf(lens, s), lens[s], SymbolCode(ty, s, lens[s]));
    } else {
      ShortenLong(ty, lens, t, root, used, s);
    }
  }

  lemma ShortenLong(ty: CodeType, lens: Lengths, t: seq<Code>, root: nat, used: nat, s: nat)
    requires Coded(lens, s) && |lens| <= Symbols(ty) && Placed(ty, lens, t, root, used, s) && Pow2(root) <= used <= |t|
    requires root < lens[s]
    ensures Placed(ty, lens, t[..used], root, used, s)
  {
    var r := RootOf(lens, s, root);
    var b, e := lens[s] - root, SymbolCode(ty, s, lens[s] - root);
    FilledPart(t, used, t[r].val, t[r].op, Drop(HuffOf(lens, s), root), b, e);
    assert t[..used][r] == t[r];
  }

  lemma FilledPart(t: seq<Code>, used: nat, base: nat, bits: nat, h: nat, b: nat, c: Code)
    requires Filled(t, base, bits, h, b, c) && base + Pow2(bits) <= used <= |t|
    ensures Filled(t[..used], base, bits, h, b, c)
  {
  }
}
