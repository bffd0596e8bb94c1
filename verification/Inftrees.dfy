/** inflate_table, src/zlib/inftrees.c: the tables that decode a canonical Huffman code. */
module Inftrees {
  import opened BitStream
  import opened Canonical
  import opened DecodeTables
  import opened HuffTable
  import opened HuffBuild
  import opened HuffDecode

  const MAXBITS: nat := 15

  function Enough(ty: CodeType): nat
  {
    if ty == LENS then 852 else 592
  }

  /** What count[] holds when the first i symbols are entered. */
  ghost predicate Counts(count: array<nat>, lens: Lengths, i: nat)
    reads count
  {
    count.Length == 16 && forall l :: 1 <= l <= 15 ==> count[l] == Remaining(lens, i, l)
  }

  ghost predicate AtMost(lens: Lengths, max: nat)
  {
    forall s :: 0 <= s < |lens| ==> lens[s] <= max
  }

  /** Accumulate lengths for codes. */
  method CountLengths(lens: Lengths) returns (count: array<nat>)
    requires Bounded(lens)
    ensures fresh(count) && count.Length == 16 && forall l :: 0 <= l <= 15 ==> count[l] == Count(lens, l)
  {
    count := new nat[16](_ => 0);
    for sym := 0 to |lens|
      invariant forall l :: 0 <= l <= 15 ==> count[l] == Count(lens[..sym], l)
    {
      forall l | 0 <= l <= 15
        ensures Count(lens[..sym + 1], l) == Count(lens[..sym], l) + if lens[sym] == l then 1 else 0
      {
        CountSplit(lens, sym, l);
      }
      count[lens[sym]] := count[lens[sym]] + 1;
    }
    assert lens[..|lens|] == lens;
  }

  lemma {:induction false} NoneCounted(lens: Lengths, l: nat)
    ensures Count(lens, l) == 0 <==> forall s :: 0 <= s < |lens| ==> lens[s] != l
    decreases |lens|
  {
    if lens != [] {
      var t := lens[..|lens| - 1];
      NoneCounted(t, l);
      assert lens == t + [lens[|lens| - 1]];
    }
  }

  /** The longest length that occurs, or 0. */
  method LongestLength(lens: Lengths, count: array<nat>) returns (max: nat)
    requires Bounded(lens) && count.Length == 16 && forall l :: 0 <= l <= 15 ==> count[l] == Count(lens, l)
    ensures max <= 15 && AtMost(lens, max) && (max > 0 ==> Count(lens, max) > 0)
  {
    max := MAXBITS;
    while max >= 1
      invariant max <= 15 && AtMost(lens, max)
    {
      if count[max] != 0 { break; }
      NoneCounted(lens, max);
      max := max - 1;
    }
  }

  method ShortestLength(lens: Lengths, count: array<nat>, max: nat) returns (min: nat)
    requires count.Length == 16 && (forall l :: 0 <= l <= 15 ==> count[l] == Count(lens, l)) && 1 <= max <= 15
    requires Count(lens, max) > 0
    ensures 1 <= min <= max && Count(lens, min) > 0 && forall l :: 1 <= l < min ==> Count(lens, l) == 0
  {
    min := 1;
    while min < max
      invariant 1 <= min <= max && forall l :: 1 <= l < min ==> Count(lens, l) == 0
    {
      if count[min] != 0 { break; }
      min := min + 1;
    }
  }

  /** The codes do not use up all bit strings. */
  ghost predicate Incomplete(lens: Lengths)
  {
    forall n: nat :: n <= 15 && AtMost(lens, n) ==> Used(lens, n) < Pow2(n)
  }

  lemma {:induction false} UsedAbove(lens: Lengths, n: nat, l: nat)
    requires n <= l && AtMost(lens, n)
    ensures Used(lens, l) == Shl(Used(lens, n), l - n) && Pow2(l) == Shl(Pow2(n), l - n)
    decreases l
  {
    if l > n {
      UsedAbove(lens, n, l - 1);
      NoneCounted(lens, l);
    }
  }

  /** Beyond the longest length nothing changes. */
  lemma UsedBelow(lens: Lengths, n: nat, l: nat)
    requires n <= l && AtMost(lens, n) && Used(lens, l) < Pow2(l)
    ensures Used(lens, n) < Pow2(n)
  {
    UsedAbove(lens, n, l);
    LessBefore(Used(lens, n), Pow2(n), l - n);
  }

  lemma LessBefore(a: nat, b: nat, k: nat)
    ensures Shl(a, k) < Shl(b, k) ==> a < b
  {
    if b <= a { ShlMonotone(b, a, k); }
  }

  lemma IncompleteAt(lens: Lengths, n: nat)
    requires n <= 15 && AtMost(lens, n)
    ensures Incomplete(lens) <==> Used(lens, n) < Pow2(n)
  {
    if Used(lens, n) < Pow2(n) {
      forall m: nat | m <= 15 && AtMost(lens, m) ensures Used(lens, m) < Pow2(m) {
        if m <= n { UsedBelow(lens, m, n); } else { StillLess(lens, n, m); }
      }
    }
  }

  lemma StillLess(lens: Lengths, n: nat, m: nat)
    requires n <= m && AtMost(lens, n) && Used(lens, n) < Pow2(n)
    ensures Used(lens, m) < Pow2(m)
  {
    UsedAbove(lens, n, m);
    ShlMonotone(Used(lens, n) + 1, Pow2(n), m - n);
    ShlAdd(Used(lens, n), 1, m - n);
    ShlOne(m - n);
  }

  /** The check for an over-subscribed or incomplete set of lengths. */
  method CodesLeft(lens: Lengths, count: array<nat>) returns (left: int)
    requires Bounded(lens) && count.Length == 16 && forall l :: 0 <= l <= 15 ==> count[l] == Count(lens, l)
    ensures left < 0 <==> !NotOversubscribed(lens)
    ensures left >= 0 ==> (left > 0 <==> Incomplete(lens))
  {
    left := 1;
    for len := 1 to 16
      invariant left == Pow2(len - 1) - Used(lens, len - 1) && left >= 0
      invariant forall l: nat :: l < len ==> Fits(lens, l)
    {
      left := left * 2;
      left := left - count[len];
      if left < 0 {
        assert !Fits(lens, len);
        return;
      }
    }
    IncompleteAt(lens, 15);
  }

  ghost predicate OffsetsAfter(offs: seq<nat>, lens: Lengths, sym: nat)
    requires sym <= |lens|
  {
    |offs| == 16 && forall l :: 1 <= l <= 15 ==> offs[l] == Offs(lens, l) + Count(lens[..sym], l)
  }

  ghost predicate SortedUpTo(work: seq<nat>, lens: Lengths, sym: nat)
  {
    forall s: nat :: s < sym && Coded(lens, s) ==> Place(lens, s) < |work| && work[Place(lens, s)] == s
  }

  /** Offsets into the symbol table for each length. */
  method Offsets(lens: Lengths, count: array<nat>) returns (offs: array<nat>)
    requires count.Length == 16 && forall l :: 0 <= l <= 15 ==> count[l] == Count(lens, l)
    ensures fresh(offs) && OffsetsAfter(offs[..], lens, 0)
  {
    hide Count;
    offs := new nat[16](_ => 0);
    for len := 1 to 15
      invariant forall l :: 1 <= l <= len ==> offs[l] == Offs(lens, l)
    {
      offs[len + 1] := offs[len] + count[len];
    }
    OffsetsStart(lens, offs[..]);
  }

  lemma OffsetsStart(lens: Lengths, offs: seq<nat>)
    requires |offs| == 16 && forall l :: 1 <= l <= 15 ==> offs[l] == Offs(lens, l)
    ensures OffsetsAfter(offs, lens, 0)
  {
    assert lens[..0] == [];
  }

  lemma OffsetsNext(lens: Lengths, offs: seq<nat>, sym: nat)
    requires sym < |lens| && lens[sym] <= 15 && OffsetsAfter(offs, lens, sym)
    ensures OffsetsAfter(if lens[sym] != 0 then offs[lens[sym] := offs[lens[sym]] + 1] else offs, lens, sym + 1)
  {
    forall l | 1 <= l <= 15
      ensures Count(lens[..sym + 1], l) == Count(lens[..sym], l) + if lens[sym] == l then 1 else 0
    {
      CountSplit(lens, sym, l);
    }
  }

  lemma SortedNext(lens: Lengths, work: seq<nat>, sym: nat)
    requires Coded(lens, sym) && SortedUpTo(work, lens, sym) && Place(lens, sym) < |work|
    ensures SortedUpTo(work[Place(lens, sym) := sym], lens, sym + 1)
  {
    forall s: nat | s < sym && Coded(lens, s) ensures Place(lens, s) != Place(lens, sym) { SamePlace(lens, s, sym); }
  }

  /** The symbols in order of their lengths, and of one length in symbol order. */
  method SortSymbols(lens: Lengths, count: array<nat>, work: array<nat>) returns (ghost total: nat)
    requires Bounded(lens) && count.Length == 16 && work != count && work.Length >= |lens|
    requires forall l :: 0 <= l <= 15 ==> count[l] == Count(lens, l)
    modifies work
    ensures total <= work.Length && Sorted(lens, work[..total])
  {
    var offs := Offsets(lens, count);
    total := TotalPlaces(lens);
    for sym := 0 to |lens|
      invariant OffsetsAfter(offs[..], lens, sym) && SortedUpTo(work[..], lens, sym)
    {
      OffsetsNext(lens, offs[..], sym);
      if lens[sym] != 0 {
        assert Place(lens, sym) < total;
        SortedNext(lens, work[..], sym);
        work[offs[lens[sym]]] := sym;
        offs[lens[sym]] := offs[lens[sym]] + 1;
      }
    }
    SortedDone(lens, work[..], total);
  }

  /** There are as many places as symbols with a code. */
  ghost predicate Places(lens: Lengths, total: nat)
  {
    && (forall s: nat :: Coded(lens, s) ==> Place(lens, s) < total)
    && forall i: nat :: i < total ==> Occupied(lens, i)
  }

  ghost predicate Occupied(lens: Lengths, i: nat)
  {
    exists s: nat :: Coded(lens, s) && Place(lens, s) == i
  }

  lemma TotalPlaces(lens: Lengths) returns (total: nat)
    ensures total <= |lens| && Places(lens, total)
  {
    total := Offs(lens, 16);
    CountsAll(lens, 16);
    forall s: nat | Coded(lens, s) ensures Place(lens, s) < total {
      PlaceBound(lens, s);
      OffsMonotone(lens, lens[s] + 1, 16);
    }
    forall i: nat | i < total ensures Occupied(lens, i) { var s := SymbolAt(lens, i, 15); }
  }

  lemma SortedDone(lens: Lengths, work: seq<nat>, total: nat)
    requires SortedUpTo(work, lens, |lens|) && total <= |work| && Places(lens, total)
    ensures Sorted(lens, work[..total])
  {
    forall i: nat | i < total ensures Coded(lens, work[i]) && Place(lens, work[i]) == i {
      assert Occupied(lens, i);
    }
  }

  lemma {:induction false} CountsAll(lens: Lengths, m: nat)
    requires m <= 16
    ensures Offs(lens, m) <= |lens|
    decreases |lens|
  {
    if lens == [] {
      OffsEmpty(m);
    } else {
      CountsAll(lens[..|lens| - 1], m);
      OffsOneMore(lens, m);
    }
  }

  lemma {:induction false} OffsEmpty(m: nat)
    ensures Offs([], m) == 0
  {
    if m > 1 { OffsEmpty(m - 1); }
  }

  lemma {:induction false} OffsOneMore(lens: Lengths, m: nat)
    requires lens != []
    ensures Offs(lens, m) == Offs(lens[..|lens| - 1], m) + if 1 <= lens[|lens| - 1] < m then 1 else 0
  {
    if m > 1 { OffsOneMore(lens, m - 1); }
  }

  // ---------- The steps of the main loop ----------

  /** The backwards increment: the highest ones become zeros and the zero below them becomes one. */
  method Increment(huff: nat, len: nat) returns (next: nat)
    ensures next == BackInc(huff, len)
  {
    var k: int := len - 1;
    while k >= 0 && Drop(huff, k) % 2 == 1
      invariant -1 <= k < len && BackInc(huff, len) == BackInc(huff, k + 1)
    {
      k := k - 1;
    }
    if k >= 0 {
      next := Low(huff, k) + Pow2(k);
    } else {
      next := 0;
    }
  }

  lemma SplitAt(k: nat, b: nat, h: nat, q: nat)
    requires Low(h, b) == h
    ensures Low(k, b) == h && Drop(k, b) == q <==> k == h + Shl(q, b)
  {
    DropOfAppend(h, q, b);
    Recompose(k, b);
  }

  lemma {:induction false} Recompose(k: nat, b: nat)
    ensures Low(k, b) + Shl(Drop(k, b), b) == k
    decreases b
  {
    if b > 0 { Recompose(k / 2, b - 1); }
  }

  /** One of the indices to fill, counted in steps of 1 << b, from q on. */
  predicate Hit(k: nat, base: nat, bits: nat, h: nat, b: nat, q: nat)
  {
    base <= k && Wanted(k - base, bits, h, b) && Drop(k - base, b) >= q
  }

  ghost predicate PartlyOverwritten(t: seq<Code>, t': seq<Code>, base: nat, bits: nat, h: nat, b: nat, c: Code, q: nat)
  {
    && |t'| == |t| && base + Pow2(bits) <= |t|
    && forall k: nat :: k < |t| ==> t'[k] == if Hit(k, base, bits, h, b, q) then c else t[k]
  }

  lemma HitNext(k: nat, base: nat, bits: nat, h: nat, b: nat, q: nat)
    requires Low(h, b) == h && h + Shl(q, b) < Pow2(bits)
    ensures Hit(k, base, bits, h, b, q) <==> Hit(k, base, bits, h, b, q + 1) || k == base + h + Shl(q, b)
  {
    if base <= k { SplitAt(k - base, b, h, q); }
  }

  lemma OverwriteOne(t: seq<Code>, t': seq<Code>, base: nat, bits: nat, h: nat, b: nat, c: Code, q: nat)
    requires PartlyOverwritten(t, t', base, bits, h, b, c, q + 1) && Low(h, b) == h && h + Shl(q, b) < Pow2(bits)
    ensures PartlyOverwritten(t, t'[base + h + Shl(q, b) := c], base, bits, h, b, c, q)
  {
    forall k: nat | k < |t|
      ensures Hit(k, base, bits, h, b, q) <==> Hit(k, base, bits, h, b, q + 1) || k == base + h + Shl(q, b)
    {
      HitNext(k, base, bits, h, b, q);
    }
  }

  lemma OverwriteStart(t: seq<Code>, base: nat, bits: nat, h: nat, b: nat, c: Code)
    requires b <= bits && base + Pow2(bits) <= |t|
    ensures PartlyOverwritten(t, t, base, bits, h, b, c, Pow2(bits - b)) && Pow2(bits) == Shl(Pow2(bits - b), b)
  {
    var q := Pow2(bits - b);
    forall k: nat | k < |t| ensures !Hit(k, base, bits, h, b, q) {
      if base <= k < base + Pow2(bits) { DropBound(k - base, bits, b); }
    }
    ShlOne(bits - b);
    ShlOne(bits);
    ShlShl(1, bits - b, b);
  }

  lemma AllOverwritten(t: seq<Code>, t': seq<Code>, base: nat, bits: nat, h: nat, b: nat, c: Code)
    requires PartlyOverwritten(t, t', base, bits, h, b, c, 0)
    ensures Overwritten(t, t', base, bits, h, b, c)
  {
    forall k: nat | k < |t|
      ensures Hit(k, base, bits, h, b, 0) <==> base <= k && Wanted(k - base, bits, h, b)
    {
    }
  }

  lemma FillStep(q: nat, b: nat, h: nat)
    requires q > 0 && h < Pow2(b)
    ensures Shl(q, b) == Shl(q - 1, b) + Pow2(b) && h + Shl(q - 1, b) < Shl(q, b) && (Shl(q - 1, b) == 0 <==> q == 1)
  {
    ShlAdd(q - 1, 1, b);
    ShlOne(b);
    ShlZero(b);
    if q > 1 { ShlMonotone(1, q - 1, b); }
  }

  /** Replicate an entry for those indices with low b bits equal to h. */
  method FillEntries(table: array<Code>, base: nat, curr: nat, h: nat, b: nat, here: Code)
    requires b <= curr && base + Pow2(curr) <= table.Length && h < Pow2(b)
    modifies table
    ensures Overwritten(old(table[..]), table[..], base, curr, h, b, here)
  {
    var incr, fill := Pow2(b), Pow2(curr);
    ghost var t := table[..];
    ghost var q := Pow2(curr - b);
    OverwriteStart(t, base, curr, h, b, here);
    LowSmall(h, b);
    while fill != 0
      invariant fill == Shl(q, b) <= Pow2(curr) && (fill == 0 <==> q == 0)
      invariant PartlyOverwritten(t, table[..], base, curr, h, b, here, q)
      decreases q
    {
      FillStep(q, b, h);
      OverwriteOne(t, table[..], base, curr, h, b, here, q - 1);
      q := q - 1;
      fill := fill - incr;
      table[base + h + fill] := here;
    }
    AllOverwritten(t, table[..], base, curr, h, b, here);
  }

  /** The codes of at most root + curr bits use up the root index of the symbol. */
  predicate UsedUp(lens: Lengths, s: nat, root: nat, curr: nat)
    requires s < |lens| && root < lens[s]
  {
    Used(lens, root + curr) >= Shl(Prefix(lens, s, root) + 1, curr)
  }

  /** The index bits of the sub-table that begins with that symbol: the least number, from the length of its
      code on, for which the root index is used up, unless the longest code comes first. */
  function TableBits(lens: Lengths, s: nat, root: nat, max: nat, from: nat): (curr: nat)
    requires s < |lens| && root < lens[s]
    ensures from <= curr && (from + root <= max ==> curr + root <= max)
    ensures curr + root >= max || UsedUp(lens, s, root, curr)
    ensures forall k :: from <= k < curr ==> k + root < max && !UsedUp(lens, s, root, k)
    decreases max - from
  {
    if from + root >= max || UsedUp(lens, s, root, from) then from else TableBits(lens, s, root, max, from + 1)
  }

  /** The first symbol of a root index that needs a sub-table. */
  predicate NeedsTable(lens: Lengths, root: nat, s: nat, s': nat)
    requires s < |lens| && lens[s] > 0 && s' < |lens| && lens[s'] > 0
  {
    root < lens[s'] && (lens[s] <= root || RootOf(lens, s, root) != RootOf(lens, s', root))
  }

  /** The entries of the root table and of the sub-tables of the first i symbols. */
  ghost function Entries(lens: Lengths, root: nat, max: nat, w: seq<nat>, i: nat): (n: nat)
    requires Sorted(lens, w) && 1 <= i <= |w|
    ensures Pow2(root) <= n
  {
    if i == 1 then Pow2(root)
    else
      Entries(lens, root, max, w, i - 1)
      + if NeedsTable(lens, root, w[i - 2], w[i - 1])
        then Pow2(TableBits(lens, w[i - 1], root, max, lens[w[i - 1]] - root)) else 0
  }

  lemma {:induction false} MoreEntries(lens: Lengths, root: nat, max: nat, w: seq<nat>, i: nat, j: nat)
    requires Sorted(lens, w) && 1 <= i <= j <= |w|
    ensures Entries(lens, root, max, w, i) <= Entries(lens, root, max, w, j)
    decreases j
  {
    if i < j { MoreEntries(lens, root, max, w, i, j - 1); }
  }

  lemma BeforeFirst(lens: Lengths, s: nat)
    requires Coded(lens, s)
    ensures Before(lens, s, lens[s]) == CodeOf(lens, s)
  {
  }

  lemma BeforeNext(lens: Lengths, s: nat, l: nat, n: nat, k: nat)
    requires Coded(lens, s) && lens[s] <= l
    ensures Before(lens, s, l + 1) == 2 * Used(lens, l) && Shl(n, k + 1) == 2 * Shl(n, k)
  {
  }

  /** Determine the length of the next sub-table. */
  method SubTableBits(lens: Lengths, count: array<nat>, ghost s: nat, root: nat, max: nat, len: nat) returns (curr: nat)
    requires Coded(lens, s) && NotOversubscribed(lens) && root < len == lens[s] <= max <= 15
    requires forall q: nat :: Coded(lens, q) ==> lens[q] <= max
    requires Counts(count, lens, Place(lens, s)) && CodeOf(lens, s) == Shl(Prefix(lens, s, root), len - root)
    ensures 1 <= curr && len <= root + curr <= max && Sized(lens, root, curr, s)
    ensures curr == TableBits(lens, s, root, max, len - root)
  {
    hide CodeOf, RootOf, Prefix, Place, NotOversubscribed, Before, Used, Shl;
    ghost var p := Prefix(lens, s, root);
    curr := len - root;
    BeforeFirst(lens, s);
    var left: int := Pow2(curr);
    ShlAdd(p, 1, curr);
    ShlOne(curr);
    while curr + root < max
      invariant len - root <= curr && curr + root <= max
      invariant left == Shl(p + 1, curr) - Before(lens, s, root + curr)
      invariant TableBits(lens, s, root, max, len - root) == TableBits(lens, s, root, max, curr)
    {
      BeforeAndRemaining(lens, s, root + curr);
      BeforeNext(lens, s, root + curr, p + 1, curr);
      left := left - count[curr + root];
      if left <= 0 {
        EnoughBits(lens, s, root, curr);
        break;
      }
      curr := curr + 1;
      left := left * 2;
    }
  }

  // ---------- The main loop ----------

  /** The loop is at symbol s: all symbols before are placed, and the variables are those of this one. */
  ghost predicate AtSymbol(ty: CodeType, lens: Lengths, t: seq<Code>, root: nat, next: nat, curr: nat,
                           drop: nat, used: nat, huff: nat, low: int, len: nat, s: nat)
    requires |lens| <= Symbols(ty)
  {
    && Coded(lens, s) && len == lens[s] && huff == HuffOf(lens, s)
    && drop == (if len <= root then 0 else root) && low == (if len <= root then -1 else RootOf(lens, s, root))
    && Pow2(root) <= used && Ready(ty, lens, t, root, next, curr, used, s, Place(lens, s))
  }

  /** The table entry of the symbol is created and replicated. */
  method EnterSymbol(ty: CodeType, lens: Lengths, table: array<Code>, root: nat, next: nat, curr: nat,
                     drop: nat, ghost used: nat, huff: nat, ghost low: int, len: nat, s: nat)
    requires Codable(ty, lens) && AtSymbol(ty, lens, table[..], root, next, curr, drop, used, huff, low, len, s)
    modifies table
    ensures Ready(ty, lens, table[..], root, next, curr, used, s, Place(lens, s) + 1)
  {
    hide AllPlaced, AllApart, Sized, Overwritten, FillsSymbol, SymbolCode, RootOf, Place, Pow2, Drop, HuffOf;
    ghost var t := table[..];
    SymbolFits(lens, t, root, next, curr, used, s);
    var here := SymbolCode(ty, s, len - drop);
    FillEntries(table, next, curr, Drop(huff, drop), len - drop, here);
    FillsThat(ty, lens, t, table[..], root, next, curr, drop, s, Drop(huff, drop), len - drop, here);
    Fill(ty, lens, t, table[..], root, next, curr, used, s, Place(lens, s));
  }

  lemma SymbolFits(lens: Lengths, t: seq<Code>, root: nat, next: nat, curr: nat, used: nat, s: nat)
    requires Coded(lens, s) && Current(lens, t, root, next, curr, used, s)
    ensures var drop := if lens[s] <= root then 0 else root;
            lens[s] - drop <= curr && next + Pow2(curr) <= |t| && Drop(HuffOf(lens, s), drop) < Pow2(lens[s] - drop)
  {
    HuffBound(CodeOf(lens, s), lens[s]);
    DropBound(HuffOf(lens, s), lens[s], if lens[s] <= root then 0 else root);
  }

  lemma FillsThat(ty: CodeType, lens: Lengths, t: seq<Code>, t': seq<Code>, root: nat, next: nat, curr: nat,
      drop: nat, s: nat, h: nat, b: nat, c: Code)
    requires Coded(lens, s) && |lens| <= Symbols(ty) && drop == if lens[s] <= root then 0 else root
    requires h == Drop(HuffOf(lens, s), drop) && b == lens[s] - drop && c == SymbolCode(ty, s, b)
    requires Overwritten(t, t', next, curr, h, b, c)
    ensures FillsSymbol(ty, lens, t, t', root, next, curr, s)
  {
  }

  /** The count of the length just entered goes down by one. */
  method CountDown(lens: Lengths, count: array<nat>, ghost s: nat, len: nat) returns (left: nat)
    requires Coded(lens, s) && len == lens[s] && Counts(count, lens, Place(lens, s))
    modifies count
    ensures Counts(count, lens, Place(lens, s) + 1) && left == Remaining(lens, Place(lens, s) + 1, len)
  {
    forall l | 1 <= l <= 15
      ensures Remaining(lens, Place(lens, s) + 1, l) == Remaining(lens, Place(lens, s), l) - if l == len then 1 else 0
    {
      RemainingNext(lens, s, l);
    }
    count[len] := count[len] - 1;
    left := count[len];
  }

  /** What holds before the next symbol if it needs no new sub-table. */
  lemma StaysInTable(ty: CodeType, lens: Lengths, t: seq<Code>, root: nat, next: nat, curr: nat, drop: nat,
                     used: nat, huff: nat, low: int, s: nat, s': nat)
    requires Codable(ty, lens) && Coded(lens, s) && Coded(lens, s') && Place(lens, s') == Place(lens, s) + 1
    requires Pow2(root) <= used && huff == HuffOf(lens, s')
    requires Ready(ty, lens, t, root, next, curr, used, s, Place(lens, s) + 1)
    requires drop == (if lens[s] <= root then 0 else root)
    requires low == if lens[s] <= root then -1 else RootOf(lens, s, root)
    requires lens[s'] <= root || Low(huff, root) == low
    ensures AtSymbol(ty, lens, t, root, next, curr, drop, used, huff, low, lens[s'], s')
  {
    EarlierPlace(lens, s, s');
    SameTable(ty, lens, t, root, next, curr, used, s, s');
  }

  /** The new sub-table is the one for the next symbol. */
  lemma StartsTable(ty: CodeType, lens: Lengths, t: seq<Code>, t': seq<Code>, root: nat, next: nat, curr: nat,
                    used: nat, huff: nat, low: nat, bits: nat, total: nat, s: nat, s': nat)
    requires Codable(ty, lens) && Coded(lens, s) && Coded(lens, s') && Place(lens, s') == Place(lens, s) + 1
    requires Ready(ty, lens, t, root, next, curr, used, s, Place(lens, s) + 1) && Pow2(root) <= used
    requires Sized(lens, root, bits, s') && root + bits <= 15 && total == used + Pow2(bits) <= |t|
    requires huff == HuffOf(lens, s') && low == Low(huff, root) < |t| && t' == t[low := Code(bits, root, used)]
    requires root < lens[s'] && (root < lens[s] ==> low != RootOf(lens, s, root))
    ensures AtSymbol(ty, lens, t', root, used, bits, root, total, huff, low, lens[s'], s')
  {
    LowBound(huff, root);
    NewTable(ty, lens, t, t', root, next, curr, used, s, s', bits, total);
  }

  lemma LastHuff(lens: Lengths, s: nat, huff: nat)
    requires NotOversubscribed(lens) && Coded(lens, s) && huff == HuffOf(lens, s)
    requires Offs(lens, lens[s] + 1) == Place(lens, s) + 1
    ensures BackInc(huff, lens[s]) == Huff(Used(lens, lens[s]), lens[s])
  {
    LastOfLength(lens, s);
    HuffIncrement(lens, s);
  }

  ghost predicate Longest(lens: Lengths, max: nat)
  {
    1 <= max <= 15 && Count(lens, max) > 0 && forall s: nat :: Coded(lens, s) ==> lens[s] <= max
  }

  /** The symbols in the work array. */
  ghost predicate WorkIs(work: array<nat>, w: seq<nat>)
    reads work
  {
    |w| <= work.Length && work[..|w|] == w
  }

  lemma WorkAt(work: array<nat>, w: seq<nat>, i: nat)
    requires WorkIs(work, w) && i < |w|
    ensures i < work.Length && work[i] == w[i]
  {
    assert work[..|w|][i] == w[i];
  }

  /** Go to the next symbol: the next code, and its length when the current one has none left. */
  method Advance(ty: CodeType, lens: Lengths, count: array<nat>, work: array<nat>, ghost w: seq<nat>, huff: nat,
      len: nat, sym: nat, max: nat) returns (done: bool, nextHuff: nat, nextLen: nat)
    requires Codable(ty, lens) && Longest(lens, max) && WorkIs(work, w) && Sorted(lens, w)
    requires sym < |w| && len == lens[w[sym]] && huff == HuffOf(lens, w[sym]) && Counts(count, lens, sym)
        && count != work
    modifies count
    ensures Counts(count, lens, sym + 1) && (done <==> sym + 1 == |w|)
    ensures done ==> nextHuff == Huff(Used(lens, max), max)
    ensures !done ==> nextLen == lens[w[sym + 1]] && nextHuff == HuffOf(lens, w[sym + 1])
  {
    nextHuff := Increment(huff, len);
    var left := CountDown(lens, count, w[sym], len);
    nextLen, done := len, false;
    if left == 0 {
      LastOfItsLength(lens, w[sym]);
      LastSymbol(lens, w, sym, len, max);
      if len == max {
        LastHuff(lens, w[sym], huff);
        done := true;
        return;
      }
      WorkAt(work, w, sym + 1);
      nextLen := lens[work[sym + 1]];
    } else {
      NextHasLength(lens, w, sym);
    }
    NextHuff(lens, w[sym], w[sym + 1], huff);
  }

  /** Whether the tables have outgrown the space. */
  predicate TooLarge(ty: CodeType, used: nat)
  {
    (ty == LENS && used > 852) || (ty == DISTS && used > 592)
  }

  ghost predicate Room(ty: CodeType, table: array<Code>, root: nat, max: nat)
  {
    if ty == CODES then max <= root && Pow2(root) <= table.Length else Enough(ty) <= table.Length
  }

  /** Create a new sub-table for the next symbol. */
  method NewSubTable(ty: CodeType, lens: Lengths, count: array<nat>, table: array<Code>, root: nat, next: nat,
      curr: nat, used: nat, huff: nat, len: nat, max: nat, ghost s: nat, ghost s': nat)
    returns (full: bool, nextTable: nat, bits: nat, total: nat)
    requires Codable(ty, lens) && Longest(lens, max) && Coded(lens, s) && Coded(lens, s')
    requires Place(lens, s') == Place(lens, s) + 1 && Pow2(root) <= used
    requires Ready(ty, lens, table[..], root, next, curr, used, s, Place(lens, s) + 1)
        && Counts(count, lens, Place(lens, s'))
    requires huff == HuffOf(lens, s') && len == lens[s']
    requires root < len && (root < lens[s] ==> Low(huff, root) != RootOf(lens, s, root))
    requires Room(ty, table, root, max)
    modifies table
    ensures full == TooLarge(ty, total) && total == used + Pow2(TableBits(lens, s', root, max, len - root))
    ensures !full ==> AtSymbol(ty, lens, table[..], root, nextTable, bits, root, total, huff, Low(huff, root), len, s')
  {
    Aligned(lens, s, s', root);
    bits := SubTableBits(lens, count, s', root, max, len);
    total := used + Pow2(bits);
    full := TooLarge(ty, total);
    nextTable := next + Pow2(curr);
    if full { return; }
    InRoom(ty, table, root, max, total);
    LowBound(huff, root);
    ghost var t, low := table[..], Low(huff, root);
    assert nextTable == used && low < |t|;
    table[Low(huff, root)] := Code(bits, root, nextTable);
    StartsTable(ty, lens, t, table[..], root, next, curr, used, huff, low, bits, total, s, s');
  }

  lemma InRoom(ty: CodeType, table: array<Code>, root: nat, max: nat, total: nat)
    requires Room(ty, table, root, max) && root < max && !TooLarge(ty, total)
    ensures total <= table.Length
  {
  }

  /** Whether the next symbol needs a new sub-table, and the variables for it. */
  method NextTable(ty: CodeType, lens: Lengths, count: array<nat>, table: array<Code>, root: nat, next: nat, curr: nat,
                   drop: nat, used: nat, huff: nat, low: int, len: nat, max: nat, ghost s: nat, ghost s': nat)
    returns (full: bool, nextTable: nat, bits: nat, nextDrop: nat, total: nat, nextLow: int)
    requires Codable(ty, lens) && Longest(lens, max) && Coded(lens, s) && Coded(lens, s')
    requires Place(lens, s') == Place(lens, s) + 1 && Pow2(root) <= used
    requires Ready(ty, lens, table[..], root, next, curr, used, s, Place(lens, s) + 1)
        && Counts(count, lens, Place(lens, s'))
    requires drop == (if lens[s] <= root then 0 else root)
    requires low == if lens[s] <= root then -1 else RootOf(lens, s, root)
    requires huff == HuffOf(lens, s') && len == lens[s'] && Room(ty, table, root, max)
    modifies table
    ensures full ==> TooLarge(ty, total)
    ensures !full && !TooLarge(ty, used) ==> !TooLarge(ty, total)
    ensures total == used + if NeedsTable(lens, root, s, s') then Pow2(TableBits(lens, s', root, max, len - root))
                            else 0
    ensures !full ==> AtSymbol(ty, lens, table[..], root, nextTable, bits, nextDrop, total, huff, nextLow, len, s')
  {
    if len > root && Low(huff, root) != low {
      nextDrop, nextLow := root, Low(huff, root);
      full, nextTable, bits, total := NewSubTable(ty, lens, count, table, root, next, curr, used, huff, len, max, s,
          s');
    } else {
      full, nextTable, bits, nextDrop, total, nextLow := false, next, curr, drop, used, low;
      StaysInTable(ty, lens, table[..], root, next, curr, drop, used, huff, low, s, s');
    }
  }

  lemma FirstEntries(lens: Lengths, root: nat, max: nat, w: seq<nat>)
    requires Sorted(lens, w) && w != []
    ensures Entries(lens, root, max, w, 1) == Pow2(root)
  {
  }

  lemma NextEntries(lens: Lengths, root: nat, max: nat, w: seq<nat>, i: nat)
    requires Sorted(lens, w) && 1 <= i < |w|
    ensures Entries(lens, root, max, w, i + 1)
            == Entries(lens, root, max, w, i)
               + if NeedsTable(lens, root, w[i - 1], w[i])
                 then Pow2(TableBits(lens, w[i], root, max, lens[w[i]] - root)) else 0
  {
    hide Sorted, RootOf, TableBits;
  }

  lemma StaysTooLarge(ty: CodeType, lens: Lengths, root: nat, max: nat, w: seq<nat>, i: nat)
    requires Sorted(lens, w) && 1 <= i <= |w| && TooLarge(ty, Entries(lens, root, max, w, i))
    ensures TooLarge(ty, Entries(lens, root, max, w, |w|))
  {
    hide Entries, Sorted;
    MoreEntries(lens, root, max, w, i, |w|);
  }

  lemma FirstSymbolReady(ty: CodeType, lens: Lengths, t: seq<Code>, root: nat, min: nat, s: nat)
    requires Coded(lens, s) && |lens| <= Symbols(ty) && lens[s] == min <= root <= 15 && Pow2(root) <= |t|
    requires HuffOf(lens, s) == 0 && Place(lens, s) == 0
    ensures AtSymbol(ty, lens, t, root, 0, root, 0, Pow2(root), 0, -1, min, s)
  {
    Start(ty, lens, t, root, s);
  }

  lemma SymbolMeans(ty: CodeType, lens: Lengths, t: seq<Code>, root: nat, next: nat, curr: nat, drop: nat, used: nat,
                    huff: nat, low: int, len: nat, s: nat)
    requires |lens| <= Symbols(ty) && AtSymbol(ty, lens, t, root, next, curr, drop, used, huff, low, len, s)
    ensures Coded(lens, s) && len == lens[s] && huff == HuffOf(lens, s) && Pow2(root) <= used
    ensures drop == (if len <= root then 0 else root) && low == (if len <= root then -1 else RootOf(lens, s, root))
  {
  }

  lemma NotLonger(lens: Lengths, max: nat, s: nat)
    requires Longest(lens, max) && Coded(lens, s)
    ensures lens[s] <= max
  {
  }

  lemma ReadyPlaced(ty: CodeType, lens: Lengths, t: seq<Code>, root: nat, next: nat, curr: nat, used: nat,
      s: nat, i: nat)
    requires Coded(lens, s) && |lens| <= Symbols(ty) && Ready(ty, lens, t, root, next, curr, used, s, i)
    ensures AllPlaced(ty, lens, t, root, used, i) && used <= |t| && (lens[s] <= root ==> next == 0)
  {
  }

  /** The loop is at the symbol with that place, and so far there is enough space. */
  ghost predicate LoopAt(ty: CodeType, lens: Lengths, count: array<nat>, table: array<Code>, root: nat, max: nat,
                         w: seq<nat>, sym: nat, used: nat, huff: nat, len: nat, next: nat, curr: nat, drop: nat,
                         low: int)
    requires Sorted(lens, w) && |lens| <= Symbols(ty)
    reads count, table
  {
    && sym < |w| && Counts(count, lens, sym)
    && AtSymbol(ty, lens, table[..], root, next, curr, drop, used, huff, low, len, w[sym])
    && used == Entries(lens, root, max, w, sym + 1) && !TooLarge(ty, used)
  }

  /** The entries of one code, and the variables for the next one, if there is one. */
  method OneCode(ty: CodeType, lens: Lengths, count: array<nat>, work: array<nat>, ghost w: seq<nat>,
                 table: array<Code>, root: nat, max: nat, sym: nat, used: nat, huff: nat, len: nat, next: nat,
                 curr: nat, drop: nat, low: int)
    returns (done: bool, huff': nat, len': nat)
    requires Codable(ty, lens) && Longest(lens, max) && WorkIs(work, w) && Sorted(lens, w) && count != work
    requires LoopAt(ty, lens, count, table, root, max, w, sym, used, huff, len, next, curr, drop, low)
    modifies table, count
    ensures Counts(count, lens, sym + 1) && (done <==> sym + 1 == |w|)
    ensures done ==> huff' == Huff(Used(lens, max), max) && (max <= root ==> next == 0 && drop == 0)
    ensures done ==> Pow2(root) <= used <= table.Length && AllPlaced(ty, lens, table[..], root, used, |w|)
    ensures !done ==> len' == lens[w[sym + 1]] && huff' == HuffOf(lens, w[sym + 1])
    ensures Ready(ty, lens, table[..], root, next, curr, used, w[sym], sym + 1)
  {
    assert |lens| <= Symbols(ty);
    SymbolMeans(ty, lens, table[..], root, next, curr, drop, used, huff, low, len, w[sym]);
    NotLonger(lens, max, w[sym]);
    WorkAt(work, w, sym);
    assert lens[w[sym]] == len;
    hide AtSymbol, Ready, Codable, Counts, Longest, AllPlaced, HuffOf, RootOf, WorkIs, Entries, TooLarge;
    EnterSymbol(ty, lens, table, root, next, curr, drop, used, huff, low, len, work[sym]);
    done, huff', len' := Advance(ty, lens, count, work, w, huff, len, sym, max);
    if done { ReadyPlaced(ty, lens, table[..], root, next, curr, used, w[sym], sym + 1); }
  }

  /** The next code, if there is space for its table. */
  method ToNextCode(ty: CodeType, lens: Lengths, count: array<nat>, ghost w: seq<nat>, table: array<Code>, root: nat,
                    max: nat, ghost sym: nat, used: nat, huff: nat, len: nat, next: nat, curr: nat, drop: nat, low: int)
    returns (full: bool, next': nat, curr': nat, drop': nat, used': nat, low': int)
    requires Codable(ty, lens) && Longest(lens, max) && Sorted(lens, w) && Room(ty, table, root, max)
    requires sym + 1 < |w| && Counts(count, lens, sym + 1) && Pow2(root) <= used && !TooLarge(ty, used)
    requires Ready(ty, lens, table[..], root, next, curr, used, w[sym], sym + 1)
    requires drop == (if lens[w[sym]] <= root then 0 else root)
    requires low == if lens[w[sym]] <= root then -1 else RootOf(lens, w[sym], root)
    requires huff == HuffOf(lens, w[sym + 1]) && len == lens[w[sym + 1]]
    requires used == Entries(lens, root, max, w, sym + 1)
    modifies table
    ensures if full then TooLarge(ty, Entries(lens, root, max, w, |w|))
            else LoopAt(ty, lens, count, table, root, max, w, sym + 1, used', huff, len, next', curr', drop', low')
  {
    hide Ready, Codable, Counts, Longest, HuffOf, RootOf, Entries, TooLarge, NeedsTable, TableBits, Room, AtSymbol,
        Pow2, WorkIs;
    NextEntries(lens, root, max, w, sym + 1);
    full, next', curr', drop', used', low' :=
      NextTable(ty, lens, count, table, root, next, curr, drop, used, huff, low, len, max, w[sym], w[sym + 1]);
    if full { StaysTooLarge(ty, lens, root, max, w, sym + 2); }
  }

  /** The processing of all codes; full means that the space is not enough. */
  method MainLoop(ty: CodeType, lens: Lengths, count: array<nat>, work: array<nat>, ghost w: seq<nat>,
                  table: array<Code>, root: nat, min: nat, max: nat)
    returns (full: bool, used: nat, huff: nat, next: nat, drop: nat)
    requires Codable(ty, lens) && Longest(lens, max) && WorkIs(work, w) && Sorted(lens, w)
    requires |w| > 0 && lens[w[0]] == min && HuffOf(lens, w[0]) == 0 && min <= root <= 15
    requires Counts(count, lens, 0) && Room(ty, table, root, max) && Pow2(root) <= table.Length && count != work
    requires !TooLarge(ty, Pow2(root))
    modifies table, count
    ensures !full ==> Pow2(root) <= used <= table.Length && AllPlaced(ty, lens, table[..], root, used, |w|)
    ensures !full ==> huff == Huff(Used(lens, max), max)
    ensures !full && max <= root ==> next == 0 && drop == 0
    ensures full <==> TooLarge(ty, Entries(lens, root, max, w, |w|))
    ensures !full ==> used == Entries(lens, root, max, w, |w|)
  {
    hide NotOversubscribed, Longest, Room, AllPlaced, AtSymbol, Ready, HuffOf, Huff, RootOf, Used, Pow2;
    FirstEntries(lens, root, max, w);
    FirstSymbolReady(ty, lens, table[..], root, min, w[0]);
    huff, used, next, drop, full := 0, Pow2(root), 0, 0, false;
    var sym: nat, len: nat, curr: nat := 0, min, root;
    var low: int := -1;
    assert LoopAt(ty, lens, count, table, root, max, w, sym, used, huff, len, next, curr, drop, low);
    hide LoopAt, Entries, Sorted, WorkIs, Counts, TooLarge;
    while true
      invariant WorkIs(work, w)
      invariant LoopAt(ty, lens, count, table, root, max, w, sym, used, huff, len, next, curr, drop, low)
      decreases |w| - sym
    {
      LoopMeans(ty, lens, count, table, root, max, w, sym, used, huff, len, next, curr, drop, low);
      var done;
      done, huff, len :=
        OneCode(ty, lens, count, work, w, table, root, max, sym, used, huff, len, next, curr, drop, low);
      if done { break; }
      full, next, curr, drop, used, low :=
        ToNextCode(ty, lens, count, w, table, root, max, sym, used, huff, len, next, curr, drop, low);
      if full { break; }
      sym := sym + 1;
    }
  }

  lemma LoopMeans(ty: CodeType, lens: Lengths, count: array<nat>, table: array<Code>, root: nat, max: nat, w: seq<nat>,
                  sym: nat, used: nat, huff: nat, len: nat, next: nat, curr: nat, drop: nat, low: int)
    requires Sorted(lens, w) && |lens| <= Symbols(ty)
    requires LoopAt(ty, lens, count, table, root, max, w, sym, used, huff, len, next, curr, drop, low)
    ensures sym < |w| && Coded(lens, w[sym]) && used == Entries(lens, root, max, w, sym + 1) && !TooLarge(ty, used)
    ensures drop == (if lens[w[sym]] <= root then 0 else root) && Pow2(root) <= used
    ensures low == if lens[w[sym]] <= root then -1 else RootOf(lens, w[sym], root)
  {
  }

  // ---------- The whole ----------

  ghost predicate NoCodes(lens: Lengths)
  {
    forall s :: 0 <= s < |lens| ==> lens[s] == 0
  }

  /** The sets that are refused: over-subscribed ones, and incomplete ones but for a single code of one bit. */
  ghost predicate Refused(ty: CodeType, lens: Lengths)
  {
    !NotOversubscribed(lens) || (Incomplete(lens) && (ty == CODES || !AtMost(lens, 1)))
  }

  lemma HuffFull(n: nat)
    ensures Huff(Pow2(n), n) == 0
  {
    HuffShl(1, 0, n);
    ShlOne(n);
  }

  /** The only codes of an incomplete set that is accepted are single: one symbol with the code 0. */
  lemma SingleCode(lens: Lengths, s: nat)
    requires Coded(lens, s) && AtMost(lens, 1) && Used(lens, 1) == 1
    ensures lens[s] == 1 && HuffOf(lens, s) == 0
  {
    CountSplit(lens, s, 1);
    assert CodeOf(lens, s) == 0;
  }

  /** The tables of a set with a single code: the other bit is an invalid code. */
  lemma SingleIsValid(ty: CodeType, lens: Lengths, t: seq<Code>, s: nat)
    requires |lens| <= Symbols(ty) && |t| >= 2 && Coded(lens, s) && lens[s] == 1 && HuffOf(lens, s) == 0
    requires Placed(ty, lens, t, 1, |t|, s)
    ensures Placed(ty, lens, t[1 := Code(64, 1, 0)], 1, |t|, s)
    ensures ValidTable(t[1 := Code(64, 1, 0)], 1, Literals(ty))
  {
    SymbolGood(ty, s, 1);
    SingleEntries(t, SymbolCode(ty, s, 1), Literals(ty));
  }

  lemma SingleEntries(t: seq<Code>, e: Code, lens: bool)
    requires |t| >= 2 && Filled(t, 0, 1, 0, 1, e) && GoodEntry(e, lens) && e.bits == 1
    ensures Filled(t[1 := Code(64, 1, 0)], 0, 1, 0, 1, e) && ValidTable(t[1 := Code(64, 1, 0)], 1, lens)
  {
    var t' := t[1 := Code(64, 1, 0)];
    assert Pow2(1) == 2 && Low(0, 1) == 0 && Low(1, 1) == 1;
    FilledAt(t, 0, 1, 0, 1, e, 0);
    forall k: nat | Wanted(k, 1, 0, 1) ensures t'[0 + k] == e { assert k == 0 || k == 1; }
    forall i | 0 <= i < Pow2(1) ensures ValidEntry(t', t'[i], lens) { assert i == 0 || i == 1; }
  }

  lemma ShortenAll(ty: CodeType, lens: Lengths, t: seq<Code>, root: nat, used: nat, w: seq<nat>)
    requires |lens| <= Symbols(ty) && Sorted(lens, w) && AllPlaced(ty, lens, t, root, used, |w|)
        && Pow2(root) <= used <= |t|
    ensures EveryPlaced(ty, lens, t[..used], root)
  {
    forall s: nat | Coded(lens, s) ensures Placed(ty, lens, t[..used], root, used, s) {
      assert InPlace(lens, w, s) && Placed(ty, lens, t, root, used, s);
      Shorten(ty, lens, t, root, used, s);
    }
  }

  /** The space that a caller has to provide. */
  ghost predicate Space(ty: CodeType, lens: Lengths, table: array<Code>, bits: nat)
  {
    table.Length >= 2 && if ty == CODES then bits <= 15 && AtMost(lens, bits) && Pow2(bits) <= table.Length
                         else Enough(ty) <= table.Length
  }

  /** The fill-in of the last entry for an incomplete code, and what the tables are then. */
  method Finish(ty: CodeType, lens: Lengths, table: array<Code>, root: nat, max: nat, used: nat, huff: nat, next: nat,
                drop: nat, ghost w: seq<nat>)
    requires Codable(ty, lens) && Sorted(lens, w) && Longest(lens, max) && AtMost(lens, max) && root <= 15
    requires Pow2(root) <= used <= table.Length && AllPlaced(ty, lens, table[..], root, used, |w|)
    requires huff == Huff(Used(lens, max), max) && (max <= root ==> next == 0 && drop == 0)
    requires Incomplete(lens) ==> max == 1 && root == 1
    modifies table
    ensures EveryPlaced(ty, lens, table[..used], root) && ValidTable(table[..used], root, Literals(ty))
  {
    ghost var t := table[..used];
    ShortenAll(ty, lens, table[..], root, used, w);
    IncompleteAt(lens, max);
    assert Fits(lens, max);
    if Used(lens, max) == Pow2(max) { HuffFull(max); }
    if huff != 0 {
      SingleHuff(lens);
      table[next + huff] := Code(64, max - drop, 0);
      assert table[..used] == t[1 := Code(64, 1, 0)];
      SingleTable(ty, lens, t);
    } else {
      CompleteIsValid(ty, lens, max, t, root);
    }
  }

  lemma SingleHuff(lens: Lengths)
    requires Used(lens, 1) < Pow2(1) && Count(lens, 1) > 0
    ensures Used(lens, 1) == 1 && Huff(1, 1) == 1
  {
    assert Used(lens, 1) == Count(lens, 1) && Pow2(1) == 2;
    assert Huff(1, 1) == Huff(0, 0) + 1 * Pow2(0);
  }

  lemma SingleTable(ty: CodeType, lens: Lengths, t: seq<Code>)
    requires |lens| <= Symbols(ty) && |t| >= 2 && AtMost(lens, 1) && Used(lens, 1) == 1 && EveryPlaced(ty, lens, t, 1)
    ensures EveryPlaced(ty, lens, t[1 := Code(64, 1, 0)], 1) && ValidTable(t[1 := Code(64, 1, 0)], 1, Literals(ty))
  {
    var t' := t[1 := Code(64, 1, 0)];
    forall s: nat | Coded(lens, s) ensures Placed(ty, lens, t', 1, |t'|, s) && ValidTable(t', 1, Literals(ty)) {
      assert Placed(ty, lens, t, 1, |t|, s);
      SingleCode(lens, s);
      SingleIsValid(ty, lens, t, s);
    }
    var s := KthSymbol(lens, 1, 0);
    assert Coded(lens, s);
  }

  lemma LongestIs(lens: Lengths, max: nat)
    requires Bounded(lens) && 1 <= max <= 15 && AtMost(lens, max) && Count(lens, max) > 0
    ensures Longest(lens, max) && !NoCodes(lens) && (AtMost(lens, 1) <==> max == 1)
  {
    NoneCounted(lens, max);
  }

  lemma {:induction false} Pow2Monotone(a: nat, b: nat)
    requires a <= b
    ensures Pow2(a) <= Pow2(b)
    decreases b
  {
    if a < b { Pow2Monotone(a, b - 1); }
  }

  lemma RoomFor(ty: CodeType, lens: Lengths, table: array<Code>, bits: nat, root: nat, max: nat)
    requires Space(ty, lens, table, bits) && Longest(lens, max) && (bits >= max ==> root == max)
    ensures Room(ty, table, root, max)
  {
    if ty == CODES {
      NoneCounted(lens, max);
      Pow2Monotone(max, bits);
    }
  }

  lemma CountsStart(lens: Lengths, count: array<nat>)
    requires count.Length == 16 && forall l :: 0 <= l <= 15 ==> count[l] == Count(lens, l)
    ensures Counts(count, lens, 0)
  {
  }

  /** The space is not enough exactly if the root table and all sub-tables together have too many entries;
      otherwise that many are used. */
  ghost predicate Answers(ty: CodeType, lens: Lengths, root: nat, max: nat, w: seq<nat>, full: bool, used: nat)
  {
    && Sorted(lens, w) && w != [] && Longest(lens, max)
    && (full <==> TooLarge(ty, Entries(lens, root, max, w, |w|)))
    && (!full ==> used == Entries(lens, root, max, w, |w|))
  }

  /** The index bits of the root table: those asked for, between the shortest and the longest length. */
  ghost predicate RootBits(lens: Lengths, bits: nat, root: nat, max: nat)
  {
    exists min: nat :: Shortest(lens, min)
                  && root == if bits > max then max else if bits < min then min else bits
  }

  ghost predicate Outcome(ty: CodeType, lens: Lengths, bits: nat, root: nat, max: nat, w: seq<nat>, result: int,
                          used: nat)
  {
    RootBits(lens, bits, root, max) && Answers(ty, lens, root, max, w, result == 1, used)
  }

  ghost predicate Shortest(lens: Lengths, min: nat)
  {
    1 <= min <= 15 && Count(lens, min) > 0 && forall l :: 1 <= l < min ==> Count(lens, l) == 0
  }

  /** The tables of a set of lengths that is accepted. */
  method Build(ty: CodeType, lens: Lengths, count: array<nat>, work: array<nat>, table: array<Code>, root: nat,
               min: nat, max: nat) returns (full: bool, used: nat)
    requires Codable(ty, lens) && Longest(lens, max) && AtMost(lens, max) && 1 <= min <= root <= 15
    requires Count(lens, min) > 0 && forall l :: 1 <= l < min ==> Count(lens, l) == 0
    requires count.Length == 16 && count != work && work.Length >= |lens|
    requires forall l :: 0 <= l <= 15 ==> count[l] == Count(lens, l)
    requires Room(ty, table, root, max) && (Incomplete(lens) ==> max == 1 && root == 1)
    modifies table, work, count
    ensures exists w :: Answers(ty, lens, root, max, w, full, used)
    ensures !full ==> Pow2(root) <= used <= table.Length && ValidTable(table[..used], root, Literals(ty))
    ensures !full ==> EveryPlaced(ty, lens, table[..used], root)
  {
    ghost var total := SortSymbols(lens, count, work);
    ghost var w := work[..total];
    FirstSymbol(lens, w, min);
    CountsStart(lens, count);
    used, full := Pow2(root), TooLarge(ty, Pow2(root));
    if full {
      MoreEntries(lens, root, max, w, 1, |w|);
      assert Answers(ty, lens, root, max, w, full, used);
      return;
    }
    var huff, next, drop;
    full, used, huff, next, drop := MainLoop(ty, lens, count, work, w, table, root, min, max);
    assert Answers(ty, lens, root, max, w, full, used);
    if full { return; }
    Finish(ty, lens, table, root, max, used, huff, next, drop, w);
  }

  /** inflate_table: 0 with tables for the code, -1 for a set of lengths that is refused and 1 if the
      tables need more space than there is. */
  method InflateTable(ty: CodeType, lens: Lengths, table: array<Code>, bits: nat, work: array<nat>)
    returns (result: int, root: nat, used: nat)
    requires Bounded(lens) && |lens| <= Symbols(ty) && work.Length >= |lens| && Space(ty, lens, table, bits)
    modifies table, work
    ensures result == -1 <==> !NoCodes(lens) && Refused(ty, lens)
    ensures result == 0 || result == 1 || result == -1
    ensures NoCodes(lens) ==> result == 0
    ensures result != -1 && !NoCodes(lens) ==>
              exists max: nat, w: seq<nat> :: Outcome(ty, lens, bits, root, max, w, result, used)
    ensures result == 0 ==> root <= 15 && Pow2(root) <= used <= table.Length
                            && ValidTable(table[..used], root, Literals(ty))
    ensures result == 0 ==> EveryPlaced(ty, lens, table[..used], root)
  {
    var count := CountLengths(lens);
    root, used := bits, 0;
    var max := LongestLength(lens, count);
    if root > max { root := max; }
    if max == 0 {
      table[0] := Code(64, 1, 0);
      table[1] := Code(64, 1, 0);
      NoneIsValid(ty, lens, table[..2]);
      return 0, 1, 2;
    }
    LongestIs(lens, max);
    SomeCodes(lens, max);
    var min := ShortestLength(lens, count, max);
    if root < min { root := min; }
    var left := CodesLeft(lens, count);
    if left < 0 { return -1, root, 0; }
    if left > 0 && (ty == CODES || max != 1) { return -1, root, 0; }
    RoomFor(ty, lens, table, bits, root, max);
    var full;
    full, used := Build(ty, lens, count, work, table, root, min, max);
    assert Shortest(lens, min) && RootBits(lens, bits, root, max);
    ghost var w :| Answers(ty, lens, root, max, w, full, used);
    result := if full then 1 else 0;
    assert Outcome(ty, lens, bits, root, max, w, result, used);
  }

  lemma SomeCodes(lens: Lengths, l: nat)
    requires 1 <= l && Count(lens, l) > 0
    ensures !NoCodes(lens)
  {
    if NoCodes(lens) { NoneCounted(lens, l); }
  }

  lemma NoneIsValid(ty: CodeType, lens: Lengths, t: seq<Code>)
    requires |lens| <= Symbols(ty) && AtMost(lens, 0) && t == [Code(64, 1, 0), Code(64, 1, 0)]
    ensures ValidTable(t, 1, Literals(ty)) && EveryPlaced(ty, lens, t, 1) && Pow2(1) == 2 && NoCodes(lens)
  {
  }
}
