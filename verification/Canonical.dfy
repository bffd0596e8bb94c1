/** Canonical Huffman codes, section 3.2.2 of RFC 1951, read from a little-endian bit stream. */
module Canonical {
  import opened BitStream

  // ---------- Codes as the bits of a stream ----------

  /** The first n bits of the stream, the first one most significant, as Huffman codes are packed. */
  function Msb(x: nat, n: nat): nat
    decreases n
  {
    if n == 0 then 0 else 2 * Msb(x, n - 1) + Drop(x, n - 1) % 2
  }

  /** The n bits of a code as they appear in the stream: `huff`. */
  function Huff(c: nat, n: nat): nat
    decreases n
  {
    if n == 0 then 0 else Huff(c / 2, n - 1) + c % 2 * Pow2(n - 1)
  }

  lemma {:induction false} MsbBound(x: nat, n: nat)
    ensures Msb(x, n) < Pow2(n)
    decreases n
  {
    if n > 0 { MsbBound(x, n - 1); }
  }

  lemma {:induction false} MsbDrop(x: nat, a: nat, b: nat)
    requires a <= b
    ensures Drop(Msb(x, b), b - a) == Msb(x, a)
    decreases b
  {
    if a < b {
      assert Msb(x, b) / 2 == Msb(x, b - 1);
      MsbDrop(x, a, b - 1);
    }
  }

  lemma {:induction false} LowTop(x: nat, n: nat)
    requires n > 0
    ensures Low(x, n) == Low(x, n - 1) + Drop(x, n - 1) % 2 * Pow2(n - 1)
    decreases n
  {
    if n > 1 {
      LowTop(x / 2, n - 1);
      var b := Drop(x, n - 1) % 2;
      assert Drop(x / 2, n - 2) == Drop(x, n - 1);
      Twice(b, Pow2(n - 2));
    }
  }

  lemma Twice(b: nat, p: nat)
    requires b < 2
    ensures 2 * (b * p) == b * (2 * p)
  {
  }

  lemma {:induction false} HuffBound(c: nat, n: nat)
    ensures Huff(c, n) < Pow2(n)
    decreases n
  {
    if n > 0 {
      HuffBound(c / 2, n - 1);
      if c % 2 == 0 { assert c % 2 * Pow2(n - 1) == 0; } else { assert c % 2 * Pow2(n - 1) == Pow2(n - 1); }
    }
  }

  /** Two numbers with a top bit each are equal if and only if the bits and the rests are. */
  lemma TopBits(a: nat, b: nat, x: nat, y: nat, p: nat)
    requires a < p && b < p && x < 2 && y < 2
    ensures a + x * p == b + y * p <==> a == b && x == y
  {
    assert x == 0 || x == 1;
    assert y == 0 || y == 1;
  }

  /** A stream starts with a code exactly if its low bits are the code's `huff`. */
  lemma {:induction false} StartsWith(x: nat, c: nat, n: nat)
    requires c < Pow2(n)
    ensures Msb(x, n) == c <==> Low(x, n) == Huff(c, n)
    decreases n
  {
    if n > 0 {
      StartsWith(x, c / 2, n - 1);
      LowTop(x, n);
      LowBound(x, n - 1);
      HuffBound(c / 2, n - 1);
      TopBits(Low(x, n - 1), Huff(c / 2, n - 1), Drop(x, n - 1) % 2, c % 2, Pow2(n - 1));
    }
  }

  lemma HuffStarts(c: nat, n: nat)
    requires c < Pow2(n)
    ensures Msb(Huff(c, n), n) == c && Low(Huff(c, n), n) == Huff(c, n)
  {
    HuffBound(c, n);
    LowSmall(Huff(c, n), n);
    StartsWith(Huff(c, n), c, n);
  }

  lemma {:induction false} DropBound(c: nat, n: nat, k: nat)
    requires c < Pow2(n) && k <= n
    ensures Drop(c, k) < Pow2(n - k)
    decreases k
  {
    if k > 0 { DropBound(c / 2, n - 1, k - 1); }
  }

  /** The first k bits of a code. */
  lemma HuffLow(c: nat, n: nat, k: nat)
    requires c < Pow2(n) && k <= n
    ensures Low(Huff(c, n), k) == Huff(Drop(c, n - k), k)
  {
    HuffStarts(c, n);
    MsbDrop(Huff(c, n), k, n);
    DropBound(c, n, n - k);
    StartsWith(Huff(c, n), Drop(c, n - k), k);
  }

  lemma HuffInjective(c: nat, d: nat, n: nat)
    requires c < Pow2(n) && d < Pow2(n) && Huff(c, n) == Huff(d, n)
    ensures c == d
  {
    HuffStarts(c, n);
    HuffStarts(d, n);
  }

  /** Zeros are appended as the length increases. */
  lemma {:induction false} HuffShl(c: nat, n: nat, k: nat)
    ensures Huff(Shl(c, k), n + k) == Huff(c, n)
    decreases k
  {
    if k > 0 {
      HuffShl(c, n, k - 1);
      assert Shl(c, k) / 2 == Shl(c, k - 1) && Shl(c, k) % 2 == 0;
    }
  }

  /** The backwards increment: the highest bits that are set are cleared and the next one is set. */
  function BackInc(h: nat, n: nat): nat
    decreases n
  {
    if n == 0 then 0
    else if Drop(h, n - 1) % 2 == 1 then BackInc(h, n - 1)
    else Low(h, n - 1) + Pow2(n - 1)
  }

  /** The backwards increment of a code's bits gives the bits of the next code. */
  lemma {:induction false} BackIncIsNext(h: nat, c: nat, n: nat)
    requires Low(h, n) == Huff(c, n)
    ensures BackInc(h, n) == Huff(c + 1, n)
    decreases n
  {
    if n > 0 {
      LowTop(h, n);
      LowBound(h, n - 1);
      HuffBound(c / 2, n - 1);
      TopBits(Low(h, n - 1), Huff(c / 2, n - 1), Drop(h, n - 1) % 2, c % 2, Pow2(n - 1));
      HuffNext(c, n);
      if c % 2 == 1 { BackIncIsNext(h, c / 2, n - 1); }
    }
  }

  lemma HuffNext(c: nat, n: nat)
    requires n > 0
    ensures Huff(c + 1, n) == if c % 2 == 1 then Huff(c / 2 + 1, n - 1) else Huff(c / 2, n - 1) + Pow2(n - 1)
  {
    if c % 2 == 1 {
      assert (c + 1) / 2 == c / 2 + 1 && (c + 1) % 2 == 0;
    } else {
      assert (c + 1) / 2 == c / 2 && (c + 1) % 2 == 1;
    }
  }

  // ---------- Shifts ----------

  lemma {:induction false} DropShl(c: nat, k: nat)
    ensures Drop(Shl(c, k), k) == c
    decreases k
  {
    if k > 0 {
      assert Shl(c, k) / 2 == Shl(c, k - 1);
      DropShl(c, k - 1);
    }
  }

  lemma {:induction false} DropMonotone(a: nat, b: nat, k: nat)
    requires a <= b
    ensures Drop(a, k) <= Drop(b, k)
    decreases k
  {
    if k > 0 { DropMonotone(a / 2, b / 2, k - 1); }
  }

  lemma {:induction false} ShlShl(c: nat, a: nat, b: nat)
    ensures Shl(Shl(c, a), b) == Shl(c, a + b)
    decreases b
  {
    if b > 0 { ShlShl(c, a, b - 1); }
  }

  lemma {:induction false} ShlAdd(a: nat, b: nat, k: nat)
    ensures Shl(a + b, k) == Shl(a, k) + Shl(b, k)
    decreases k
  {
    if k > 0 { ShlAdd(a, b, k - 1); }
  }

  lemma {:induction false} ShlOne(k: nat)
    ensures Shl(1, k) == Pow2(k)
  {
    if k > 0 { ShlOne(k - 1); }
  }

  lemma {:induction false} ShlMonotone(a: nat, b: nat, k: nat)
    requires a <= b
    ensures Shl(a, k) <= Shl(b, k)
    decreases k
  {
    if k > 0 { ShlMonotone(a, b, k - 1); }
  }

  /** If one more changes the bits above k, then it clears the k bits below. */
  lemma {:induction false} Carry(c: nat, k: nat)
    requires Drop(c + 1, k) != Drop(c, k)
    ensures c + 1 == Shl(Drop(c + 1, k), k)
    decreases k
  {
    if k > 0 {
      assert (c + 1) / 2 == c / 2 || ((c + 1) / 2 == c / 2 + 1 && (c + 1) % 2 == 0);
      Carry(c / 2, k - 1);
    }
  }

  // ---------- The code lengths ----------

  type Lengths = seq<nat>

  /** bl_count: how many symbols have that code length. */
  function Count(lens: Lengths, l: nat): (n: nat)
    ensures n <= |lens|
  {
    if lens == [] then 0
    else Count(lens[..|lens| - 1], l) + if lens[|lens| - 1] == l then 1 else 0
  }

  /** How many codes of l bits are used up by the codes of at most l bits. */
  function Used(lens: Lengths, l: nat): nat
    decreases l
  {
    if l == 0 then 0 else 2 * Used(lens, l - 1) + Count(lens, l)
  }

  /** The code of a symbol as RFC 1951 assigns it: codes of one length are consecutive in symbol order,
      and the first is twice what the shorter ones have used up. */
  function CodeOf(lens: Lengths, s: nat): nat
    requires s < |lens| && lens[s] > 0
  {
    2 * Used(lens, lens[s] - 1) + Count(lens[..s], lens[s])
  }

  /** No length has more codes than there are. */
  ghost predicate NotOversubscribed(lens: Lengths)
  {
    forall l: nat :: l <= 15 ==> Fits(lens, l)
  }

  predicate Fits(lens: Lengths, l: nat) { Used(lens, l) <= Pow2(l) }

  predicate Bounded(lens: Lengths)
  {
    forall s :: 0 <= s < |lens| ==> lens[s] <= 15
  }

  lemma {:induction false} CountSplit(lens: Lengths, s: nat, l: nat)
    requires s < |lens|
    ensures Count(lens[..s], l) + (if lens[s] == l then 1 else 0) == Count(lens[..s + 1], l) <= Count(lens, l)
    decreases |lens|
  {
    if s == |lens| - 1 {
      assert lens[..s + 1] == lens;
    } else {
      var t := lens[..|lens| - 1];
      CountSplit(t, s, l);
      assert t[..s] == lens[..s] && t[..s + 1] == lens[..s + 1];
    }
    assert lens[..s + 1][..s] == lens[..s];
  }

  lemma CodeBound(lens: Lengths, s: nat)
    requires s < |lens| && 0 < lens[s] <= 15 && NotOversubscribed(lens)
    ensures CodeOf(lens, s) < Used(lens, lens[s]) <= Pow2(lens[s])
  {
    CountSplit(lens, s, lens[s]);
    assert Fits(lens, lens[s]);
  }

  /** The k-th symbol of a length. */
  lemma {:induction false} KthSymbol(lens: Lengths, l: nat, k: nat) returns (s: nat)
    requires k < Count(lens, l)
    ensures s < |lens| && lens[s] == l && Count(lens[..s], l) == k
    decreases |lens|
  {
    var t := lens[..|lens| - 1];
    if k < Count(t, l) {
      s := KthSymbol(t, l, k);
      assert t[..s] == lens[..s];
    } else {
      s := |lens| - 1;
    }
  }

  lemma {:induction false} UsedGrows(lens: Lengths, a: nat, b: nat)
    requires a <= b
    ensures Shl(Used(lens, a), b - a) <= Used(lens, b)
    decreases b
  {
    if a < b { UsedGrows(lens, a, b - 1); }
  }

  /** In a complete set every stream starts with the code of some symbol. */
  lemma {:induction false} SomeCode(lens: Lengths, x: nat, l: nat) returns (s: nat)
    requires Msb(x, l) < Used(lens, l)
    ensures s < |lens| && 0 < lens[s] <= l && Msb(x, lens[s]) == CodeOf(lens, s)
    decreases l
  {
    if l == 0 {
      assert false;
    } else if Msb(x, l - 1) < Used(lens, l - 1) {
      s := SomeCode(lens, x, l - 1);
    } else {
      s := KthSymbol(lens, l, Msb(x, l) - 2 * Used(lens, l - 1));
    }
  }

  // ---------- Different symbols ----------

  ghost predicate Coded(lens: Lengths, s: nat)
  {
    s < |lens| && 0 < lens[s] <= 15
  }

  lemma {:induction false} CountMonotone(lens: Lengths, a: nat, b: nat, l: nat)
    requires a <= b <= |lens|
    ensures Count(lens[..a], l) <= Count(lens[..b], l) <= Count(lens, l)
    decreases |lens| - a
  {
    if a < b {
      CountMonotone(lens, a + 1, b, l);
      CountSplit(lens, a, l);
    } else if b < |lens| {
      CountMonotone(lens, b + 1, |lens|, l);
      CountSplit(lens, b, l);
    } else {
      assert lens[..b] == lens;
    }
  }

  /** Of two symbols with one length the later one has the greater code. */
  lemma SameLength(lens: Lengths, s: nat, t: nat)
    requires Coded(lens, s) && t < |lens| && lens[t] == lens[s] && s < t
    ensures Count(lens[..s], lens[s]) < Count(lens[..t], lens[s]) && CodeOf(lens, s) < CodeOf(lens, t)
  {
    CountMonotone(lens, s + 1, t, lens[s]);
    CountSplit(lens, s, lens[s]);
  }

  /** A longer code starts beyond everything that codes of at most a bits use up. */
  lemma AfterShorter(lens: Lengths, t: nat, a: nat)
    requires Coded(lens, t) && a < lens[t]
    ensures CodeOf(lens, t) >= Shl(Used(lens, a), lens[t] - a)
    ensures Drop(CodeOf(lens, t), lens[t] - a) >= Used(lens, a)
  {
    var b := lens[t];
    UsedGrows(lens, a, b - 1);
    DropMonotone(Shl(Used(lens, a), b - a), CodeOf(lens, t), b - a);
    DropShl(Used(lens, a), b - a);
  }

  lemma LongerCode(lens: Lengths, s: nat, t: nat)
    requires Coded(lens, s) && Coded(lens, t) && lens[s] < lens[t]
    ensures Drop(CodeOf(lens, t), lens[t] - lens[s]) > CodeOf(lens, s)
  {
    CountSplit(lens, s, lens[s]);
    AfterShorter(lens, t, lens[s]);
  }

  /** No code is the beginning of another one. */
  lemma PrefixFree(lens: Lengths, s: nat, t: nat, x: nat)
    requires Coded(lens, s) && Coded(lens, t) && s != t
    ensures !(Msb(x, lens[s]) == CodeOf(lens, s) && Msb(x, lens[t]) == CodeOf(lens, t))
  {
    if lens[s] == lens[t] {
      if s < t { SameLength(lens, s, t); } else { SameLength(lens, t, s); }
    } else if lens[s] < lens[t] {
      LongerCode(lens, s, t);
      MsbDrop(x, lens[s], lens[t]);
    } else {
      LongerCode(lens, t, s);
      MsbDrop(x, lens[t], lens[s]);
    }
  }

  // ---------- The sorted symbols ----------

  /** offs: where the symbols of a length start in the sorted order. */
  function Offs(lens: Lengths, l: nat): nat
    decreases l
  {
    if l <= 1 then 0 else Offs(lens, l - 1) + Count(lens, l - 1)
  }

  /** The place of a symbol in the order by length, then by symbol. */
  function Place(lens: Lengths, s: nat): nat
    requires s < |lens|
  {
    Offs(lens, lens[s]) + Count(lens[..s], lens[s])
  }

  /** The symbols that have a code, each at its place. */
  ghost predicate Sorted(lens: Lengths, w: seq<nat>)
  {
    && (forall s: nat {:trigger InPlace(lens, w, s)} :: Coded(lens, s) ==> InPlace(lens, w, s))
    && forall i :: 0 <= i < |w| ==> Coded(lens, w[i]) && Place(lens, w[i]) == i
  }

  ghost predicate InPlace(lens: Lengths, w: seq<nat>, s: nat)
    requires Coded(lens, s)
  {
    Place(lens, s) < |w| && w[Place(lens, s)] == s
  }

  lemma {:induction false} OffsMonotone(lens: Lengths, a: nat, b: nat)
    requires a <= b
    ensures Offs(lens, a) <= Offs(lens, b)
    decreases b
  {
    if a < b { OffsMonotone(lens, a, b - 1); }
  }

  lemma PlaceBound(lens: Lengths, s: nat)
    requires Coded(lens, s)
    ensures Offs(lens, lens[s]) <= Place(lens, s) < Offs(lens, lens[s] + 1)
  {
    CountSplit(lens, s, lens[s]);
  }

  /** Every place holds a symbol. */
  lemma {:induction false} SymbolAt(lens: Lengths, i: nat, l: nat) returns (s: nat)
    requires i < Offs(lens, l + 1) && l <= 15
    ensures Coded(lens, s) && Place(lens, s) == i
    decreases l
  {
    if l == 0 {
      assert false;
    } else if i < Offs(lens, l) {
      s := SymbolAt(lens, i, l - 1);
    } else {
      s := KthSymbol(lens, l, i - Offs(lens, l));
    }
  }

  /** The order by place is the order by length, then by symbol. */
  lemma EarlierPlace(lens: Lengths, s: nat, t: nat)
    requires Coded(lens, s) && Coded(lens, t) && Place(lens, s) < Place(lens, t)
    ensures lens[s] < lens[t] || (lens[s] == lens[t] && s < t)
  {
    PlaceBound(lens, s);
    PlaceBound(lens, t);
    if lens[t] < lens[s] { OffsMonotone(lens, lens[t] + 1, lens[s]); }
    if lens[s] == lens[t] && t < s { SameLength(lens, t, s); }
  }

  lemma {:induction false} NoneBetween(lens: Lengths, a: nat, b: nat)
    requires 1 <= a <= b && Offs(lens, a) == Offs(lens, b)
    ensures 1 <= a && 2 * Used(lens, b - 1) == Shl(2 * Used(lens, a - 1), b - a)
    decreases b
  {
    if a < b {
      OffsMonotone(lens, a, b - 1);
      NoneBetween(lens, a, b - 1);
      assert Count(lens, b - 1) == 0;
    }
  }

  /** The next code is the increment, with zeros appended if it is longer. */
  lemma NextCode(lens: Lengths, s: nat, t: nat)
    requires Coded(lens, s) && Coded(lens, t) && Place(lens, t) == Place(lens, s) + 1
    ensures lens[s] <= lens[t] && CodeOf(lens, t) == Shl(CodeOf(lens, s) + 1, lens[t] - lens[s])
  {
    EarlierPlace(lens, s, t);
    if lens[s] < lens[t] { NextLonger(lens, s, t); }
  }

  lemma NextLonger(lens: Lengths, s: nat, t: nat)
    requires Coded(lens, s) && Coded(lens, t) && Place(lens, t) == Place(lens, s) + 1 && lens[s] < lens[t]
    ensures CodeOf(lens, s) + 1 == Used(lens, lens[s])
    ensures CodeOf(lens, t) == Shl(Used(lens, lens[s]), lens[t] - lens[s])
  {
    var a, b := lens[s], lens[t];
    PlaceBound(lens, s);
    PlaceBound(lens, t);
    OffsMonotone(lens, a + 1, b);
    LastOfLength(lens, s);
    FirstOfLength(lens, t);
    NoneBetween(lens, a + 1, b);
    DoubleShl(Used(lens, a), b - a);
  }

  lemma LastOfLength(lens: Lengths, s: nat)
    requires Coded(lens, s) && Place(lens, s) + 1 == Offs(lens, lens[s] + 1)
    ensures CodeOf(lens, s) + 1 == Used(lens, lens[s])
  {
  }

  lemma FirstOfLength(lens: Lengths, s: nat)
    requires Coded(lens, s) && Place(lens, s) == Offs(lens, lens[s])
    ensures CodeOf(lens, s) == 2 * Used(lens, lens[s] - 1)
  {
  }

  lemma {:induction false} DoubleShl(c: nat, k: nat)
    requires k > 0
    ensures Shl(2 * c, k - 1) == Shl(c, k)
    decreases k
  {
    if k > 1 { DoubleShl(c, k - 1); }
  }

  lemma FirstCode(lens: Lengths, s: nat)
    requires Coded(lens, s) && Place(lens, s) == 0
    ensures CodeOf(lens, s) == 0
  {
    OffsMonotone(lens, 1, lens[s]);
    NoneBetween(lens, 1, lens[s]);
    ShlZero(lens[s] - 1);
  }

  lemma {:induction false} ShlZero(k: nat)
    ensures Shl(0, k) == 0
  {
    if k > 0 { ShlZero(k - 1); }
  }
}
