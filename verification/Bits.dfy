/** The 32-bit masks of hashtable.h and groups.c, read as natural numbers.
    Bit(h, i) is `(h >> i) & 1`, SetBit is `h | (1 << d)`, ClearBit is `h & ~(1 << d)`
    and And is `a & b`. */
module Bits {

  predicate Bit(h: nat, i: nat)
  {
    if i == 0 then h % 2 == 1 else Bit(h / 2, i - 1)
  }

  function SetBit(h: nat, d: nat): nat
    decreases d
  {
    if d == 0 then (if h % 2 == 1 then h else h + 1)
    else 2 * SetBit(h / 2, d - 1) + h % 2
  }

  function ClearBit(h: nat, d: nat): nat
    decreases d
  {
    if d == 0 then (if h % 2 == 1 then h - 1 else h)
    else 2 * ClearBit(h / 2, d - 1) + h % 2
  }

  function And(a: nat, b: nat): nat
    decreases a
  {
    if a == 0 then 0 else 2 * And(a / 2, b / 2) + (if a % 2 == 1 && b % 2 == 1 then 1 else 0)
  }

  function Shr(h: nat, d: nat): nat
    decreases d
  {
    if d == 0 then h else Shr(h, d - 1) / 2
  }

  lemma {:induction false} BitOfShr(h: nat, d: nat, i: nat)
    ensures Bit(Shr(h, d), i) <==> Bit(h, d + i)
    decreases d
  {
    if d > 0 { BitOfShr(h, d - 1, i + 1); }
  }

  lemma {:induction false} BitOfZero(i: nat)
    ensures !Bit(0, i)
  {
    if i > 0 { BitOfZero(i - 1); }
  }

  lemma {:induction false} BitOfSet(h: nat, d: nat, i: nat)
    ensures Bit(SetBit(h, d), i) <==> i == d || Bit(h, i)
  {
    if d > 0 {
      var r := SetBit(h / 2, d - 1);
      assert (2 * r + h % 2) / 2 == r;
      if i > 0 { BitOfSet(h / 2, d - 1, i - 1); }
    } else if i > 0 {
      assert (h + 1) / 2 == h / 2 || h % 2 == 1;
    }
  }

  lemma {:induction false} BitOfClear(h: nat, d: nat, i: nat)
    ensures Bit(ClearBit(h, d), i) <==> i != d && Bit(h, i)
  {
    if d > 0 {
      var r := ClearBit(h / 2, d - 1);
      assert (2 * r + h % 2) / 2 == r;
      if i > 0 { BitOfClear(h / 2, d - 1, i - 1); }
    } else if i > 0 {
      assert h % 2 == 1 ==> (h - 1) / 2 == h / 2;
    }
  }

  lemma {:induction false} BitOfAnd(a: nat, b: nat, i: nat)
    ensures Bit(And(a, b), i) <==> Bit(a, i) && Bit(b, i)
    decreases i
  {
    if a == 0 {
      BitOfZero(i);
    } else {
      var r := And(a / 2, b / 2);
      assert And(a, b) / 2 == r;
      if i > 0 { BitOfAnd(a / 2, b / 2, i - 1); }
    }
  }

  /** A mask is nonzero exactly when it has a bit. */
  lemma {:induction false} LowestBit(h: nat) returns (i: nat)
    requires h != 0
    ensures Bit(h, i)
  {
    if h % 2 == 1 { i := 0; } else { var j := LowestBit(h / 2); i := j + 1; }
  }
}
