/** The Adler-32 checksum of src/zlib/adler32.c against section 8.2 of RFC 1950. */
module Adler32 {
  import opened Options

  const BASE: nat := 65521
  const NMAX: nat := 5552

  newtype Byte = b: int | 0 <= b < 256

  // ---------- Section 8.2 of RFC 1950 ----------

  /** The two sums, each kept modulo BASE after every byte. */
  datatype Sums = Sums(a: nat, b: nat)

  function Add(s: Sums, d: Byte): Sums
  {
    var a := (s.a + d as nat) % BASE;
    Sums(a, (s.b + a) % BASE)
  }

  function Textbook(s: Sums, data: seq<Byte>): Sums
    decreases data
  {
    if data == [] then s else Textbook(Add(s, data[0]), data[1..])
  }

  const ONE := Sums(1, 0)

  /** The 32-bit checksum word and its halves. */
  function Word(s: Sums): nat { s.a + s.b * 0x1_0000 }

  function Halves(adler: nat): Sums { Sums(adler % 0x1_0000, adler / 0x1_0000 % 0x1_0000) }

  predicate Reduced(s: Sums) { s.a < BASE && s.b < BASE }

  // ---------- Deferred reduction ----------

  /** The sums after some bytes without any reduction. */
  function Plain(s: Sums, data: seq<Byte>): Sums
    decreases data
  {
    if data == [] then s
    else Plain(Sums(s.a + data[0] as nat, s.b + s.a + data[0] as nat), data[1..])
  }

  function Mod(s: Sums): Sums { Sums(s.a % BASE, s.b % BASE) }

  lemma ModOfSum(x: nat, y: nat)
    ensures (x % BASE + y) % BASE == (x + y) % BASE
    ensures (x % BASE + y % BASE) % BASE == (x + y) % BASE
  {
  }

  lemma StepMod(s: Sums, u: Sums, d: Byte)
    requires Mod(s) == Mod(u)
    ensures Mod(Sums(s.a + d as nat, s.b + s.a + d as nat)) == Mod(Add(u, d))
  {
    var a := s.a + d as nat;
    ModOfSum(s.a, d as nat);
    ModOfSum(u.a, d as nat);
    ModOfSum(s.b, a);
    ModOfSum(u.b, (u.a + d as nat) % BASE);
  }

  /** Reducing late or early makes no difference. */
  lemma {:induction false} PlainIsTextbook(s: Sums, u: Sums, data: seq<Byte>)
    requires Mod(s) == Mod(u)
    ensures Mod(Plain(s, data)) == Mod(Textbook(u, data))
    decreases data
  {
    if data != [] {
      var d := data[0];
      StepMod(s, u, d);
      PlainIsTextbook(Sums(s.a + d as nat, s.b + s.a + d as nat), Add(u, d), data[1..]);
    }
  }

  lemma {:induction false} TextbookReduced(s: Sums, data: seq<Byte>)
    requires Reduced(s)
    ensures Reduced(Textbook(s, data))
    decreases data
  {
    if data != [] { TextbookReduced(Add(s, data[0]), data[1..]); }
  }

  lemma {:induction false} TextbookConcat(s: Sums, x: seq<Byte>, y: seq<Byte>)
    ensures Textbook(s, x + y) == Textbook(Textbook(s, x), y)
    decreases x
  {
    if x == [] {
      assert x + y == y;
    } else {
      assert (x + y)[1..] == x[1..] + y;
      TextbookConcat(Add(s, x[0]), x[1..], y);
    }
  }

  lemma {:induction false} PlainSnoc(s: Sums, data: seq<Byte>, d: Byte)
    ensures var p := Plain(s, data); Plain(s, data + [d]) == Sums(p.a + d as nat, p.b + p.a + d as nat)
    decreases data
  {
    if data == [] {
      assert data + [d] == [d];
    } else {
      assert (data + [d])[1..] == data[1..] + [d];
      PlainSnoc(Sums(s.a + data[0] as nat, s.b + s.a + data[0] as nat), data[1..], d);
    }
  }

  /** One NMAX block of any bytes from any two 16-bit halves fits 32 bits, at every byte. */
  lemma {:induction false} BlockFits(s: Sums, data: seq<Byte>)
    requires s.a <= 0xffff && s.b <= 0xffff && |data| <= NMAX
    ensures var p := Plain(s, data); p.a <= p.b + 0xffff && p.a < 0x1_0000_0000 && p.b < 0x1_0000_0000
    ensures var p := Plain(s, data); var n := |data|;
            p.a <= 0xffff + 255 * n && 2 * p.b <= 2 * 0xffff * (n + 1) + 255 * (n * (n + 1))
    decreases |data|
  {
    var n := |data|;
    if n == 0 {
    } else {
      var init, d := data[..n - 1], data[n - 1];
      assert data == init + [d];
      PlainSnoc(s, init, d);
      BlockFits(s, init);
      assert (n - 1) * n + 2 * n == n * (n + 1);
    }
    assert n * (n + 1) <= NMAX * (NMAX + 1) by { Monotone(n, NMAX); }
  }

  lemma Monotone(n: nat, m: nat)
    requires n <= m
    ensures n * (n + 1) <= m * (m + 1)
  {
    assert n * (n + 1) <= m * (n + 1) <= m * (m + 1);
  }

  // ---------- The code ----------

  /** A sum that fits the 32 bits that any platform's unsigned long has. */
  predicate Fits(s: Sums) { s.a < 0x1_0000_0000 && s.b < 0x1_0000_0000 }

  /** DO1 over the next bytes, without reduction; no sum overflows on the way. */
  method Accumulate(s: Sums, data: seq<Byte>, ghost block: seq<Byte>, ghost start: Sums) returns (r: Sums)
    requires s == Plain(start, block) && start.a <= 0xffff && start.b <= 0xffff
    requires |block| + |data| <= NMAX
    ensures r == Plain(start, block + data) && Fits(r)
  {
    var a: nat, b: nat := s.a, s.b;
    assert block + data[..0] == block;
    for i := 0 to |data|
      invariant Sums(a, b) == Plain(start, block + data[..i])
    {
      PlainSnoc(start, block + data[..i], data[i]);
      BlockFits(start, block + data[..i + 1]);
      assert block + data[..i] + [data[i]] == block + data[..i + 1];
      a := a + data[i] as nat;
      b := b + a;
      assert a < 0x1_0000_0000 && b < 0x1_0000_0000;
    }
    assert data[..|data|] == data;
    BlockFits(start, block + data);
    r := Sums(a, b);
  }

  /** The NMAX / 16 unrolled sixteens of one block. */
  method NmaxBlock(s: Sums, block: seq<Byte>) returns (p: Sums)
    requires s.a <= 0xffff && s.b <= 0xffff && |block| == NMAX
    ensures p == Plain(s, block) && Fits(p)
  {
    var n: nat := NMAX / 16;
    p := s;
    var at: nat := 0;
    BlockFits(s, []);
    while n > 0
      invariant at == NMAX - 16 * n && p == Plain(s, block[..at]) && Fits(p)
    {
      p := Accumulate(p, block[at..at + 16], block[..at], s);
      assert block[..at] + block[at..at + 16] == block[..at + 16];
      at := at + 16;
      n := n - 1;
    }
    assert block[..at] == block;
  }

  /** What is left after the full blocks: sixteens, then single bytes. */
  method LastBlock(s: Sums, rest: seq<Byte>) returns (p: Sums)
    requires s.a <= 0xffff && s.b <= 0xffff && |rest| < NMAX
    ensures p == Plain(s, rest) && Fits(p)
  {
    p := s;
    var at: nat := 0;
    while |rest| - at >= 16
      invariant at <= |rest| && p == Plain(s, rest[..at])
    {
      p := Accumulate(p, rest[at..at + 16], rest[..at], s);
      assert rest[..at] + rest[at..at + 16] == rest[..at + 16];
      at := at + 16;
    }
    p := Accumulate(p, rest[at..], rest[..at], s);
    assert rest[..at] + rest[at..] == rest;
  }

  /** The path for fewer than 16 bytes: adler needs at most one subtraction. */
  method ShortPath(s: Sums, data: seq<Byte>) returns (r: Sums)
    requires s.a <= 0xffff && s.b <= 0xffff && |data| < 16
    ensures r == Mod(Plain(s, data))
  {
    var p := Accumulate(s, data, [], s);
    assert [] + data == data;
    BlockFits(s, data);
    r := Sums(if p.a >= BASE then p.a - BASE else p.a, p.b % BASE);
  }

  /** The path for a single byte: one subtraction from each sum. */
  method OneBytePath(s: Sums, d: Byte) returns (r: Sums)
    requires s.a <= 0xffff && s.b <= 0xffff
    ensures r.a < BASE && r.b <= 0xffff && Mod(r) == Mod(Add(s, d))
    ensures Reduced(s) ==> r == Add(s, d)
  {
    var a: nat, b: nat := s.a + d as nat, s.b;
    if a >= BASE { a := a - BASE; }
    assert a == (s.a + d as nat) % BASE;
    b := b + a;
    if b >= BASE { b := b - BASE; }
    r := Sums(a, b);
  }

  /** The path for 16 bytes and more: one reduction a block. */
  method BlockPath(s0: Sums, data: seq<Byte>) returns (s: Sums)
    requires s0.a <= 0xffff && s0.b <= 0xffff && data != []
    ensures Reduced(s) && Mod(s) == Mod(Textbook(s0, data))
  {
    s := s0;
    var rest := data;
    while |rest| >= NMAX
      invariant s.a <= 0xffff && s.b <= 0xffff
      invariant Mod(Textbook(s, rest)) == Mod(Textbook(s0, data))
      invariant Reduced(s) || rest == data
      decreases |rest|
    {
      var p := NmaxBlock(s, rest[..NMAX]);
      BlockDone(s, rest, NMAX, p);
      s := Mod(p);
      rest := rest[NMAX..];
    }
    if rest != [] {
      assert rest[..|rest|] == rest && rest[|rest|..] == [];
      var p := LastBlock(s, rest);
      BlockDone(s, rest, |rest|, p);
      s := Mod(p);
    }
  }

  lemma TextbookOne(s: Sums, data: seq<Byte>)
    requires |data| == 1
    ensures Textbook(s, data) == Add(s, data[0])
  {
    assert data[1..] == [];
    assert Textbook(Add(s, data[0]), []) == Add(s, data[0]);
  }

  lemma ReducedIsMod(u: Sums)
    requires Reduced(u)
    ensures Mod(u) == u
  {
  }

  lemma HalvesOfWord(u: Sums)
    requires u.a <= 0xffff && u.b <= 0xffff
    ensures Word(u) < 0x1_0000_0000 && Halves(Word(u)) == u
  {
  }

  /** adler32_z. */
  method Adler32z(adler: nat, buf: Option<seq<Byte>>) returns (r: nat)
    requires adler < 0x1_0000_0000
    ensures buf == None ==> r == Word(ONE)
    ensures buf.Some? ==> r < 0x1_0000_0000 && Mod(Halves(r)) == Mod(Textbook(Halves(adler), buf.value))
    ensures buf.Some? && Reduced(Halves(adler)) ==> r == Word(Textbook(Halves(adler), buf.value))
  {
    if buf == None { return 1; }
    var s, data := Halves(adler), buf.value;
    ghost var end := Textbook(s, data);
    if Reduced(s) { TextbookReduced(s, data); ReducedIsMod(end); }
    var u: Sums;
    if |data| == 1 {
      u := OneBytePath(s, data[0]);
      TextbookOne(s, data);
    } else if |data| < 16 {
      PlainIsTextbook(s, s, data);
      u := ShortPath(s, data);
      ReducedIsMod(u);
    } else {
      u := BlockPath(s, data);
    }
    assert Mod(u) == Mod(end);
    if Reduced(s) { assert Reduced(u); ReducedIsMod(u); }
    HalvesOfWord(u);
    r := Word(u);
  }

  lemma BlockDone(s: Sums, rest: seq<Byte>, n: nat, p: Sums)
    requires n <= |rest| && p == Plain(s, rest[..n])
    ensures Mod(Textbook(Mod(p), rest[n..])) == Mod(Textbook(s, rest))
    ensures Reduced(Mod(p)) && Mod(Mod(p)) == Mod(p)
  {
    assert rest == rest[..n] + rest[n..];
    TextbookConcat(s, rest[..n], rest[n..]);
    PlainIsTextbook(s, s, rest[..n]);
    SameFrom(Textbook(s, rest[..n]), Mod(p), rest[n..]);
  }

  lemma SameFrom(s: Sums, u: Sums, data: seq<Byte>)
    requires Mod(s) == Mod(u)
    ensures Mod(Textbook(s, data)) == Mod(Textbook(u, data))
  {
    PlainIsTextbook(s, u, data);
    PlainIsTextbook(s, s, data);
  }

  /** How the two sums depend on where they start. */
  lemma {:induction false} PlainShift(s: Sums, data: seq<Byte>)
    ensures var p := Plain(Sums(0, 0), data);
            Plain(s, data) == Sums(s.a + p.a, s.b + p.b + |data| * s.a)
    decreases |data|
  {
    var n := |data|;
    if n > 0 {
      var init, d := data[..n - 1], data[n - 1];
      assert data == init + [d];
      PlainSnoc(s, init, d);
      PlainSnoc(Sums(0, 0), init, d);
      PlainShift(s, init);
      assert n * s.a == (n - 1) * s.a + s.a;
    }
  }

  /** adler32_combine_. */
  method Combine(adler1: nat, adler2: nat, len2: int) returns (r: nat)
    requires adler1 < 0x1_0000_0000 && adler2 < 0x1_0000_0000
    ensures len2 < 0 ==> r == 0xffff_ffff
    ensures len2 >= 0 ==> r == CombineWord(Halves(adler1), Halves(adler2), len2)
  {
    if len2 < 0 { return 0xffff_ffff; }
    var rem := len2 % BASE;
    var sum1 := adler1 % 0x1_0000;
    assert rem * sum1 <= 65520 * 0xffff;
    var sum2 := rem * sum1;
    sum2 := sum2 % BASE;
    sum1 := sum1 + adler2 % 0x1_0000 + BASE - 1;
    sum2 := sum2 + adler1 / 0x1_0000 % 0x1_0000 + adler2 / 0x1_0000 % 0x1_0000 + BASE - rem;
    if sum1 >= BASE { sum1 := sum1 - BASE; }
    if sum1 >= BASE { sum1 := sum1 - BASE; }
    if sum2 >= 2 * BASE { sum2 := sum2 - 2 * BASE; }
    if sum2 >= BASE { sum2 := sum2 - BASE; }
    r := sum1 + sum2 * 0x1_0000;
  }

  function DropTwice(x: nat): nat { if x >= 2 * BASE then x - 2 * BASE else if x >= BASE then x - BASE else x }

  function DropThrice(x: nat): nat
  {
    var y := if x >= 2 * BASE then x - 2 * BASE else x;
    if y >= BASE then y - BASE else y
  }

  function CombineWord(x: Sums, y: Sums, n: nat): nat
  {
    var rem := n % BASE;
    DropTwice(x.a + y.a + BASE - 1) + DropThrice(rem * x.a % BASE + x.b + y.b + BASE - rem) * 0x1_0000
  }

  /** Combining the checksums of two parts gives the checksum of their concatenation. */
  lemma CombineIsConcat(x: seq<Byte>, y: seq<Byte>)
    ensures CombineWord(Textbook(ONE, x), Textbook(ONE, y), |y|) == Word(Textbook(ONE, x + y))
  {
    var s, t, u := Textbook(ONE, x), Textbook(ONE, y), Textbook(ONE, x + y);
    TextbookReduced(ONE, x);
    TextbookReduced(ONE, y);
    TextbookConcat(ONE, x, y);
    var p := Plain(Sums(0, 0), y);
    FromAnywhere(ONE, y);
    FromAnywhere(s, y);
    FirstSum(s.a, p.a, t.a);
    SecondSum(|y|, s.a, s.b, p.b, t.b);
    DropIsMod(s.a + t.a + BASE - 1);
    DropIsMod(|y| % BASE * s.a % BASE + s.b + t.b + BASE - |y| % BASE);
  }

  lemma FromAnywhere(s: Sums, y: seq<Byte>)
    requires Reduced(s)
    ensures var p := Plain(Sums(0, 0), y);
            Textbook(s, y) == Sums((s.a + p.a) % BASE, (s.b + p.b + |y| * s.a) % BASE)
  {
    PlainShift(s, y);
    var q := Plain(s, y);
    PlainIsTextbook(s, s, y);
    TextbookReduced(s, y);
    ReducedIsMod(Textbook(s, y));
    assert Textbook(s, y) == Mod(q);
  }

  lemma DropIsMod(x: nat)
    ensures x < 3 * BASE ==> DropTwice(x) == x % BASE
    ensures x < 4 * BASE ==> DropThrice(x) == x % BASE
  {
  }

  lemma FirstSum(a: nat, pa: nat, ta: nat)
    requires ta == (1 + pa) % BASE
    ensures (a + ta + BASE - 1) % BASE == (a + pa) % BASE
  {
  }

  lemma RemTimes(n: nat, a: nat)
    ensures n % BASE * a % BASE == n * a % BASE
  {
    var q := n / BASE;
    assert n * a == n % BASE * a + BASE * (q * a);
  }

  lemma SecondSum(n: nat, a: nat, b: nat, pb: nat, tb: nat)
    requires tb == (pb + n) % BASE
    ensures (n % BASE * a % BASE + b + tb + BASE - n % BASE) % BASE == (b + pb + n * a) % BASE
  {
    RemTimes(n, a);
    var na := n * a;
    var k := na / BASE;
    var m := n / BASE;
    var j := (pb + n) / BASE;
    assert na % BASE + b + tb + BASE - n % BASE == (b + pb + na) + BASE * (1 - k - j + m);
  }
}
