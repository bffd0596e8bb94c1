/** The ids of routed requests, src/router.c: "<origin>_<uuid in hex>_<address>". */
module RoutedIds {
  import opened Options

  const UUIDS: nat := 0x1_0000_0000

  function HexDigit(d: nat): char
    requires d < 16
  {
    "0123456789abcdef"[d]
  }

  /** "%x". */
  function Hex(n: nat): (s: string)
    ensures s != []
  {
    if n < 16 then [HexDigit(n)] else Hex(n / 16) + [HexDigit(n % 16)]
  }

  predicate NoUnderscore(s: string) { '_' !in s }

  /** What "%p" prints: not empty, and without underscores. */
  predicate Address(s: string) { s != [] && NoUnderscore(s) }

  function Prefix(origin: Option<string>): string
  {
    if origin.Some? then origin.value + "_" else ""
  }

  /** fill_routed_request_id. The buffer is as long as the text without its terminator, so the last
      character of the address does not fit. */
  function RoutedId(origin: Option<string>, uuid: nat, address: string): string
    requires Address(address)
  {
    var text := Prefix(origin) + Hex(uuid) + "_" + address;
    text[..|text| - 1]
  }

  lemma {:induction false} HexHasNoUnderscore(n: nat)
    ensures NoUnderscore(Hex(n))
  {
    if n >= 16 { HexHasNoUnderscore(n / 16); }
  }

  lemma DigitInjective(d: nat, e: nat)
    requires d < 16 && e < 16 && HexDigit(d) == HexDigit(e)
    ensures d == e
  {
  }

  lemma {:induction false} HexInjective(n: nat, m: nat)
    requires Hex(n) == Hex(m)
    ensures n == m
    decreases n
  {
    var s, t := Hex(n), Hex(m);
    assert s[|s| - 1] == HexDigit(n % 16) && t[|t| - 1] == HexDigit(m % 16);
    DigitInjective(n % 16, m % 16);
    if n >= 16 && m >= 16 {
      assert s[..|s| - 1] == Hex(n / 16) && t[..|t| - 1] == Hex(m / 16);
      HexInjective(n / 16, m / 16);
    } else {
      assert |Hex(n / 16)| > 0 && |Hex(m / 16)| > 0;
    }
  }

  lemma NoLaterUnderscore(x: string, a: string)
    requires NoUnderscore(a)
    ensures forall i :: |x| < i < |x + "_" + a| ==> (x + "_" + a)[i] != '_'
  {
    forall i | |x| < i < |x + "_" + a| ensures (x + "_" + a)[i] != '_' {
      assert (x + "_" + a)[i] == a[i - |x| - 1];
    }
  }

  /** The text before the last underscore is determined by the whole. */
  lemma LastUnderscore(x: string, a: string, y: string, b: string)
    requires x + "_" + a == y + "_" + b && NoUnderscore(a) && NoUnderscore(b)
    ensures x == y && a == b
  {
    var s, t := x + "_" + a, y + "_" + b;
    assert s[|x|] == '_' && t[|y|] == '_';
    NoLaterUnderscore(x, a);
    NoLaterUnderscore(y, b);
    assert s[..|x|] == x && t[..|y|] == y && s[|x| + 1..] == a && t[|y| + 1..] == b;
  }

  /** Equal ids carry equal uuids, whatever origin ids the clients chose. */
  lemma SameIdSameUuid(o1: Option<string>, u1: nat, a1: string, o2: Option<string>, u2: nat, a2: string)
    requires Address(a1) && Address(a2) && RoutedId(o1, u1, a1) == RoutedId(o2, u2, a2)
    ensures u1 == u2
  {
    HexHasNoUnderscore(u1);
    HexHasNoUnderscore(u2);
    var x, y := Prefix(o1) + Hex(u1), Prefix(o2) + Hex(u2);
    var b1, b2 := a1[..|a1| - 1], a2[..|a2| - 1];
    assert RoutedId(o1, u1, a1) == x + "_" + b1;
    assert RoutedId(o2, u2, a2) == y + "_" + b2;
    LastUnderscore(x, b1, y, b2);
    PrefixSplit(o1, Hex(u1), o2, Hex(u2));
    HexInjective(u1, u2);
  }

  lemma UnderscoreMeansOrigin(o: Option<string>, h: string)
    requires NoUnderscore(h)
    ensures '_' in Prefix(o) + h <==> o.Some?
  {
    if o.Some? { assert (Prefix(o) + h)[|o.value|] == '_'; } else { assert Prefix(o) + h == h; }
  }

  lemma PrefixSplit(o1: Option<string>, h1: string, o2: Option<string>, h2: string)
    requires Prefix(o1) + h1 == Prefix(o2) + h2 && NoUnderscore(h1) && NoUnderscore(h2)
    ensures h1 == h2
  {
    UnderscoreMeansOrigin(o1, h1);
    UnderscoreMeansOrigin(o2, h2);
    if o1.Some? {
      LastUnderscore(o1.value, h1, o2.value, h2);
    } else {
      assert Prefix(o1) + h1 == h1 && Prefix(o2) + h2 == h2;
    }
  }

  /** Requests fewer than 2^32 apart have different ids. */
  lemma DistinctIds(n: nat, m: nat, o1: Option<string>, a1: string, o2: Option<string>, a2: string)
    requires n < m < n + UUIDS && Address(a1) && Address(a2)
    ensures RoutedId(o1, n % UUIDS, a1) != RoutedId(o2, m % UUIDS, a2)
  {
    if RoutedId(o1, n % UUIDS, a1) == RoutedId(o2, m % UUIDS, a2) {
      SameIdSameUuid(o1, n % UUIDS, a1, o2, m % UUIDS, a2);
    }
  }
}
