/** The hopscotch hash table of src/hashtable.h.

    A table is three columns over the same slots. Bit d of hop[b] says that the slot d places
    after bucket b holds an entry whose home bucket is b. Everything the table answers follows
    from those bits: a slot that no bit names may hold a stale key. */
module HopscotchModel {
  import opened Bits
  import opened Options

  /** Number of bits in hop_info. */
  const HOP_RANGE: nat := 32

  /** The "no slot" result of find_closer_entry. */
  const NO_SLOT: nat := 0xffff_ffff

  datatype Config = Config(hash: nat -> nat, invalid: nat, size: nat)

  datatype Table<+V> = Table(hop: seq<nat>, key: seq<nat>, val: seq<V>)

  ghost predicate GoodConfig(c: Config)
  {
    0 < c.size <= 0x8000_0000 && forall k :: c.hash(k) < c.size
  }

  ghost predicate Shape<V>(c: Config, t: Table<V>)
  {
    GoodConfig(c) && |t.hop| == c.size && |t.key| == c.size && |t.val| == c.size
  }

  /** wrap_pos for the sums and differences the table forms. */
  function Wrap(x: int, n: nat): (r: nat)
    requires 0 <= x + n && x < 2 * n
    ensures r < n
  {
    if x < 0 then x + n else if x >= n then x - n else x
  }

  /** The slot d places after, or before, slot b. */
  function After(n: nat, b: nat, d: nat): (r: nat)
    requires b < n && d < n
    ensures r < n
  {
    Wrap(b + d, n)
  }

  function Before(n: nat, b: nat, d: nat): (r: nat)
    requires b < n && d < n
    ensures r < n
  {
    Wrap(b - d, n)
  }

  /** The mask `pos & (size - 1)` on wrapping 32-bit positions is Wrap. */
  lemma WrapIsMask(x: int, n: nat, m: nat)
    requires n * m == 0x1_0000_0000 && 0 <= x + n && x < 2 * n
    ensures (x % 0x1_0000_0000) % n == Wrap(x, n)
  {
    var w := x % 0x1_0000_0000;
    var q := if x < 0 then m - 1 else if x < n then 0 else 1;
    if m == 1 && x >= n {
      assert w == x - n;
      q := 0;
    } else {
      assert m > 1 || x < n;
      assert x < 0x1_0000_0000 by { assert m > 1 ==> n * 2 <= n * m; }
      assert w == if x < 0 then x + n * m else x;
    }
    assert w == n * q + Wrap(x, n);
    DivModUnique(w, n, q, Wrap(x, n));
  }

  lemma DivModUnique(w: int, n: nat, q: int, r: nat)
    requires w == n * q + r && r < n
    ensures w % n == r
  {
    var d := w / n - q;
    assert n * d == r - w % n by { assert w == n * (w / n) + w % n; }
    assert d >= 1 ==> n * d >= n;
    assert d <= -1 ==> n * d + n <= 0;
  }

  /** The loop of hashtable_get: follow the bits of hop_info upwards from the home bucket. */
  function Scan<V>(n: nat, t: Table<V>, pos: nat, h: nat, k: nat): Option<V>
    requires |t.key| == n && |t.val| == n && pos < n
    decreases h
  {
    if h == 0 then None
    else if h % 2 == 1 && t.key[pos] == k then Some(t.val[pos])
    else Scan(n, t, Wrap(pos + 1, n), h / 2, k)
  }

  /** What GET answers for k. */
  ghost function Lookup<V>(c: Config, t: Table<V>, k: nat): Option<V>
    requires Shape(c, t)
  {
    Scan(c.size, t, c.hash(k), t.hop[c.hash(k)], k)
  }

  /** The partial map a table stands for: the answers of GET on every valid key. */
  ghost function Contents<V>(c: Config, t: Table<V>): map<nat, V>
    requires Shape(c, t)
  {
    map k | k in t.key && k != c.invalid && Lookup(c, t, k).Some? :: Lookup(c, t, k).value
  }

  ghost predicate Hit<V>(c: Config, t: Table<V>, k: nat, d: nat)
    requires Shape(c, t)
  {
    d < c.size && Bit(t.hop[c.hash(k)], d) && t.key[Wrap(c.hash(k) + d, c.size)] == k
  }

  /** No bit of a hop_info reaches past its 32 bits or around the table. */
  ghost predicate InRange<V>(c: Config, t: Table<V>)
    requires Shape(c, t)
  {
    forall b, d :: 0 <= b < c.size && 0 <= d && Bit(t.hop[b], d) ==> d < HOP_RANGE && d < c.size
  }

  /** The table invariant. It is driven by the hop bits alone: a named slot holds a valid key of
      the naming bucket (so no slot is named twice), and no key is named twice. */
  ghost predicate Inv<V>(c: Config, t: Table<V>)
  {
    && Shape(c, t)
    && InRange(c, t)
    && (forall b, d :: 0 <= b < c.size && 0 <= d < c.size && Bit(t.hop[b], d) ==>
          var k := t.key[Wrap(b + d, c.size)]; k != c.invalid && c.hash(k) == b)
    && (forall k, d, e :: Hit(c, t, k, d) && Hit(c, t, k, e) ==> d == e)
  }

  /** Some hop bit names slot p. */
  ghost predicate Named<V>(c: Config, t: Table<V>, p: nat)
    requires Shape(c, t) && p < c.size
  {
    exists b, d :: 0 <= b < c.size && 0 <= d < c.size && Bit(t.hop[b], d) && Wrap(b + d, c.size) == p
  }

  lemma {:induction false} ScanHit<V>(n: nat, t: Table<V>, pos: nat, h: nat, k: nat, d: nat)
    requires |t.key| == n && |t.val| == n && pos < n && d < n
    requires Bit(h, d) && t.key[Wrap(pos + d, n)] == k
    requires forall e :: 0 <= e < d && Bit(h, e) ==> t.key[Wrap(pos + e, n)] != k
    ensures Scan(n, t, pos, h, k) == Some(t.val[Wrap(pos + d, n)])
    decreases d
  {
    if h == 0 { BitOfZero(d); }
    if d > 0 {
      var next := Wrap(pos + 1, n);
      assert Wrap(next + (d - 1), n) == Wrap(pos + d, n);
      forall e | 0 <= e < d - 1 && Bit(h / 2, e) ensures t.key[Wrap(next + e, n)] != k {
        assert Bit(h, e + 1);
        assert Wrap(next + e, n) == Wrap(pos + (e + 1), n);
      }
      assert h % 2 == 1 ==> Bit(h, 0) && Wrap(pos + 0, n) == pos;
      ScanHit(n, t, next, h / 2, k, d - 1);
    }
  }

  lemma {:induction false} ScanMiss<V>(n: nat, t: Table<V>, pos: nat, h: nat, k: nat)
    requires |t.key| == n && |t.val| == n && pos < n
    requires forall e :: 0 <= e && Bit(h, e) ==> e < n && t.key[Wrap(pos + e, n)] != k
    ensures Scan(n, t, pos, h, k) == None
    decreases h
  {
    if h != 0 {
      assert h % 2 == 1 ==> Bit(h, 0) && Wrap(pos + 0, n) == pos;
      var next := Wrap(pos + 1, n);
      forall e | 0 <= e && Bit(h / 2, e) ensures e < n && t.key[Wrap(next + e, n)] != k {
        assert Bit(h, e + 1);
        assert Wrap(next + e, n) == Wrap(pos + (e + 1), n);
      }
      ScanMiss(n, t, next, h / 2, k);
    }
  }

  /** GET finds exactly the named slots. */
  lemma LookupHit<V>(c: Config, t: Table<V>, k: nat, d: nat)
    requires Shape(c, t) && Hit(c, t, k, d)
    requires forall e :: Hit(c, t, k, e) ==> e == d
    ensures Lookup(c, t, k) == Some(t.val[Wrap(c.hash(k) + d, c.size)])
  {
    forall e | 0 <= e < d && Bit(t.hop[c.hash(k)], e) ensures t.key[Wrap(c.hash(k) + e, c.size)] != k {
      assert !Hit(c, t, k, e);
    }
    ScanHit(c.size, t, c.hash(k), t.hop[c.hash(k)], k, d);
  }

  lemma LookupMiss<V>(c: Config, t: Table<V>, k: nat)
    requires Shape(c, t) && InRange(c, t)
    requires forall e :: !Hit(c, t, k, e)
    ensures Lookup(c, t, k) == None
  {
    forall e | 0 <= e && Bit(t.hop[c.hash(k)], e)
      ensures e < c.size && t.key[Wrap(c.hash(k) + e, c.size)] != k
    {
      assert !Hit(c, t, k, e);
    }
    ScanMiss(c.size, t, c.hash(k), t.hop[c.hash(k)], k);
  }

  /** Two tables that agree on which slots hit k, and on the value there, answer k alike. */
  lemma SameHits<V>(c: Config, t: Table<V>, u: Table<V>, k: nat)
    requires Shape(c, t) && InRange(c, t) && Shape(c, u) && InRange(c, u)
    requires forall d, e :: Hit(c, t, k, d) && Hit(c, t, k, e) ==> d == e
    requires forall d :: Hit(c, t, k, d) <==> Hit(c, u, k, d)
    requires forall d :: Hit(c, t, k, d) ==>
               t.val[Wrap(c.hash(k) + d, c.size)] == u.val[Wrap(c.hash(k) + d, c.size)]
    ensures Lookup(c, t, k) == Lookup(c, u, k)
  {
    if d :| Hit(c, t, k, d) {
      LookupHit(c, t, k, d);
      LookupHit(c, u, k, d);
    } else {
      LookupMiss(c, t, k);
      LookupMiss(c, u, k);
    }
  }

  lemma LookupInKeys<V>(n: nat, t: Table<V>, pos: nat, h: nat, k: nat)
    requires |t.key| == n && |t.val| == n && pos < n
    requires Scan(n, t, pos, h, k).Some?
    ensures k in t.key
    decreases h
  {
    if !(h % 2 == 1 && t.key[pos] == k) { LookupInKeys(n, t, Wrap(pos + 1, n), h / 2, k); }
  }

  /** Contents holds the answer of GET for every valid key. */
  lemma ContentsIsLookup<V>(c: Config, t: Table<V>, k: nat)
    requires Shape(c, t) && k != c.invalid
    ensures k in Contents(c, t) <==> Lookup(c, t, k).Some?
    ensures k in Contents(c, t) ==> Lookup(c, t, k) == Some(Contents(c, t)[k])
  {
    if Lookup(c, t, k).Some? { LookupInKeys(c.size, t, c.hash(k), t.hop[c.hash(k)], k); }
  }

  lemma SameContents<V>(c: Config, t: Table<V>, u: Table<V>)
    requires Shape(c, t) && Shape(c, u)
    requires forall k :: k != c.invalid ==> Lookup(c, t, k) == Lookup(c, u, k)
    ensures Contents(c, t) == Contents(c, u)
  {
    forall k | k != c.invalid
      ensures k in Contents(c, t) <==> k in Contents(c, u)
      ensures k in Contents(c, t) ==> Contents(c, t)[k] == Contents(c, u)[k]
    {
      ContentsIsLookup(c, t, k);
      ContentsIsLookup(c, u, k);
    }
  }

  /** Storing a key and a value into a slot that no bit names changes no answer, at either store. */
  lemma StoreUnnamed<V>(c: Config, t: Table<V>, p: nat, u: Table<V>)
    requires Inv(c, t) && p < c.size && !Named(c, t, p)
    requires u.hop == t.hop && |u.key| == c.size && |u.val| == c.size
    requires forall i :: 0 <= i < c.size && i != p ==> u.key[i] == t.key[i] && u.val[i] == t.val[i]
    ensures Inv(c, u) && !Named(c, u, p) && Contents(c, u) == Contents(c, t)
  {
    forall k, d | 0 <= d ensures Hit(c, t, k, d) <==> Hit(c, u, k, d) {
      assert d < c.size && Bit(t.hop[c.hash(k)], d) ==> Wrap(c.hash(k) + d, c.size) != p;
    }
    forall k ensures Lookup(c, t, k) == Lookup(c, u, k) { SameHits(c, t, u, k); }
    SameContents(c, t, u);
  }

  /** One store of hop[b] hands the entry of bucket b from distance d to its copy at distance e. */
  ghost predicate Moved<V>(c: Config, t: Table<V>, b: nat, d: nat, e: nat, u: Table<V>)
  {
    && Inv(c, t) && b < c.size && d < e < HOP_RANGE && e < c.size
    && Bit(t.hop[b], d) && !Named(c, t, Wrap(b + e, c.size))
    && t.key[Wrap(b + e, c.size)] == t.key[Wrap(b + d, c.size)]
    && t.val[Wrap(b + e, c.size)] == t.val[Wrap(b + d, c.size)]
    && u == t.(hop := t.hop[b := SetBit(ClearBit(t.hop[b], d), e)])
  }

  lemma MovedBits<V>(c: Config, t: Table<V>, b: nat, d: nat, e: nat, u: Table<V>)
    requires Moved(c, t, b, d, e, u)
    ensures !Bit(t.hop[b], e)
    ensures forall i :: 0 <= i ==> (Bit(u.hop[b], i) <==> i == e || (i != d && Bit(t.hop[b], i)))
  {
    forall i | 0 <= i ensures Bit(u.hop[b], i) <==> i == e || (i != d && Bit(t.hop[b], i)) {
      BitOfClear(t.hop[b], d, i);
      BitOfSet(ClearBit(t.hop[b], d), e, i);
    }
  }

  /** How the hits of each key change: the moved key trades distance d for e. */
  lemma MovedHits<V>(c: Config, t: Table<V>, b: nat, d: nat, e: nat, u: Table<V>, k: nat)
    requires Moved(c, t, b, d, e, u)
    ensures Shape(c, u) && InRange(c, u)
    ensures var moved := c.hash(k) == b && t.key[Wrap(b + d, c.size)] == k;
            forall i :: Hit(c, u, k, i) <==> if moved then i == e else Hit(c, t, k, i)
  {
    MovedBits(c, t, b, d, e, u);
    var moved := c.hash(k) == b && t.key[Wrap(b + d, c.size)] == k;
    assert moved ==> Hit(c, t, k, d);
    forall i ensures Hit(c, u, k, i) <==> if moved then i == e else Hit(c, t, k, i) {
      assert Hit(c, t, k, i) && moved ==> i == d;
    }
  }

  /** A move keeps the invariant, frees the slot it came from, and changes no answer. */
  lemma MoveBit<V>(c: Config, t: Table<V>, b: nat, d: nat, e: nat, u: Table<V>)
    requires Moved(c, t, b, d, e, u)
    ensures Inv(c, u) && !Named(c, u, Wrap(b + d, c.size)) && Contents(c, u) == Contents(c, t)
  {
    var from := Wrap(b + d, c.size);
    MovedBits(c, t, b, d, e, u);
    forall x, y | 0 <= x < c.size && 0 <= y < c.size && Bit(u.hop[x], y)
      ensures var k := u.key[Wrap(x + y, c.size)]; k != c.invalid && c.hash(k) == x
      ensures Wrap(x + y, c.size) != from
    {
      var y' := if x == b && y == e then d else y;
      assert Bit(t.hop[x], y');
    }
    forall k, i, j | Hit(c, u, k, i) && Hit(c, u, k, j) ensures i == j {
      MovedHits(c, t, b, d, e, u, k);
    }
    forall k ensures Lookup(c, t, k) == Lookup(c, u, k) { MovedAnswer(c, t, b, d, e, u, k); }
    SameContents(c, t, u);
  }

  lemma MovedAnswer<V>(c: Config, t: Table<V>, b: nat, d: nat, e: nat, u: Table<V>, k: nat)
    requires Moved(c, t, b, d, e, u) && Shape(c, u)
    ensures Lookup(c, t, k) == Lookup(c, u, k)
  {
    MovedHits(c, t, b, d, e, u, k);
    if c.hash(k) == b && t.key[Wrap(b + d, c.size)] == k {
      assert Hit(c, t, k, d);
      LookupHit(c, t, k, d);
      LookupHit(c, u, k, e);
    } else {
      SameHits(c, t, u, k);
    }
  }

  /** The store that makes a new entry visible: bit d of its home bucket. */
  lemma PublishBit<V>(c: Config, t: Table<V>, k: nat, d: nat, u: Table<V>)
    requires Inv(c, t) && k != c.invalid && d < HOP_RANGE && d < c.size
    requires !Named(c, t, Wrap(c.hash(k) + d, c.size)) && t.key[Wrap(c.hash(k) + d, c.size)] == k
    requires k !in Contents(c, t)
    requires u == t.(hop := t.hop[c.hash(k) := SetBit(t.hop[c.hash(k)], d)])
    ensures Inv(c, u)
    ensures Contents(c, u) == Contents(c, t)[k := t.val[Wrap(c.hash(k) + d, c.size)]]
  {
    hide Wrap, Bit;
    var b := c.hash(k);
    forall i | 0 <= i ensures Bit(u.hop[b], i) <==> i == d || Bit(t.hop[b], i) { BitOfSet(t.hop[b], d, i); }
    forall e ensures !Hit(c, t, k, e) {
      if Hit(c, t, k, e) { LookupHit(c, t, k, e); ContentsIsLookup(c, t, k); }
    }
    forall j, i, e | Hit(c, u, j, i) && Hit(c, u, j, e) ensures i == e {
      if j != k { assert Hit(c, t, j, i) && Hit(c, t, j, e); } else {
        assert !Hit(c, t, k, i) && !Hit(c, t, k, e);
      }
    }
    assert Hit(c, u, k, d);
    LookupHit(c, u, k, d);
    forall j | j != c.invalid
      ensures j != k ==> Lookup(c, t, j) == Lookup(c, u, j)
      ensures j in Contents(c, u) <==> j == k || j in Contents(c, t)
      ensures j in Contents(c, t) && j != k ==> Contents(c, u)[j] == Contents(c, t)[j]
    {
      if j != k {
        forall i | 0 <= i ensures Hit(c, t, j, i) <==> Hit(c, u, j, i) {}
        SameHits(c, t, u, j);
      }
      ContentsIsLookup(c, t, j);
      ContentsIsLookup(c, u, j);
    }
  }

  /** Overwriting the value of a visible entry. */
  lemma OverwriteValue<V>(c: Config, t: Table<V>, k: nat, d: nat, v: V, u: Table<V>)
    requires Inv(c, t) && k != c.invalid && Hit(c, t, k, d)
    requires u == t.(val := t.val[Wrap(c.hash(k) + d, c.size) := v])
    ensures Inv(c, u)
    ensures Contents(c, u) == Contents(c, t)[k := v]
  {
    forall j, i | 0 <= i ensures Hit(c, t, j, i) <==> Hit(c, u, j, i) {}
    LookupHit(c, u, k, d);
    forall j | j != c.invalid
      ensures j in Contents(c, u) <==> j == k || j in Contents(c, t)
      ensures j in Contents(c, t) && j != k ==> Contents(c, u)[j] == Contents(c, t)[j]
    {
      if j != k {
        forall i | Hit(c, t, j, i) ensures Wrap(c.hash(j) + i, c.size) != Wrap(c.hash(k) + d, c.size) {}
        SameHits(c, t, u, j);
      }
      ContentsIsLookup(c, t, j);
      ContentsIsLookup(c, u, j);
    }
    ContentsIsLookup(c, u, k);
  }

  /** REMOVE, after its first store: the slot that k hits holds the invalid key and, later, any
      value. Its hop bit still stands, yet every answer is already that of the new map. */
  lemma InvalidatedKey<V>(c: Config, t: Table<V>, k: nat, d: nat, v: V, u: Table<V>)
    requires Inv(c, t) && k != c.invalid && Hit(c, t, k, d)
    requires var p := Wrap(c.hash(k) + d, c.size);
             u == t.(key := t.key[p := c.invalid], val := t.val[p := v])
    ensures Shape(c, u) && InRange(c, u)
    ensures Contents(c, u) == Contents(c, t) - {k}
    ensures forall j, i :: j != c.invalid ==> (Hit(c, u, j, i) <==> j != k && Hit(c, t, j, i))
  {
    var p := Wrap(c.hash(k) + d, c.size);
    forall j, i | j != c.invalid ensures Hit(c, u, j, i) <==> j != k && Hit(c, t, j, i) {
      assert Hit(c, t, k, i) ==> i == d;
    }
    LookupMiss(c, u, k);
    forall j | j != c.invalid
      ensures j in Contents(c, u) <==> j != k && j in Contents(c, t)
      ensures j in Contents(c, u) ==> Contents(c, u)[j] == Contents(c, t)[j]
    {
      if j != k { SameHits(c, t, u, j); }
      ContentsIsLookup(c, t, j);
      ContentsIsLookup(c, u, j);
    }
  }

  /** REMOVE, after its last store: the hop bit is cleared and the invariant holds again. */
  lemma ClearedBit<V>(c: Config, t: Table<V>, k: nat, d: nat, v: V, u: Table<V>, w: Table<V>)
    requires Inv(c, t) && k != c.invalid && Hit(c, t, k, d)
    requires var p := Wrap(c.hash(k) + d, c.size);
             u == t.(key := t.key[p := c.invalid], val := t.val[p := v])
    requires w == u.(hop := u.hop[c.hash(k) := ClearBit(u.hop[c.hash(k)], d)])
    ensures Inv(c, w) && Contents(c, w) == Contents(c, t) - {k}
  {
    var b := c.hash(k);
    InvalidatedKey(c, t, k, d, v, u);
    forall i | 0 <= i ensures Bit(w.hop[b], i) <==> i != d && Bit(t.hop[b], i) { BitOfClear(t.hop[b], d, i); }
    assert InRange(c, w);
    forall j, i | 0 <= i && j != c.invalid ensures Hit(c, w, j, i) <==> Hit(c, u, j, i) {}
    forall j, i | 0 <= i && j == c.invalid ensures !Hit(c, w, j, i) {
      assert i < c.size && Bit(w.hop[c.hash(j)], i) ==> w.key[Wrap(c.hash(j) + i, c.size)] != c.invalid;
    }
    forall j | j != c.invalid ensures Lookup(c, u, j) == Lookup(c, w, j) { SameHits(c, u, w, j); }
    SameContents(c, u, w);
  }
}
