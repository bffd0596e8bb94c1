/** The table of src/hashtable.h as an object that is stored into slot by slot. */
module Hashtable {
  import opened Bits
  import opened HopscotchModel
  import opened Options

  datatype PutResult = Success | Full | KeyInvalid

  /** Every state of a call answers as the map before it or as the map after it, and the answers
      switch once: this is what a GET that interrupts the call between two stores can see. */
  ghost predicate SwitchesOnce<V>(c: Config, states: seq<Table<V>>, before: map<nat, V>, after: map<nat, V>)
  {
    exists s :: 0 <= s <= |states| && AnswersUpTo(c, states, s, before, after)
  }

  ghost predicate AnswersUpTo<V>(c: Config, states: seq<Table<V>>, s: nat, before: map<nat, V>, after: map<nat, V>)
  {
    forall i :: 0 <= i < |states| ==>
      Shape(c, states[i]) && Contents(c, states[i]) == if i < s then before else after
  }

  /** Every state from index `from` on answers as m. */
  ghost predicate AllAnswer<V>(c: Config, history: seq<Table<V>>, from: nat, m: map<nat, V>)
  {
    forall i :: from <= i < |history| ==> Shape(c, history[i]) && Contents(c, history[i]) == m
  }

  /** Every one of the first add_range slots from the home bucket holds a key, stale or not. */
  ghost predicate NoFreeSlot<V>(c: Config, t: Table<V>, home: nat)
    requires Shape(c, t) && home < c.size
  {
    forall d :: 0 <= d < c.size / 2 ==> t.key[After(c.size, home, d)] != c.invalid
  }

  /** No entry can move into slot p: no bucket at most 31 places before p names a slot before p. */
  ghost predicate Blocked<V>(c: Config, t: Table<V>, p: nat)
    requires Shape(c, t) && p < c.size
  {
    forall e, d :: 0 <= d < e < HOP_RANGE && e < c.size ==> !Bit(t.hop[Before(c.size, p, e)], d)
  }

  /** Some free slot of the add range lies 32 or more places away and no entry can move into it. */
  ghost predicate Stuck<V>(c: Config, t: Table<V>, home: nat)
    requires Shape(c, t) && home < c.size
  {
    exists p :: 0 <= p < c.size && HOP_RANGE <= Wrap(p - home, c.size) < c.size / 2
                && !Named(c, t, p) && Blocked(c, t, p)
  }

  class Table32<V(==)> {
    const c: Config
    const zero: V
    const hop: array<nat>
    const key: array<nat>
    const val: array<V>
    /** The state after every store so far. */
    ghost var history: seq<Table<V>>

    ghost function T(): Table<V>
      reads hop, key, val
    {
      Table(hop[..], key[..], val[..])
    }

    ghost predicate Separate()
    {
      hop != key && hop as object != val as object && key as object != val as object
    }

    ghost predicate Valid()
      reads hop, key, val
    {
      Separate() && Inv(c, T())
    }

    constructor Create(hash: nat -> nat, invalid: nat, size: nat, zero: V)
      requires 0 < size <= 0x8000_0000 && forall k :: hash(k) < size
      ensures Valid() && fresh(hop) && fresh(key) && fresh(val)
      ensures c == Config(hash, invalid, size) && Contents(c, T()) == map[] && history == []
    {
      c := Config(hash, invalid, size);
      this.zero := zero;
      hop := new nat[size](_ => 0);
      key := new nat[size](_ => invalid);
      val := new V[size](_ => zero);
      history := [];
      new;
      forall b, d | 0 <= b < size && 0 <= d ensures !Bit(hop[..][b], d) { BitOfZero(d); }
    }

    method StoreHop(i: nat, h: nat)
      requires Separate() && hop.Length == c.size && i < c.size
      modifies hop, this`history
      ensures T() == old(T()).(hop := old(T()).hop[i := h]) && history == old(history) + [T()]
    {
      hop[i] := h;
      history := history + [T()];
    }

    method StoreKey(i: nat, k: nat)
      requires Separate() && key.Length == c.size && i < c.size
      modifies key, this`history
      ensures T() == old(T()).(key := old(T()).key[i := k]) && history == old(history) + [T()]
    {
      key[i] := k;
      history := history + [T()];
    }

    method StoreVal(i: nat, v: V)
      requires Separate() && val.Length == c.size && i < c.size
      modifies val, this`history
      ensures T() == old(T()).(val := old(T()).val[i := v]) && history == old(history) + [T()]
    {
      val[i] := v;
      history := history + [T()];
    }

    /** hashtable_get. */
    method Get(k: nat) returns (r: Option<V>)
      requires Separate() && Shape(c, T())
      ensures r == Lookup(c, T(), k)
    {
      var pos: nat := c.hash(k);
      var h := hop[pos];
      while h != 0
        invariant pos < c.size
        invariant Lookup(c, T(), k) == Scan(c.size, T(), pos, h, k)
        decreases h
      {
        if h % 2 == 1 && key[pos] == k { return Some(val[pos]); }
        h := h / 2;
        pos := Wrap(pos + 1, c.size);
      }
      return None;
    }

    /** The bit loop of GET, PUT and REMOVE: the slot at which k is visible. */
    method Find(k: nat) returns (found: bool, pos: nat)
      requires Valid()
      ensures found ==> pos < c.size && Hit(c, T(), k, Wrap(pos - c.hash(k), c.size))
      ensures !found ==> forall e :: !Hit(c, T(), k, e)
    {
      hide SetBit, Lookup;
      var home: nat := c.hash(k);
      ghost var t := T();
      ghost var d := 0;
      pos := home;
      var h: nat := hop[home];
      while h != 0
        invariant h == Shr(t.hop[home], d) && pos < c.size
        invariant d <= c.size && (d < c.size ==> pos == Wrap(home + d, c.size))
        invariant forall e :: 0 <= e < d ==> !Hit(c, t, k, e)
        decreases h
      {
        ghost var top := LowestBit(h);
        BitOfShr(t.hop[home], d, top);
        BitOfShr(t.hop[home], d, 0);
        assert d < c.size;
        if h % 2 == 1 && key[pos] == k {
          assert Wrap(pos - home, c.size) == d;
          return true, pos;
        }
        h := h / 2;
        pos := Wrap(pos + 1, c.size);
        d := d + 1;
      }
      forall e | e >= d ensures !Bit(t.hop[home], e) {
        BitOfShr(t.hop[home], d, e - d);
        BitOfZero(e - d);
      }
      found := false;
    }

    /** The three stores of find_closer_entry: copy the entry of bucket b from distance i to the
        free slot at distance e, then hand it over in hop[b]. */
    method MoveInto(free: nat, b: nat, i: nat, e: nat) returns (freed: nat)
      requires Valid() && free < c.size && !Named(c, T(), free)
      requires i < e < HOP_RANGE < c.size && b == Before(c.size, free, e) && Bit(hop[b], i)
      modifies hop, key, val, this`history
      ensures Valid() && Contents(c, T()) == old(Contents(c, T()))
      ensures old(history) <= history && AllAnswer(c, history, |old(history)|, Contents(c, T()))
      ensures freed < c.size && !Named(c, T(), freed) && freed == Before(c.size, free, e - i)
    {
      ghost var t := T();
      freed := Wrap(b + i, c.size);
      StoreKey(free, key[freed]);
      StoreUnnamed(c, t, free, T());
      ghost var t1 := T();
      StoreVal(free, val[freed]);
      StoreUnnamed(c, t1, free, T());
      ghost var t2 := T();
      StoreHop(b, SetBit(ClearBit(hop[b], i), e));
      MoveBit(c, t2, b, i, e, T());
    }

    /** find_closer_entry: moves the entry whose home bucket is farthest before the free slot into
        it, and returns the slot the entry came from. */
    method FindCloserEntry(free: nat) returns (freed: nat)
      requires Valid() && free < c.size && !Named(c, T(), free) && HOP_RANGE < c.size
      modifies hop, key, val, this`history
      ensures Valid() && Contents(c, T()) == old(Contents(c, T()))
      ensures old(history) <= history && AllAnswer(c, history, |old(history)|, Contents(c, T()))
      ensures freed == NO_SLOT ==> T() == old(T()) && Blocked(c, T(), free)
      ensures freed != NO_SLOT ==> freed < c.size && !Named(c, T(), freed)
      ensures freed != NO_SLOT ==> exists g :: 0 < g < HOP_RANGE && freed == Before(c.size, free, g)
    {
      ghost var t := T();
      var e: nat := HOP_RANGE - 1;
      while e > 0
        invariant e < HOP_RANGE && T() == t && history == old(history)
        invariant forall f, d :: 0 <= d < f < HOP_RANGE && e < f ==> !Bit(t.hop[Before(c.size, free, f)], d)
      {
        var b := Before(c.size, free, e);
        var h := hop[b];
        var i: nat := 0;
        while i < e && !Bit(h, i)
          invariant i <= e
          invariant forall d :: 0 <= d < i ==> !Bit(h, d)
        {
          i := i + 1;
        }
        if i < e {
          freed := MoveInto(free, b, i, e);
          return;
        }
        e := e - 1;
      }
      freed := NO_SLOT;
    }

    /** The linear search of hashtable_put for an empty slot in the add range. */
    method FindFree(home: nat) returns (distance: nat, free: nat)
      requires Valid() && home < c.size
      ensures distance < c.size / 2 ==>
                free == After(c.size, home, distance) && !Named(c, T(), free)
      ensures distance >= c.size / 2 ==> NoFreeSlot(c, T(), home)
    {
      distance, free := 0, home;
      while distance < c.size / 2 && key[free] != c.invalid
        invariant distance <= c.size / 2 && free < c.size
        invariant distance < c.size ==> free == After(c.size, home, distance)
        invariant forall d :: 0 <= d < distance ==> key[After(c.size, home, d)] != c.invalid
      {
        distance := distance + 1;
        free := Wrap(free + 1, c.size);
      }
    }

    /** The displacement loop of hashtable_put. Each move brings the free slot strictly closer to
        the home bucket without passing it, so the loop ends. */
    method PutNear(k: nat, v: V, free0: nat, distance0: nat) returns (r: PutResult)
      requires Valid() && k != c.invalid && k !in Contents(c, T())
      requires free0 < c.size && !Named(c, T(), free0)
      requires distance0 == Wrap(free0 - c.hash(k), c.size) && distance0 < c.size / 2
      modifies hop, key, val, this`history
      ensures Valid() && old(history) <= history && r != KeyInvalid
      ensures Contents(c, T()) ==
              if r == Success then old(Contents(c, T()))[k := v] else old(Contents(c, T()))
      ensures r == Full ==> Stuck(c, T(), c.hash(k))
      ensures exists s :: |old(history)| <= s <= |history|
                && AllAnswer(c, history[..s], |old(history)|, old(Contents(c, T())))
                && AllAnswer(c, history, s, Contents(c, T()))
    {
      var home: nat := c.hash(k);
      ghost var before := Contents(c, T());
      ghost var start := |history|;
      var free: nat := free0;
      var distance: nat := distance0;
      while true
        invariant Valid() && Contents(c, T()) == before && old(history) <= history
        invariant AllAnswer(c, history, start, before)
        invariant free < c.size && !Named(c, T(), free)
        invariant distance == Wrap(free - home, c.size) && distance < c.size / 2
        decreases distance
      {
        if distance < HOP_RANGE {
          PutAt(k, v, free, distance);
          assert AllAnswer(c, history[..|history| - 1], start, before);
          return Success;
        }
        var freed := FindCloserEntry(free);
        if freed == NO_SLOT {
          assert history[..|history|] == history;
          return Full;
        }
        free, distance := freed, Wrap(freed - home, c.size);
      }
    }

    /** hashtable_put. */
    method Put(k: nat, v: V) returns (r: PutResult, previous: Option<V>)
      requires Valid()
      modifies hop, key, val, this`history
      ensures Valid() && old(history) <= history
      ensures r == KeyInvalid <==> k == c.invalid
      ensures k != c.invalid ==> previous == old(Lookup(c, T(), k))
      ensures Contents(c, T()) ==
              if r == Success then old(Contents(c, T()))[k := v] else old(Contents(c, T()))
      ensures r == KeyInvalid ==> T() == old(T()) && history == old(history)
      // FULL is answered only to a key that is not in the table, and only when there is no free
      // slot in the add range or none can be brought within 32 places of the home bucket
      ensures r == Full ==> k !in Contents(c, T())
      ensures r == Full ==> NoFreeSlot(c, old(T()), c.hash(k)) || Stuck(c, T(), c.hash(k))
      ensures SwitchesOnce(c, history[|old(history)|..], old(Contents(c, T())), Contents(c, T()))
    {
      hide Hit, Lookup;
      previous := None;
      ghost var before := Contents(c, T());
      ghost var start := |history|;
      if k == c.invalid {
        assert AnswersUpTo(c, history[start..], 0, before, before);
        return KeyInvalid, previous;
      }
      var found, pos := Find(k);
      if found {
        previous := Some(val[pos]);
        Overwrite(k, v, pos);
        assert AnswersUpTo(c, history[start..], 0, before, Contents(c, T()));
        return Success, previous;
      }
      LookupMiss(c, T(), k);
      ContentsIsLookup(c, T(), k);
      var distance, free := FindFree(c.hash(k));
      if distance < c.size / 2 {
        r := PutNear(k, v, free, distance);
        ghost var s :| start <= s <= |history|
          && AllAnswer(c, history[..s], start, before) && AllAnswer(c, history, s, Contents(c, T()));
        assert AnswersUpTo(c, history[start..], s - start, before, Contents(c, T()));
      } else {
        assert AnswersUpTo(c, history[start..], 0, before, before);
        r := Full;
      }
    }

    /** The single store of a PUT whose key is already in the table. */
    method Overwrite(k: nat, v: V, pos: nat)
      requires Valid() && k != c.invalid
      requires pos < c.size && Hit(c, T(), k, Wrap(pos - c.hash(k), c.size))
      modifies val, this`history
      ensures Valid() && Contents(c, T()) == old(Contents(c, T()))[k := v]
      ensures history == old(history) + [T()]
      ensures old(Lookup(c, T(), k)) == Some(old(val[pos]))
    {
      ghost var d := Wrap(pos - c.hash(k), c.size);
      ghost var t := T();
      LookupHit(c, t, k, d);
      StoreVal(pos, v);
      OverwriteValue(c, t, k, d, v, T());
    }

    /** The three stores that enter a new key into a free slot near its home bucket. */
    method PutAt(k: nat, v: V, free: nat, distance: nat)
      requires Valid() && k != c.invalid && k !in Contents(c, T())
      requires free < c.size && !Named(c, T(), free)
      requires distance == Wrap(free - c.hash(k), c.size) && distance < HOP_RANGE
      modifies hop, key, val, this`history
      ensures Valid() && Contents(c, T()) == old(Contents(c, T()))[k := v]
      ensures |history| == |old(history)| + 3 && old(history) <= history
      ensures AllAnswer(c, history[..|history| - 1], |old(history)|, old(Contents(c, T())))
      ensures AllAnswer(c, history, |history| - 1, Contents(c, T()))
    {
      ghost var t := T();
      StoreVal(free, v);
      StoreUnnamed(c, t, free, T());
      ghost var t1 := T();
      StoreKey(free, k);
      StoreUnnamed(c, t1, free, T());
      ghost var t2 := T();
      var home := c.hash(k);
      StoreHop(home, SetBit(hop[home], distance));
      PublishBit(c, t2, k, distance, T());
    }

    /** hashtable_remove. */
    method Remove(k: nat) returns (removed: Option<V>)
      requires Valid()
      modifies hop, key, val, this`history
      ensures Valid() && old(history) <= history
      ensures removed == old(Lookup(c, T(), k))
      ensures Contents(c, T()) == old(Contents(c, T())) - {k}
      ensures SwitchesOnce(c, history[|old(history)|..], old(Contents(c, T())), Contents(c, T()))
    {
      ghost var t := T();
      ghost var start := |history|;
      if k != c.invalid { ContentsIsLookup(c, t, k); }
      var found, pos := Find(k);
      assert T() == t;
      if !found {
        LookupMiss(c, t, k);
        assert Contents(c, t) == Contents(c, t) - {k};
        assert AnswersUpTo(c, history[start..], 0, Contents(c, t), Contents(c, t));
        return None;
      }
      LookupHit(c, t, k, Wrap(pos - c.hash(k), c.size));
      removed := Some(val[pos]);
      RemoveAt(k, pos);
    }

    /** The three stores of a removal: key, value and hop information. */
    method RemoveAt(k: nat, pos: nat)
      requires Valid() && k != c.invalid && pos < c.size && Hit(c, T(), k, Wrap(pos - c.hash(k), c.size))
      modifies hop, key, val, this`history
      ensures Valid() && old(history) <= history
      ensures Contents(c, T()) == old(Contents(c, T())) - {k}
      ensures SwitchesOnce(c, history[|old(history)|..], old(Contents(c, T())), Contents(c, T()))
    {
      ghost var t := T();
      ghost var start := |history|;
      var home: nat := c.hash(k);
      var distance := Wrap(pos - home, c.size);
      var h := hop[home];
      StoreKey(pos, c.invalid);
      assert T() == t.(key := t.key[pos := c.invalid], val := t.val[pos := t.val[pos]]);
      InvalidatedKey(c, t, k, distance, t.val[pos], T());
      StoreVal(pos, zero);
      InvalidatedKey(c, t, k, distance, zero, T());
      ghost var u := T();
      StoreHop(home, ClearBit(h, distance));
      ClearedBit(c, t, k, distance, zero, u, T());
      assert AnswersUpTo(c, history[start..], 0, Contents(c, t), Contents(c, T()));
    }
  }
}
