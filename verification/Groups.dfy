/** Group sets as 32-bit masks, src/groups.c. */
module Groups {
  import opened Bits
  import opened Options

  const MAX_GROUPS: nat := 32

  /** An item of a JSON array of group names: a string, or something else. */
  type Name = Option<string>

  predicate Distinct(all: seq<string>)
  {
    forall i, j :: 0 <= i < j < |all| ==> all[i] != all[j]
  }

  /** The mask of the known groups among the names. */
  ghost predicate IsMask(all: seq<string>, names: seq<Name>, mask: nat)
  {
    forall j :: 0 <= j ==> (Bit(mask, j) <==> j < |all| && Some(all[j]) in names)
  }

  class KnownGroups {
    /** all_groups; None until create_groups. */
    var all: Option<seq<string>>

    ghost predicate Valid()
      reads this
    {
      all.Some? ==> Distinct(all.value) && |all.value| <= MAX_GROUPS
    }

    constructor ()
      ensures Valid() && all == None
    {
      all := None;
    }

    method CreateGroups()
      modifies this
      ensures Valid() && all == Some([])
    {
      all := Some([]);
    }

    method IsInGroups(name: string) returns (found: bool)
      requires all.Some?
      ensures found <==> name in all.value
    {
      for i := 0 to |all.value|
        invariant name !in all.value[..i]
      {
        if all.value[i] == name { return true; }
      }
      found := false;
    }

    /** add_group: a new group takes the next bit; the bits of known groups never change. */
    method AddGroup(name: string) returns (ok: bool)
      requires Valid() && all.Some?
      modifies this
      ensures Valid() && all.Some?
      ensures ok <==> name in old(all.value) || |old(all.value)| < MAX_GROUPS
      ensures all.value == old(all.value) + if ok && name !in old(all.value) then [name] else []
    {
      var known := IsInGroups(name);
      if known { return true; }
      if |all.value| >= MAX_GROUPS { return false; }
      all := Some(all.value + [name]);
      ok := true;
    }

    /** add_groups on an array. */
    method AddGroups(names: seq<Name>) returns (ok: bool)
      requires Valid() && all.Some?
      modifies this
      ensures Valid() && all.Some? && old(all.value) <= all.value
      ensures forall g :: g in all.value ==> g in old(all.value) || Some(g) in names
      ensures ok ==> forall x :: x in names ==> x.Some? && x.value in all.value
      ensures !ok ==> None in names || |all.value| == MAX_GROUPS
    {
      for i := 0 to |names|
        invariant Valid() && all.Some? && old(all.value) <= all.value
        invariant forall g :: g in all.value ==> g in old(all.value) || Some(g) in names
        invariant forall x :: x in names[..i] ==> x.Some? && x.value in all.value
      {
        match names[i] {
          case None => return false;
          case Some(name) =>
            assert names[i] in names;
            var added := AddGroup(name);
            if !added { return false; }
        }
      }
      ok := true;
    }

    /** get_groups; names is None when there is no array. */
    method GetGroups(names: Option<seq<Name>>) returns (groups: nat)
      requires Valid()
      ensures all.None? || names.None? ==> groups == 0
      ensures all.Some? && names.Some? ==> IsMask(all.value, names.value, groups)
    {
      groups := 0;
      forall j ensures !Bit(0, j) { BitOfZero(j); }
      if names.None? || all.None? { return; }
      for i := 0 to |names.value|
        invariant forall j :: 0 <= j ==> (Bit(groups, j) <==> j < |all.value| && Some(all.value[j]) in names.value[..i])
      {
        ghost var before := groups;
        for j := 0 to |all.value|
          invariant forall k :: 0 <= k ==>
                      (Bit(groups, k) <==> Bit(before, k) || (k < j && Some(all.value[k]) == names.value[i]))
        {
          if Some(all.value[j]) == names.value[i] {
            ghost var g := groups;
            groups := SetBit(groups, j);
            forall k ensures Bit(groups, k) <==> k == j || Bit(g, k) { BitOfSet(g, j, k); }
          }
        }
        assert names.value[..i + 1] == names.value[..i] + [names.value[i]];
      }
      assert names.value[..|names.value|] == names.value;
    }
  }

  /** has_access. */
  predicate HasAccess(enabled: bool, has: nat, wants: nat)
  {
    !enabled || And(has, wants) != 0
  }

  /** Access is a common known group. */
  lemma AccessIsCommonGroup(all: seq<string>, xs: seq<Name>, ys: seq<Name>, has: nat, wants: nat)
    requires IsMask(all, xs, has) && IsMask(all, ys, wants)
    ensures HasAccess(true, has, wants) <==> exists g :: g in all && Some(g) in xs && Some(g) in ys
  {
    if And(has, wants) != 0 {
      var j := LowestBit(And(has, wants));
      BitOfAnd(has, wants, j);
      assert all[j] in all;
    }
    forall g | g in all && Some(g) in xs && Some(g) in ys ensures And(has, wants) != 0 {
      var j :| 0 <= j < |all| && all[j] == g;
      BitOfAnd(has, wants, j);
      BitOfZero(j);
    }
  }
}
