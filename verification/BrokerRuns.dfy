/** Whole runs of the broker: every sequence of requests, connects and disconnects. */
module BrokerRuns {
  import opened Bits
  import opened Options
  import opened Groups
  import opened Matchers
  import opened BrokerState
  import opened BrokerProofs

  // ---------- Changed groups ----------

  /** Every live fetch sees the same of the elements there are. */
  ghost predicate SightKept(s: State, t: State)
  {
    forall f, q :: Live(s, f) && q in s.elements ==> Sees(t, f, s.elements[q]) == Sees(s, f, s.elements[q])
  }

  lemma SightViews(s: State, t: State, f: Fetch)
    requires SightKept(s, t) && Live(s, f) && t.elements == s.elements
    ensures View(t, f) == View(s, f)
  {
  }

  lemma SightKeeps(s: State, t: State)
    requires Exact(s) && Mirror(s) && SightKept(s, t) && t.elements == s.elements && t.sent == s.sent
    requires forall f :: Live(t, f) <==> Live(s, f)
    ensures Exact(t) && Mirror(t)
  {
    forall f | Live(t, f) ensures Mirrors(t, f) { SightViews(s, t, f); assert Mirrors(s, f); }
    forall q | q in t.elements ensures ExactTable(t, t.elements[q]) {
      var e := s.elements[q];
      assert ExactTable(s, e);
      forall f | Live(t, f) ensures Times(e.fetchers, f.uid) == if Sees(t, f, e) then 1 else 0 {
        assert Live(s, f);
      }
    }
  }

  lemma SetGroupsLists(s: State, p: Peer, groups: nat)
    requires Lists(s) && p in s.peers
    ensures Lists(SetGroups(s, p, groups)) && forall f :: Live(SetGroups(s, p, groups), f) <==> Live(s, f)
  {
    SameFetchesKeep(s, SetGroups(s, p, groups));
    SameOwnershipKeeps(s, SetGroups(s, p, groups));
  }

  /** New groups keep the index exact if and only if every live fetch sees what it saw before. */
  lemma SetGroupsIff(s: State, p: Peer, groups: nat)
    requires Inv(s) && p in s.peers
    ensures Inv(SetGroups(s, p, groups)) <==> SightKept(s, SetGroups(s, p, groups))
  {
    var t := SetGroups(s, p, groups);
    SetGroupsLists(s, p, groups);
    if SightKept(s, t) { SightKeeps(s, t); }
    if Inv(t) {
      forall f, q | Live(s, f) && q in s.elements ensures Sees(t, f, s.elements[q]) == Sees(s, f, s.elements[q]) {
        assert ExactTable(s, s.elements[q]) && ExactTable(t, t.elements[q]) && Live(t, f);
      }
    }
  }

  /** handle_authentication's guard: with no fetches of the peer, any new groups keep the invariant. */
  lemma AuthenticateKeepsInv(s: State, p: Peer, groups: nat)
    requires Inv(s) && p in s.peers && s.peers[p].fetches == []
    ensures Inv(SetGroups(s, p, groups))
  {
    var t := SetGroups(s, p, groups);
    forall f, q | Live(s, f) && q in s.elements ensures Sees(t, f, s.elements[q]) == Sees(s, f, s.elements[q]) {
      assert f.peer != p && GroupsOf(t, f.peer) == GroupsOf(s, f.peer);
    }
    SetGroupsIff(s, p, groups);
  }

  /** A fetch of the peer matches an element that wants groups. */
  ghost predicate Exposed(s: State, p: Peer)
  {
    exists f, q :: Live(s, f) && f.peer == p && q in s.elements && StateMatches(f.matchers, q)
        && s.elements[q].groups != 0
  }

  lemma AccessToSome(x: nat)
    requires x != 0
    ensures HasAccess(true, x, x) && !HasAccess(true, x, 0)
  {
    var j := LowestBit(x);
    BitOfAnd(x, x, j);
    BitOfZero(j);
    if And(x, 0) != 0 { var k := LowestBit(And(x, 0)); BitOfAnd(x, 0, k); BitOfZero(k); }
  }

  lemma NoAccessToNothing(x: nat)
    ensures !HasAccess(true, x, 0)
  {
    if And(x, 0) != 0 { var k := LowestBit(And(x, 0)); BitOfAnd(x, 0, k); BitOfZero(k); }
  }

  lemma HiddenStays(s: State, p: Peer, groups: nat)
    requires Inv(s) && p in s.peers && s.enabled && !Exposed(s, p)
    ensures SightKept(s, SetGroups(s, p, groups))
  {
    var t := SetGroups(s, p, groups);
    forall f, q | Live(s, f) && q in s.elements ensures Sees(t, f, s.elements[q]) == Sees(s, f, s.elements[q]) {
      if f.peer == p {
        assert s.elements[q].path == q;
        NoAccessToNothing(groups);
        NoAccessToNothing(GroupsOf(s, p));
      } else {
        assert GroupsOf(t, f.peer) == GroupsOf(s, f.peer);
      }
    }
  }

  lemma ExposedChanges(s: State, p: Peer) returns (groups: nat)
    requires Inv(s) && p in s.peers && s.enabled && Exposed(s, p)
    ensures !Inv(SetGroups(s, p, groups))
  {
    var f, q :| Live(s, f) && f.peer == p && q in s.elements && StateMatches(f.matchers, q)
        && s.elements[q].groups != 0;
    var e := s.elements[q];
    groups := if Sees(s, f, e) then 0 else e.groups;
    AccessToSome(e.groups);
    assert Sees(SetGroups(s, p, groups), f, e) != Sees(s, f, e);
    SetGroupsIff(s, p, groups);
  }

  /** What the guard on the fetch list protects: without it, some new groups break the index exactly
      if a fetch of the peer matches an element with access groups. */
  lemma AuthenticateAnyIff(s: State, p: Peer)
    requires Inv(s) && p in s.peers && s.enabled
    ensures (forall groups: nat :: Inv(SetGroups(s, p, groups))) <==> !Exposed(s, p)
  {
    if Exposed(s, p) {
      var groups := ExposedChanges(s, p);
    } else {
      forall groups: nat ensures Inv(SetGroups(s, p, groups)) {
        HiddenStays(s, p, groups);
        SetGroupsIff(s, p, groups);
      }
    }
  }

  // ---------- Peers come and go ----------

  function DoConnect(s: State, p: Peer, groups: nat): State
  {
    s.(order := s.order + [p], peers := s.peers[p := PeerInfo(groups, [], [])])
  }

  lemma ConnectFetches(s: State, p: Peer, groups: nat)
    requires FetchLists(s) && SentKnown(s) && p !in s.peers
    ensures FetchLists(DoConnect(s, p, groups)) && SentKnown(DoConnect(s, p, groups))
  {
  }

  lemma ConnectLists(s: State, p: Peer, groups: nat)
    requires Lists(s) && p !in s.peers
    ensures Lists(DoConnect(s, p, groups)) && forall f :: Live(DoConnect(s, p, groups), f) <==> Live(s, f)
  {
    hide FetchLists, SentKnown;
    var t := DoConnect(s, p, groups);
    ConnectFetches(s, p, groups);
    forall f ensures Live(t, f) <==> Live(s, f) {}
  }

  lemma ConnectKeepsInv(s: State, p: Peer, groups: nat)
    requires Inv(s) && p !in s.peers
    ensures Inv(DoConnect(s, p, groups))
  {
    var t := DoConnect(s, p, groups);
    ConnectLists(s, p, groups);
    forall f, q | Live(s, f) && q in s.elements ensures Sees(t, f, s.elements[q]) == Sees(s, f, s.elements[q]) {
      assert f.peer in s.peers && GroupsOf(t, f.peer) == GroupsOf(s, f.peer);
    }
    SightKeeps(s, t);
  }

  /** A peer's fetches removed one after the other: none is left, and nothing else is lost. */
  lemma {:induction false} DropFetchesShape(s: State, p: Peer, fs: seq<Fetch>)
    requires p in s.peers && s.peers[p].fetches == fs && forall f :: f in fs ==> f.peer == p
    ensures var t := DropFetches(s, fs);
            t.peers == s.peers[p := s.peers[p].(fetches := [])] && t.order == s.order && t.sent == s.sent
            && t.elements.Keys == s.elements.Keys
    decreases fs
  {
    if fs == [] {
      assert s.peers == s.peers[p := s.peers[p].(fetches := [])];
    } else {
      var f := fs[0];
      assert f in fs;
      DropFetchesShape(DropFetch(s, f), p, fs[1..]);
    }
  }

  lemma OwnFetches(s: State, p: Peer)
    requires FetchLists(s) && p in s.peers
    ensures forall f :: f in s.peers[p].fetches ==> f.peer == p && Live(s, f)
  {
  }

  lemma {:induction false} DropFetchesKeepInv(s: State, p: Peer, fs: seq<Fetch>)
    requires Inv(s) && p in s.peers && s.peers[p].fetches == fs && forall f :: f in fs ==> f.peer == p && Live(s, f)
    ensures Inv(DropFetches(s, fs))
    decreases fs
  {
    if fs != [] {
      var f := fs[0];
      assert f in fs;
      DropFetchKeepsInv(s, f);
      var t := DropFetch(s, f);
      FirstDropped(s, p, f);
      OwnFetches(t, p);
      DropFetchesKeepInv(t, p, fs[1..]);
    }
  }

  lemma FirstDropped(s: State, p: Peer, f: Fetch)
    requires p in s.peers && s.peers[p].fetches != [] && s.peers[p].fetches[0] == f && f.peer == p
    ensures p in DropFetch(s, f).peers && DropFetch(s, f).peers[p].fetches == s.peers[p].fetches[1..]
  {
  }

  /** A peer's elements removed one after the other: none is left. */
  lemma {:induction false} DropElementsShape(s: State, p: Peer, ps: seq<string>)
    requires p in s.peers && s.peers[p].elements == ps && NoDup(ps)
    requires forall q :: q in ps ==> q in s.elements && s.elements[q].owner == p
    ensures var t := DropElements(s, ps);
            t.peers == s.peers[p := s.peers[p].(elements := [])] && t.order == s.order
    decreases ps
  {
    if ps == [] {
      assert s.peers == s.peers[p := s.peers[p].(elements := [])];
    } else {
      var q := ps[0];
      assert q in ps;
      DropElementsShape(DropElement(s, q), p, ps[1..]);
    }
  }

  lemma OwnElements(s: State, p: Peer)
    requires Owned(s) && p in s.peers
    ensures NoDup(s.peers[p].elements)
    ensures forall q :: q in s.peers[p].elements ==> q in s.elements && s.elements[q].owner == p
  {
  }

  lemma {:induction false} DropElementsKeepInv(s: State, p: Peer, ps: seq<string>)
    requires Inv(s) && p in s.peers && s.peers[p].elements == ps && NoDup(ps)
    requires forall q :: q in ps ==> q in s.elements && s.elements[q].owner == p
    ensures Inv(DropElements(s, ps))
    decreases ps
  {
    if ps != [] {
      var q := ps[0];
      assert q in ps;
      DropElementKeepsInv(s, q);
      FirstElementDropped(s, p, q);
      OwnElements(DropElement(s, q), p);
      DropElementsKeepInv(DropElement(s, q), p, ps[1..]);
    }
  }

  lemma FirstElementDropped(s: State, p: Peer, q: string)
    requires p in s.peers && s.peers[p].elements != [] && s.peers[p].elements[0] == q
    requires q in s.elements && s.elements[q].owner == p
    ensures p in DropElement(s, q).peers && DropElement(s, q).peers[p].elements == s.peers[p].elements[1..]
  {
  }

  lemma DropPeerOwned(s: State, p: Peer)
    requires Owned(s) && p in s.peers && s.peers[p].elements == []
    ensures Owned(DropPeer(s, p))
  {
    var t := DropPeer(s, p);
    forall q | q in t.elements
      ensures t.elements[q].path == q && t.elements[q].owner in t.peers && q in t.peers[t.elements[q].owner].elements
    {
      assert q in s.peers[s.elements[q].owner].elements;
    }
  }

  lemma DropPeerLists(s: State, p: Peer)
    requires Lists(s) && p in s.peers && s.peers[p].fetches == [] && s.peers[p].elements == []
    ensures Lists(DropPeer(s, p)) && forall f :: Live(DropPeer(s, p), f) <==> Live(s, f)
  {
    var t := DropPeer(s, p);
    WithoutMember(s.order, p);
    DropPeerOwned(s, p);
    forall f ensures Live(t, f) <==> Live(s, f) {}
    FewerPeers(s, t);
  }

  lemma FewerPeers(s: State, t: State)
    requires FetchLists(s) && t.next == s.next && t.peers.Keys <= s.peers.Keys
    requires forall p :: p in t.peers ==> t.peers[p] == s.peers[p]
    ensures FetchLists(t)
  {
    forall f | Live(t, f) ensures Live(s, f) {}
  }

  lemma DropPeerKeepsInv(s: State, p: Peer)
    requires Inv(s) && p in s.peers && s.peers[p].fetches == [] && s.peers[p].elements == []
    ensures Inv(DropPeer(s, p))
  {
    var t := DropPeer(s, p);
    DropPeerLists(s, p);
    forall f, q | Live(s, f) && q in s.elements ensures Sees(t, f, s.elements[q]) == Sees(s, f, s.elements[q]) {
      assert f.peer != p && GroupsOf(t, f.peer) == GroupsOf(s, f.peer);
    }
    SightKeeps(s, t);
  }

  lemma DisconnectKeeps(s: State, p: Peer) returns (t: State, u: State)
    requires Inv(s) && p in s.peers
    ensures (forall f :: f in s.peers[p].fetches ==> f.peer in s.peers) && t == DropFetches(s, s.peers[p].fetches)
    ensures p in t.peers && (forall q :: q in t.peers[p].elements ==> q in t.elements && t.elements[q].owner in t.peers)
    ensures NoDup(t.peers[p].elements) && u == DropElements(t, t.peers[p].elements)
    ensures Inv(t) && Inv(u) && Inv(DropPeer(u, p)) && p !in DropPeer(u, p).peers
  {
    var fs := s.peers[p].fetches;
    OwnFetches(s, p);
    DropFetchesKeepInv(s, p, fs);
    DropFetchesShape(s, p, fs);
    t := DropFetches(s, fs);
    var ps := t.peers[p].elements;
    OwnElements(t, p);
    DropElementsKeepInv(t, p, ps);
    DropElementsShape(t, p, ps);
    u := DropElements(t, ps);
    DropPeerKeepsInv(u, p);
  }

  /** free_peer_resources: fetches first, then elements, then the peer itself. */
  ghost function DoDisconnect(s: State, p: Peer): State
    requires Inv(s) && p in s.peers
  {
    OwnFetches(s, p);
    DropFetchesShape(s, p, s.peers[p].fetches);
    DropFetchesKeepInv(s, p, s.peers[p].fetches);
    var t := DropFetches(s, s.peers[p].fetches);
    OwnElements(t, p);
    DropPeer(DropElements(t, t.peers[p].elements), p)
  }

  /** After a disconnect the index is still exact and the peer, its fetches and elements are gone. */
  lemma DisconnectKeepsInv(s: State, p: Peer)
    requires Inv(s) && p in s.peers
    ensures var r := DoDisconnect(s, p); Inv(r) && p !in r.peers && Forgotten(r, p)
  {
    var t, u := DisconnectKeeps(s, p);
    GoneForgotten(DoDisconnect(s, p), p);
  }

  /** No trace of the peer: no live fetch, no element, no entry of a fetcher table. */
  ghost predicate Forgotten(s: State, p: Peer)
  {
    && (forall f: Fetch :: f.peer == p ==> !Live(s, f))
    && forall q :: q in s.elements ==>
         s.elements[q].owner != p && forall f: Fetch :: Some(f) in s.elements[q].fetchers ==> f.peer != p
  }

  lemma GoneForgotten(s: State, p: Peer)
    requires Inv(s) && p !in s.peers
    ensures Forgotten(s, p)
  {
    forall q | q in s.elements ensures forall f: Fetch :: Some(f) in s.elements[q].fetchers ==> f.peer != p {
      assert ExactTable(s, s.elements[q]);
      forall f: Fetch | Some(f) in s.elements[q].fetchers ensures f.peer != p { assert Live(s, f); }
    }
  }

  // ---------- Commands ----------

  /** Connecting takes a new peer; every other command comes from a connected one. */
  predicate Valid(s: State, c: Command)
  {
    if c.Connect? then c.peer !in s.peers else c.peer in s.peers
  }

  /** One command, with the cases in which the broker answers with an error and changes nothing. */
  ghost function Step(s: State, c: Command): State
    requires Inv(s) && Valid(s, c)
  {
    match c
    case Connect(p, groups) => DoConnect(s, p, groups)
    case AddElement(p, path, value, fetchOnly, groups) =>
      if path in s.elements then s else DoAddElement(s, p, NewElement(p, path, value, fetchOnly, groups))
    case ChangeState(p, path, v) =>
      if path in s.elements && s.elements[path].owner == p && s.elements[path].value.Some? then DoChange(s, path, v)
          else s
    case RemoveElement(p, path) => if path in s.peers[p].elements then DropElement(s, path) else s
    case AddFetch(p, id, matchers) =>
      if FindFetch(s.peers[p].fetches, id).Some? then s
      else AllPaths(s); DoFetch(s, Fetch(s.next, p, id, matchers))
    case Unfetch(p, id) =>
      var f := FindFetch(s.peers[p].fetches, id);
      if f.None? then s else FoundFetch(s, p, id); DropFetch(s, f.value)
    case Authenticate(p, credentials) =>
      if s.peers[p].fetches != [] || credentials.None? then s else SetGroups(s, p, credentials.value)
    case Disconnect(p) => DoDisconnect(s, p)
  }

  lemma {:induction false} FindFetchMember(fs: seq<Fetch>, id: FetchId)
    ensures FindFetch(fs, id).Some? <==> exists f :: f in fs && f.id == id
    ensures FindFetch(fs, id).Some? ==> FindFetch(fs, id).value in fs && FindFetch(fs, id).value.id == id
    decreases fs
  {
    if fs != [] { assert fs == [fs[0]] + fs[1..]; FindFetchMember(fs[1..], id); }
  }

  lemma FoundFetch(s: State, p: Peer, id: FetchId)
    requires Inv(s) && p in s.peers && FindFetch(s.peers[p].fetches, id).Some?
    ensures Live(s, FindFetch(s.peers[p].fetches, id).value) && FindFetch(s.peers[p].fetches, id).value.peer == p
  {
    FindFetchMember(s.peers[p].fetches, id);
  }

  lemma ElementStepKeepsInv(s: State, c: Command)
    requires Inv(s) && Valid(s, c) && (c.AddElement? || c.ChangeState? || c.RemoveElement?)
    ensures Inv(Step(s, c))
  {
    hide Mirror, Sees;
    match c
    case AddElement(p, path, value, fetchOnly, groups) =>
      if path !in s.elements {
        var e := NewElement(p, path, value, fetchOnly, groups);
        NewIsFresh(s, e, p, path, value, fetchOnly, groups);
        AddElementKeepsInv(s, p, e);
      }
    case ChangeState(p, path, v) => if path in s.elements { ChangeKeepsInv(s, path, v); }
    case RemoveElement(p, path) => if path in s.peers[p].elements { DropElementKeepsInv(s, path); }
  }

  lemma FetchStepKeepsInv(s: State, c: Command)
    requires Inv(s) && Valid(s, c) && (c.AddFetch? || c.Unfetch?)
    ensures Inv(Step(s, c))
  {
    hide Mirror, Sees;
    match c
    case AddFetch(p, id, matchers) => FetchKeepsInv(s, Fetch(s.next, p, id, matchers));
    case Unfetch(p, id) =>
      var f := FindFetch(s.peers[p].fetches, id);
      if f.Some? { FoundFetch(s, p, id); DropFetchKeepsInv(s, f.value); }
  }

  /** Every command keeps the lists, the index and the mirrors. */
  lemma StepKeepsInv(s: State, c: Command)
    requires Inv(s) && Valid(s, c)
    ensures Inv(Step(s, c))
  {
    hide Exact, Mirror, Lists, Sees;
    match c
    case Connect(p, groups) => ConnectKeepsInv(s, p, groups);
    case Authenticate(p, credentials) =>
      if s.peers[p].fetches == [] && credentials.Some? { AuthenticateKeepsInv(s, p, credentials.value); }
    case Disconnect(p) => DisconnectKeepsInv(s, p);
    case AddFetch(_, _, _) => FetchStepKeepsInv(s, c);
    case Unfetch(_, _) => FetchStepKeepsInv(s, c);
    case _ => ElementStepKeepsInv(s, c);
  }

  lemma NewIsFresh(s: State, e: Element, p: Peer, path: string, value: Option<Json>, fetchOnly: bool, groups: nat)
    requires path !in s.elements && e == NewElement(p, path, value, fetchOnly, groups)
    ensures Fresh(s, e)
  {
    forall uid ensures Times(e.fetchers, uid) == 0 { NewTable(p, path, value, fetchOnly, groups, uid); }
    NewTable(p, path, value, fetchOnly, groups, 0);
  }

  // ---------- Runs ----------

  ghost function Empty(enabled: bool): (s: State)
    ensures Inv(s)
  {
    State(enabled, [], map[], map[], [], 0)
  }

  /** A run: the commands can be given one after the other. */
  ghost predicate IsRun(s: State, cs: seq<Command>)
    requires Inv(s)
    decreases cs
  {
    cs == [] || (Valid(s, cs[0]) && (StepKeepsInv(s, cs[0]); IsRun(Step(s, cs[0]), cs[1..])))
  }

  ghost function Run(s: State, cs: seq<Command>): (t: State)
    requires Inv(s) && IsRun(s, cs)
    ensures Inv(t)
    decreases cs
  {
    if cs == [] then s else StepKeepsInv(s, cs[0]); Run(Step(s, cs[0]), cs[1..])
  }

  /** After every run, whatever the clients did: each live fetch is named exactly once by the elements
      it sees and by no other, tables name no departed fetch, and what a client makes of the events it
      was sent is exactly the elements it may see, with their values. */
  lemma {:induction false} EveryRun(enabled: bool, cs: seq<Command>, f: Fetch)
    requires IsRun(Empty(enabled), cs)
    ensures var s := Run(Empty(enabled), cs);
            && (Live(s, f) ==> Replay(f.uid, Some(map[]), s.sent) == Some(View(s, f)))
            && (Live(s, f) ==> forall q :: q in s.elements ==>
                 Times(s.elements[q].fetchers, f.uid) == if Sees(s, f, s.elements[q]) then 1 else 0)
            && (!Live(s, f) ==> forall q :: q in s.elements ==> Some(f) !in s.elements[q].fetchers)
  {
    var s := Run(Empty(enabled), cs);
    if Live(s, f) { assert Mirrors(s, f); }
    forall q | q in s.elements ensures ExactTable(s, s.elements[q]) {}
  }

  // ---------- A full element table ----------

  /** A command before a run. */
  lemma RunFrom(s: State, c: Command, cs: seq<Command>)
    requires Inv(s) && Valid(s, c) && Inv(Step(s, c)) && IsRun(Step(s, c), cs)
    ensures IsRun(s, [c] + cs) && Run(s, [c] + cs) == Run(Step(s, c), cs)
  {
    hide Step, Valid;
    StepKeepsInv(s, c);
    assert ([c] + cs)[1..] == cs;
  }

  lemma TwoSteps(s: State, c: Command, d: Command)
    requires Inv(s) && Valid(s, c) && Inv(Step(s, c)) && Valid(Step(s, c), d)
    ensures IsRun(s, [c, d]) && Run(s, [c, d]) == Step(Step(s, c), d)
  {
    hide Step, Valid;
    StepKeepsInv(s, c);
    var t := Step(s, c);
    StepKeepsInv(t, d);
    RunFrom(t, d, []);
    assert [d] + [] == [d] && [c] + [d] == [c, d];
    RunFrom(s, c, [d]);
  }

  /** Such a run: a peer connects and fetches everything; the element that it is told of when the table is
      full never comes to be. */
  lemma FullTableBreaksMirror()
    ensures var cs := [Connect(1, 0), AddFetch(1, Number(7), [])];
            && IsRun(Empty(false), cs)
            && var s := Run(Empty(false), cs);
               var e := NewElement(1, "a", Some("0"), false, 0);
               Fresh(s, e) && !Mirror(DoAddElementFull(s, e))
  {
    var s0, c, d := Empty(false), Connect(1, 0), AddFetch(1, Number(7), []);
    StepKeepsInv(s0, c);
    var s1 := Step(s0, c);
    assert s1.peers[1].fetches == [] && FindFetch([], Number(7)).None?;
    TwoSteps(s0, c, d);
    var s := Step(s1, d);
    StepKeepsInv(s1, d);
    var f, e := Fetch(s1.next, 1, Number(7), []), NewElement(1, "a", Some("0"), false, 0);
    assert s.peers[1].fetches == [f] && Live(s, f);
    NewIsFresh(s, e, 1, "a", Some("0"), false, 0);
    AddElementFullMirrorsIff(s, e);
    assert Sees(s, f, e);
  }

  // ---------- get ----------

  /** What get_elements answers for one element; methods have no value and are left out. */
  function Shown(s: State, f: Fetch, q: string): seq<(string, Json)>
    requires q in s.elements
  {
    if Sees(s, f, s.elements[q]) && s.elements[q].value.Some? then [(q, s.elements[q].value.value)] else []
  }

  /** get_elements: the states, in order, that a fetch would see. */
  function Got(s: State, f: Fetch, ps: seq<string>): seq<(string, Json)>
    requires forall p :: p in ps ==> p in s.elements
  {
    if ps == [] then []
    else Shown(s, f, ps[0]) + Got(s, f, ps[1..])
  }

  /** The states among the "add" events. */
  function AddedStates(es: seq<Event>): seq<(string, Json)>
  {
    if es == [] then []
    else (if es[0].value.Some? then [(es[0].path, es[0].value.value)] else []) + AddedStates(es[1..])
  }

  /** A get answers with exactly the states that a fetch with the same matchers would be told of. */
  lemma {:induction false} GetIsFetch(s: State, f: Fetch, ps: seq<string>)
    requires forall p :: p in ps ==> p in s.elements
    ensures Got(s, f, ps) == AddedStates(AddEvents(s, f, ps))
    decreases ps
  {
    if ps != [] {
      assert ps == [ps[0]] + ps[1..];
      GetIsFetch(s, f, ps[1..]);
      var rest := AddEvents(s, f, ps[1..]);
      if Sees(s, f, s.elements[ps[0]]) {
        assert AddEvents(s, f, ps)[1..] == rest;
      } else {
        assert AddEvents(s, f, ps) == rest;
      }
    }
  }

  /** ... which are the states in the view of such a fetch. */
  lemma {:induction false} GetIsView(s: State, f: Fetch, ps: seq<string>, q: string, v: Json)
    requires forall p :: p in ps ==> p in s.elements
    ensures (q, v) in Got(s, f, ps) <==> q in ps && q in View(s, f) && View(s, f)[q] == Some(v)
    decreases ps
  {
    if ps != [] {
      assert ps == [ps[0]] + ps[1..];
      GetIsView(s, f, ps[1..], q, v);
    }
  }

  lemma ShownIf(s: State, mask: nat)
    requires s.enabled && "a" in s.elements && s.elements["a"].groups == 1 && s.elements["a"].value == Some("0")
    requires s.elements["a"].path == "a" && GroupsOf(s, 2) == mask
    ensures Got(s, Fetch(s.next, 2, Number(7), []), ["a"]) == if mask % 2 == 1 then [("a", "0")] else []
  {
    assert And(1, mask) == mask % 2;
    assert ["a"][1..] == [];
  }

  /** What a peer that has never authenticated itself is shown is decided by what its memory held before: a mask
      with the lowest bit shows it an element of the first group. */
  lemma UnauthenticatedGet(mask: nat)
    ensures var cs := [Connect(1, 0), AddElement(1, "a", Some("0"), false, 1), Connect(2, mask)];
            && IsRun(Empty(true), cs)
            && var s := Run(Empty(true), cs);
               "a" in s.elements && Got(s, Fetch(s.next, 2, Number(7), []), ["a"])
                                    == if mask % 2 == 1 then [("a", "0")] else []
  {
    hide Inv;
    var c, d, b := Connect(1, 0), AddElement(1, "a", Some("0"), false, 1), Connect(2, mask);
    var s0 := Empty(true);
    StepKeepsInv(s0, c);
    var s1 := Step(s0, c);
    StepKeepsInv(s1, d);
    var s2 := Step(s1, d);
    assert FetchesOf(s1.peers, s1.order) == [];
    StepKeepsInv(s2, b);
    TwoSteps(s1, d, b);
    RunFrom(s0, c, [d, b]);
    assert [c] + [d, b] == [c, d, b];
    ShownIf(Step(s2, b), mask);
  }
}
