/** The broker's state changed in place: the loops of src/fetch.c, src/element.c and src/peer.c. */
module Broker {
  import opened Options
  import opened Groups
  import opened Matchers
  import opened BrokerState
  import opened BrokerProofs
  import opened BrokerRuns

  /** fetcher_table and fetch_table_size of an element. */
  class FetcherTable {
    var places: array<Option<Fetch>>

    constructor ()
      ensures fresh(places) && places[..] == seq(INITIAL_FETCHERS, _ => None)
    {
      places := new Option<Fetch>[INITIAL_FETCHERS](_ => None);
    }

    /** add_fetch_to_state: the first free place, or a new table of twice the size. */
    method AddFetch(f: Fetch)
      modifies this, places
      ensures places == old(places) || fresh(places)
      ensures places[..] == AddFetcher(old(places[..]), f)
      decreases if None in places[..] then 0 else 1
    {
      for i := 0 to places.Length
        invariant unchanged(this, places) && None !in places[..i]
      {
        assert places[..i + 1] == places[..i] + [places[i]];
        if places[i] == None {
          FirstFreeAt(places[..], f, i);
          places[i] := Some(f);
          return;
        }
      }
      assert places[..places.Length] == places[..];
      var size: nat := if INITIAL_FETCHERS > places.Length * 2 then INITIAL_FETCHERS else places.Length * 2;
      var table := new Option<Fetch>[size](_ => None);
      for i := 0 to places.Length
        invariant unchanged(this) && places[..] == old(places[..]) && table[..i] == places[..i]
        invariant forall k :: i <= k < size ==> table[k] == None
      {
        table[i] := places[i];
      }
      assert table[..places.Length] == places[..];
      Doubled(places[..], table[..], f);
      places := table;
      AddFetch(f);
    }

    /** remove_fetch_from_state. */
    method RemoveFetch(f: Fetch)
      modifies places
      ensures places[..] == RemoveFetcher(old(places[..]), f)
    {
      for i := 0 to places.Length
        invariant forall k :: 0 <= k < i ==> places[k] == if old(places[k]) == Some(f) then None else old(places[k])
        invariant forall k :: i <= k < places.Length ==> places[k] == old(places[k])
      {
        if places[i] == Some(f) { places[i] := None; }
      }
    }

    /** notify_fetchers: one notification for every fetch in the table. */
    method NotifyFetchers(kind: Kind, path: string, value: Option<Json>) returns (events: seq<Event>)
      ensures events == Notes(places[..], kind, path, value)
    {
      events := [];
      for i := 0 to places.Length
        invariant events == Notes(places[..i], kind, path, value)
      {
        assert places[..i + 1] == places[..i] + [places[i]];
        NotesConcat(places[..i], [places[i]], kind, path, value);
        if places[i].Some? { events := events + [Event(places[i].value.uid, kind, path, value)]; }
      }
      assert places[..places.Length] == places[..];
    }
  }

  lemma {:induction false} NotesConcat(a: seq<Option<Fetch>>, b: seq<Option<Fetch>>, kind: Kind, path: string,
      value: Option<Json>)
    ensures Notes(a + b, kind, path, value) == Notes(a, kind, path, value) + Notes(b, kind, path, value)
    decreases a
  {
    if a == [] {
      assert a + b == b;
    } else {
      assert (a + b)[0] == a[0] && (a + b)[1..] == a[1..] + b;
      NotesConcat(a[1..], b, kind, path, value);
      Regroup(if a[0].Some? then [Event(a[0].value.uid, kind, path, value)] else [],
              Notes(a[1..], kind, path, value), Notes(b, kind, path, value));
    }
  }

  lemma {:induction false} FirstFreeAt(t: seq<Option<Fetch>>, f: Fetch, i: nat)
    requires i < |t| && t[i] == None && None !in t[..i]
    ensures None in t && PutFirstFree(t, f) == t[i := Some(f)]
    decreases i
  {
    assert t[i] in t;
    if i > 0 {
      assert t[0] == t[..i][0];
      assert t[1..][..i - 1] == t[..i][1..];
      FirstFreeAt(t[1..], f, i - 1);
      assert t[i := Some(f)] == [t[0]] + t[1..][i - 1 := Some(f)];
    }
  }

  /** Putting a fetch into the doubled table is what AddFetcher says of a full one. */
  lemma Doubled(t: seq<Option<Fetch>>, bigger: seq<Option<Fetch>>, f: Fetch)
    requires None !in t && |bigger| == if INITIAL_FETCHERS > |t| * 2 then INITIAL_FETCHERS else |t| * 2
    requires bigger[..|t|] == t && forall k :: |t| <= k < |bigger| ==> bigger[k] == None
    ensures None in bigger && AddFetcher(bigger, f) == AddFetcher(t, f)
  {
    FirstFreeAt(bigger, f, |t|);
    assert bigger[|t| := Some(f)] == AddFetcher(t, f);
  }

  // ---------- Walks over the lists of all peers ----------

  /** The element and the events after a walk's step. */
  function Met(s: State, e: Element, f: Fetch): (Element, seq<Event>)
  {
    if Sees(s, f, e) then (e.(fetchers := AddFetcher(e.fetchers, f)), [Event(f.uid, Add, e.path, e.value)]) else (e, [])
  }

  lemma FindFirst(s: State, e: Element, fs: seq<Fetch>)
    requires fs != []
    ensures FindFetchers(s, e, fs).0 == FindFetchers(s, Met(s, e, fs[0]).0, fs[1..]).0
    ensures FindFetchers(s, e, fs).1 == Met(s, e, fs[0]).1 + FindFetchers(s, Met(s, e, fs[0]).0, fs[1..]).1
  {
    if !Sees(s, fs[0], e) {
      var r := FindFetchers(s, e, fs[1..]);
      assert [] + r.1 == r.1;
    }
  }

  lemma {:induction false} FindConcat(s: State, e: Element, a: seq<Fetch>, b: seq<Fetch>)
    ensures FindFetchers(s, e, a + b).0 == FindFetchers(s, FindFetchers(s, e, a).0, b).0
    ensures FindFetchers(s, e, a + b).1 == FindFetchers(s, e, a).1 + FindFetchers(s, FindFetchers(s, e, a).0, b).1
    decreases a
  {
    if a == [] {
      assert a + b == b;
    } else {
      assert (a + b)[0] == a[0] && (a + b)[1..] == a[1..] + b;
      FindFirst(s, e, a);
      FindFirst(s, e, a + b);
      var e' := Met(s, e, a[0]).0;
      FindConcat(s, e', a[1..], b);
      Regroup(Met(s, e, a[0]).1, FindFetchers(s, e', a[1..]).1, FindFetchers(s, FindFetchers(s, e, a).0, b).1);
    }
  }

  lemma Regroup(a: seq<Event>, b: seq<Event>, c: seq<Event>)
    ensures a + (b + c) == (a + b) + c
  {
  }

  /** One more fetch at the end of the walk. */
  lemma FindOneMore(s: State, e: Element, a: seq<Fetch>, f: Fetch)
    ensures FindFetchers(s, e, a + [f]).0 == Met(s, FindFetchers(s, e, a).0, f).0
    ensures FindFetchers(s, e, a + [f]).1 == FindFetchers(s, e, a).1 + Met(s, FindFetchers(s, e, a).0, f).1
  {
    FindConcat(s, e, a, [f]);
    FindAlone(s, FindFetchers(s, e, a).0, f);
  }

  lemma FindAlone(s: State, e: Element, f: Fetch)
    ensures FindFetchers(s, e, [f]).0 == Met(s, e, f).0 && FindFetchers(s, e, [f]).1 == Met(s, e, f).1
  {
    FindFirst(s, e, [f]);
    assert [f][1..] == [] && FindFetchers(s, Met(s, e, f).0, []) == (Met(s, e, f).0, []);
    assert Met(s, e, f).1 + [] == Met(s, e, f).1;
  }

  lemma {:induction false} FetchesOfNext(peers: map<Peer, PeerInfo>, order: seq<Peer>, i: nat)
    requires i < |order| && forall p :: p in order ==> p in peers
    ensures forall p :: p in order[..i] || p in order[..i + 1] ==> p in peers
    ensures FetchesOf(peers, order[..i + 1]) == FetchesOf(peers, order[..i]) + peers[order[i]].fetches
    ensures PathsOf(peers, order[..i + 1]) == PathsOf(peers, order[..i]) + peers[order[i]].elements
    decreases i
  {
    if i > 0 {
      assert order[1..][..i] == order[..i + 1][1..] && order[1..][..i - 1] == order[..i][1..];
      FetchesOfNext(peers, order[1..], i - 1);
    }
  }

  lemma {:induction false} EventsConcat(s: State, f: Fetch, a: seq<string>, b: seq<string>)
    requires forall p :: p in a || p in b ==> p in s.elements
    ensures AddEvents(s, f, a + b) == AddEvents(s, f, a) + AddEvents(s, f, b)
    decreases a
  {
    hide Sees;
    if a == [] {
      assert a + b == b;
    } else {
      assert a == [a[0]] + a[1..] && (a + b)[0] == a[0] && (a + b)[1..] == a[1..] + b;
      EventsConcat(s, f, a[1..], b);
    }
  }

  /** The elements after a walk of a new fetch over some of them. */
  function Entered(s: State, f: Fetch, done: seq<string>): map<string, Element>
  {
    map q | q in s.elements ::
      var e := s.elements[q]; if q in done && Sees(s, f, e) then e.(fetchers := AddFetcher(e.fetchers, f)) else e
  }

  /** The elements after a walk of a removed fetch over some of them. */
  function Cleared(s: State, f: Fetch, done: seq<string>): map<string, Element>
  {
    map q | q in s.elements ::
      var e := s.elements[q]; if q in done then e.(fetchers := RemoveFetcher(e.fetchers, f)) else e
  }

  lemma EnterOneMore(s: State, f: Fetch, done: seq<string>, q: string)
    requires q in s.elements && q !in done
    ensures q in Entered(s, f, done) && Entered(s, f, done)[q] == s.elements[q]
    ensures Entered(s, f, done + [q])
            == if Sees(s, f, s.elements[q])
               then Entered(s, f, done)[q := s.elements[q].(fetchers := AddFetcher(s.elements[q].fetchers, f))]
               else Entered(s, f, done)
  {
    assert q in done + [q];
  }

  lemma ClearOneMore(s: State, f: Fetch, done: seq<string>, q: string)
    requires q in s.elements && q !in done
    ensures q in Cleared(s, f, done) && Cleared(s, f, done)[q] == s.elements[q]
    ensures Cleared(s, f, done + [q])
            == Cleared(s, f, done)[q := s.elements[q].(fetchers := RemoveFetcher(s.elements[q].fetchers, f))]
  {
    assert q in done + [q];
  }

  /** All tables of the broker. */
  class Broker {
    var enabled: bool
    var order: seq<Peer>
    var peers: map<Peer, PeerInfo>
    var elements: map<string, Element>
    var sent: seq<Event>
    var next: nat

    ghost function Now(): State
      reads this
    {
      State(enabled, order, peers, elements, sent, next)
    }

    constructor (accessControl: bool)
      ensures Now() == Empty(accessControl)
    {
      enabled, order, peers, elements, sent, next := accessControl, [], map[], map[], [], 0;
    }

    /** init_peer; the groups of a new peer are whatever its memory held. */
    method InitPeer(p: Peer, groups: nat)
      requires Inv(Now()) && p !in peers
      modifies this
      ensures Inv(Now()) && Now() == Step(old(Now()), Connect(p, groups))
    {
      ghost var s := Now();
      StepKeepsInv(s, Connect(p, groups));
      order := order + [p];
      peers := peers[p := PeerInfo(groups, [], [])];
    }

    /** Whether the owner of the fetch may read the element and the fetch matches it. */
    method MayFetch(f: Fetch, e: Element) returns (sees: bool)
      requires f.peer in peers
      ensures sees == Sees(Now(), f, e)
    {
      if !HasAccess(enabled, e.groups, peers[f.peer].groups) { return false; }
      sees := StateMatches(f.matchers, e.path);
    }

    /** find_fetchers_for_element, with add_fetch_to_state_and_notify. */
    method FindFetchersForElement(e: Element) returns (r: Element)
      requires PeerList(Now()) && FetchLists(Now())
      modifies `sent
      ensures var found := FindFetchers(old(Now()), e, FetchesOf(peers, order));
              r == found.0 && sent == old(sent) + found.1
    {
      r := e;
      ghost var s := Now();
      for i := 0 to |order|
        invariant (forall p :: p in order[..i] ==> p in peers)
        invariant r == FindFetchers(s, e, FetchesOf(peers, order[..i])).0
        invariant sent == s.sent + FindFetchers(s, e, FetchesOf(peers, order[..i])).1
      {
        assert order[i] in order;
        FetchesOfNext(peers, order, i);
        OwnFetches(s, order[i]);
        r := FindFetchersInPeer(order[i], s, e, FetchesOf(peers, order[..i]), r);
      }
      assert order[..|order|] == order;
    }

    /** find_fetchers_for_element_in_peer; `before` are the fetches already visited. */
    method FindFetchersInPeer(p: Peer, ghost s: State, ghost e: Element, ghost before: seq<Fetch>, element: Element)
      returns (r: Element)
      requires p in peers && s == State(enabled, order, peers, elements, s.sent, next)
      requires forall f :: f in peers[p].fetches ==> f.peer in peers
      requires element == FindFetchers(s, e, before).0 && sent == s.sent + FindFetchers(s, e, before).1
      modifies `sent
      ensures r == FindFetchers(s, e, before + peers[p].fetches).0
      ensures sent == s.sent + FindFetchers(s, e, before + peers[p].fetches).1
    {
      var fs := peers[p].fetches;
      r := element;
      assert before + fs[..0] == before;
      for j := 0 to |fs|
        invariant r == FindFetchers(s, e, before + fs[..j]).0
        invariant sent == s.sent + FindFetchers(s, e, before + fs[..j]).1
      {
        assert fs[j] in fs;
        FindOneMore(s, e, before + fs[..j], fs[j]);
        assert before + fs[..j + 1] == before + fs[..j] + [fs[j]];
        var sees := MayFetch(fs[j], r);
        if sees {
          sent := sent + [Event(fs[j].uid, Kind.Add, r.path, r.value)];
          r := r.(fetchers := AddFetcher(r.fetchers, fs[j]));
        }
      }
      assert fs[..|fs|] == fs;
    }

    /** add_element_to_peer with a free place in the element table. */
    method AddElementToPeer(p: Peer, path: string, value: Option<Json>, fetchOnly: bool, groups: nat) returns (ok: bool)
      requires Inv(Now()) && p in peers
      modifies this
      ensures ok <==> path !in old(elements)
      ensures Inv(Now()) && Now() == Step(old(Now()), AddElement(p, path, value, fetchOnly, groups))
    {
      StepKeepsInv(Now(), AddElement(p, path, value, fetchOnly, groups));
      if path in elements { return false; }
      var e := FindFetchersForElement(NewElement(p, path, value, fetchOnly, groups));
      elements := elements[path := e];
      peers := peers[p := peers[p].(elements := peers[p].elements + [path])];
      ok := true;
    }

    /** notify_fetchers. */
    method NotifyFetchers(e: Element, kind: Kind)
      modifies `sent
      ensures sent == old(sent) + Notes(e.fetchers, kind, e.path, e.value)
    {
      var t := e.fetchers;
      for i := 0 to |t|
        invariant sent == old(sent) + Notes(t[..i], kind, e.path, e.value)
      {
        assert t[..i + 1] == t[..i] + [t[i]];
        NotesConcat(t[..i], [t[i]], kind, e.path, e.value);
        if t[i].Some? { sent := sent + [Event(t[i].value.uid, kind, e.path, e.value)]; }
      }
      assert t[..|t|] == t;
    }

    /** change_state. */
    method ChangeState(p: Peer, path: string, v: Json) returns (ok: bool)
      requires Inv(Now()) && p in peers
      modifies this
      ensures ok <==> path in old(elements) && old(elements[path]).owner == p && old(elements[path]).value.Some?
      ensures Inv(Now()) && Now() == Step(old(Now()), Command.ChangeState(p, path, v))
    {
      ChangeStep(Now(), p, path, v);
      if path !in elements { return false; }
      var e := elements[path];
      if e.owner != p { return false; }
      if e.value == None { return false; }
      SetValue(path, v);
      ok := true;
    }

    method SetValue(path: string, v: Json)
      requires path in elements && elements[path].path == path
      modifies this
      ensures Now() == DoChange(old(Now()), path, v)
    {
      elements := elements[path := elements[path].(value := Some(v))];
      NotifyFetchers(elements[path], Change);
    }

    /** remove_element. */
    method RemoveElement(path: string)
      requires Owned(Now()) && path in elements
      modifies this
      ensures Now() == DropElement(old(Now()), path)
    {
      var e := elements[path];
      NotifyFetchers(e, Remove);
      peers := peers[e.owner := peers[e.owner].(elements := Without(peers[e.owner].elements, path))];
      elements := elements - {path};
    }

    /** remove_element_from_peer: a search in the peer's own list. */
    method RemoveElementFromPeer(p: Peer, path: string) returns (ok: bool)
      requires Inv(Now()) && p in peers
      modifies this
      ensures ok <==> path in old(peers[p].elements)
      ensures Inv(Now()) && Now() == Step(old(Now()), Command.RemoveElement(p, path))
    {
      StepKeepsInv(Now(), Command.RemoveElement(p, path));
      var own := peers[p].elements;
      for i := 0 to |own|
        invariant unchanged(this) && path !in own[..i]
      {
        assert own[..i + 1] == own[..i] + [own[i]];
        if own[i] == path {
          assert own[i] in own;
          RemoveElement(path);
          return true;
        }
      }
      assert own[..|own|] == own;
      ok := false;
    }

    /** remove_all_elements_from_peer. */
    method RemoveAllElementsFromPeer(p: Peer)
      requires Inv(Now()) && p in peers
      modifies this
      ensures NoDup(old(peers[p].elements))
      ensures forall q :: q in old(peers[p].elements) ==> q in old(elements) && old(elements)[q].owner in old(peers)
      ensures Inv(Now()) && Now() == DropElements(old(Now()), old(peers[p].elements))
    {
      ghost var s, all := Now(), peers[p].elements;
      OwnElements(s, p);
      DropElementsKeepInv(s, p, all);
      var i := 0;
      while peers[p].elements != []
        invariant Inv(Now()) && p in peers
        invariant NoDup(peers[p].elements)
        invariant forall q :: q in peers[p].elements ==> q in elements && elements[q].owner == p
        invariant DropElements(Now(), peers[p].elements) == DropElements(s, all)
        decreases |peers[p].elements|
      {
        var q := peers[p].elements[0];
        assert q in peers[p].elements;
        DropElementKeepsInv(Now(), q);
        FirstElementDropped(Now(), p, q);
        RemoveElement(q);
        OwnElements(Now(), p);
      }
    }
  
    /** find_fetch. */
    method FindFetchInPeer(p: Peer, id: FetchId) returns (found: Option<Fetch>)
      requires p in peers
      ensures found == FindFetch(peers[p].fetches, id)
    {
      var fs := peers[p].fetches;
      for i := 0 to |fs|
        invariant FindFetch(fs, id) == FindFetch(fs[i..], id)
      {
        if fs[i].id == id { return Some(fs[i]); }
        assert fs[i..][1..] == fs[i + 1..];
      }
      found := None;
    }

    /** add_fetch_to_states: every element of every peer is offered the fetch. */
    method AddFetchToStates(f: Fetch)
      requires PeerList(Now()) && Owned(Now()) && f.peer in peers
      modifies `elements, `sent
      ensures var all := PathsOf(peers, order);
              (forall q :: q in all ==> q in old(elements))
              && elements == Entered(old(Now()), f, all) && sent == old(sent) + AddEvents(old(Now()), f, all)
    {
      ghost var s := Now();
      AllPaths(s);
      assert elements == Entered(s, f, []);
      for i := 0 to |order|
        invariant (forall p :: p in order[..i] ==> p in peers) && Walk(s, PathsOf(peers, order[..i]))
        invariant elements == Entered(s, f, PathsOf(peers, order[..i]))
        invariant sent == s.sent + AddEvents(s, f, PathsOf(peers, order[..i]))
      {
        PathsUpTo(s, i);
        AddFetchToStatesInPeer(order[i], f, s, PathsOf(peers, order[..i]));
      }
      assert order[..|order|] == order;
    }

    /** add_fetch_to_states_in_peer; `before` are the elements already visited. */
    method AddFetchToStatesInPeer(p: Peer, f: Fetch, ghost s: State, ghost before: seq<string>)
      requires p in peers && f.peer in peers && s == State(enabled, order, peers, s.elements, s.sent, next)
      requires Walk(s, before + peers[p].elements) && Walk(s, before)
      requires elements == Entered(s, f, before) && sent == s.sent + AddEvents(s, f, before)
      modifies `elements, `sent
      ensures Walk(s, before + peers[p].elements) && elements == Entered(s, f, before + peers[p].elements)
      ensures sent == s.sent + AddEvents(s, f, before + peers[p].elements)
    {
      var own := peers[p].elements;
      assert before + own[..0] == before;
      for j := 0 to |own|
        invariant Walk(s, before + own[..j]) && elements == Entered(s, f, before + own[..j])
        invariant sent == s.sent + AddEvents(s, f, before + own[..j])
      {
        var q := own[j];
        WalkOn(s, before, own, j);
        AddFetchToStateAndNotify(q, f, s, before + own[..j]);
      }
      assert own[..|own|] == own;
    }

    /** add_fetch_to_state_and_notify. */
    method AddFetchToStateAndNotify(q: string, f: Fetch, ghost s: State, ghost before: seq<string>)
      requires f.peer in peers && s == State(enabled, order, peers, s.elements, s.sent, next)
      requires Walk(s, before + [q]) && Walk(s, before) && q in s.elements && q !in before && s.elements[q].path == q
      requires elements == Entered(s, f, before) && sent == s.sent + AddEvents(s, f, before)
      modifies `elements, `sent
      ensures elements == Entered(s, f, before + [q]) && sent == s.sent + AddEvents(s, f, before + [q])
    {
      EnterOneMore(s, f, before, q);
      EventsOneMore(s, f, before, q);
      var e := elements[q];
      var sees := MayFetch(f, e);
      SeesSame(Now(), s, f, e, e);
      if sees {
        elements := elements[q := e.(fetchers := AddFetcher(e.fetchers, f))];
        sent := sent + [Event(f.uid, Kind.Add, e.path, e.value)];
      }
    }

    /** remove_fetch_from_states: every element of every peer forgets the fetch. */
    method RemoveFetchFromStates(f: Fetch)
      requires PeerList(Now()) && Owned(Now())
      modifies `elements
      ensures elements == Cleared(old(Now()), f, PathsOf(peers, order))
      ensures forall q :: q in PathsOf(peers, order) <==> q in old(elements)
    {
      ghost var s := Now();
      AllPaths(s);
      assert elements == Cleared(s, f, []);
      for i := 0 to |order|
        invariant forall p :: p in order[..i] ==> p in peers
        invariant elements == Cleared(s, f, PathsOf(peers, order[..i]))
      {
        PathsUpTo(s, i);
        RemoveFetchFromStatesInPeer(order[i], f, s, PathsOf(peers, order[..i]));
      }
      assert order[..|order|] == order;
    }

    /** remove_fetch_from_states_in_peer. */
    method RemoveFetchFromStatesInPeer(p: Peer, f: Fetch, ghost s: State, ghost before: seq<string>)
      requires p in peers && Walk(s, before + peers[p].elements) && elements == Cleared(s, f, before)
      modifies `elements
      ensures elements == Cleared(s, f, before + peers[p].elements)
    {
      var own := peers[p].elements;
      assert before + own[..0] == before;
      for j := 0 to |own|
        invariant elements == Cleared(s, f, before + own[..j])
      {
        var q := own[j];
        WalkOn(s, before, own, j);
        ClearOneMore(s, f, before + own[..j], q);
        elements := elements[q := elements[q].(fetchers := RemoveFetcher(elements[q].fetchers, f))];
      }
      assert own[..|own|] == own;
    }

    /** add_fetch_to_peer and add_fetch_to_states. */
    method AddFetchToPeer(p: Peer, id: FetchId, matchers: seq<Matcher>) returns (ok: bool)
      requires Inv(Now()) && p in peers
      modifies this
      ensures ok <==> FindFetch(old(peers[p].fetches), id) == None
      ensures Inv(Now()) && Now() == Step(old(Now()), Command.AddFetch(p, id, matchers))
    {
      AddFetchStep(Now(), p, id, matchers);
      var found := FindFetchInPeer(p, id);
      if found != None { return false; }
      EnterFetch(Fetch(next, p, id, matchers));
      ok := true;
    }

    method EnterFetch(f: Fetch)
      requires Lists(Now()) && NewFetch(Now(), f) && forall q :: q in PathsOf(peers, order) ==> q in elements
      modifies this
      ensures Now() == DoFetch(old(Now()), f)
    {
      FetchDone(Now(), f, Listed(Now(), f));
      next := next + 1;
      peers := peers[f.peer := peers[f.peer].(fetches := peers[f.peer].fetches + [f])];
      assert Now() == Listed(old(Now()), f);
      AddFetchToStates(f);
    }

    /** remove_fetch_from_peer's and remove_all_fetchers_from_peer's common part. */
    method RemoveFetch(f: Fetch)
      requires Lists(Now()) && Live(Now(), f)
      modifies this
      ensures Now() == DropFetch(old(Now()), f)
    {
      ghost var s := Now();
      RemoveFetchFromStates(f);
      ClearedAll(s, f, PathsOf(peers, order));
      peers := peers[f.peer := peers[f.peer].(fetches := Without(peers[f.peer].fetches, f))];
    }

    /** remove_fetch_from_peer. */
    method RemoveFetchFromPeer(p: Peer, id: FetchId) returns (ok: bool)
      requires Inv(Now()) && p in peers
      modifies this
      ensures ok <==> FindFetch(old(peers[p].fetches), id) != None
      ensures Inv(Now()) && Now() == Step(old(Now()), Unfetch(p, id))
    {
      UnfetchStep(Now(), p, id);
      var found := FindFetchInPeer(p, id);
      if found == None { return false; }
      RemoveFetch(found.value);
      ok := true;
    }

    /** remove_all_fetchers_from_peer. */
    method RemoveAllFetchersFromPeer(p: Peer)
      requires Inv(Now()) && p in peers
      modifies this
      ensures forall f :: f in old(peers[p].fetches) ==> f.peer in old(peers)
      ensures Inv(Now()) && Now() == DropFetches(old(Now()), old(peers[p].fetches))
    {
      ghost var s, all := Now(), peers[p].fetches;
      OwnFetches(s, p);
      DropFetchesKeepInv(s, p, all);
      while peers[p].fetches != []
        invariant Inv(Now()) && p in peers && forall f :: f in peers[p].fetches ==> f.peer == p && Live(Now(), f)
        invariant DropFetches(Now(), peers[p].fetches) == DropFetches(s, all)
        decreases |peers[p].fetches|
      {
        var f := peers[p].fetches[0];
        assert f in peers[p].fetches;
        DropFetchKeepsInv(Now(), f);
        FirstDropped(Now(), p, f);
        RemoveFetch(f);
        OwnFetches(Now(), p);
      }
    }

    /** handle_authentication; credentials are the groups of the user when user and password are right. */
    method HandleAuthentication(p: Peer, credentials: Option<nat>) returns (ok: bool)
      requires Inv(Now()) && p in peers
      modifies this
      ensures ok <==> old(peers[p].fetches) == [] && credentials.Some?
      ensures Inv(Now()) && Now() == Step(old(Now()), Authenticate(p, credentials))
    {
      AuthenticateStep(Now(), p, credentials);
      if peers[p].fetches != [] { return false; }
      if credentials == None { return false; }
      peers := peers[p := peers[p].(groups := credentials.value)];
      ok := true;
    }

    /** The broker's part of free_peer_resources. */
    method FreePeerResources(p: Peer)
      requires Inv(Now()) && p in peers
      modifies this
      ensures Inv(Now()) && Now() == Step(old(Now()), Disconnect(p))
    {
      ghost var s := Now();
      DisconnectStep(s, p);
      ghost var t, u := DisconnectKeeps(s, p);
      RemoveAllFetchersFromPeer(p);
      RemoveAllElementsFromPeer(p);
      order := Without(order, p);
      peers := peers - {p};
    }

    /** get_elements: a temporary fetch, offered to every element of every peer. */
    method GetElements(p: Peer, matchers: seq<Matcher>) returns (states: seq<(string, Json)>)
      requires Inv(Now()) && p in peers
      ensures forall q :: q in PathsOf(peers, order) ==> q in elements
      ensures states == Got(Now(), Fetch(next, p, Text(""), matchers), PathsOf(peers, order))
    {
      AllPaths(Now());
      states := [];
      var f := Fetch(next, p, Text(""), matchers);
      for i := 0 to |order|
        invariant (forall p :: p in order[..i] ==> p in peers) && forall q :: q in PathsOf(peers, order[..i]) ==>
            q in elements
        invariant states == Got(Now(), f, PathsOf(peers, order[..i]))
      {
        PathsUpTo(Now(), i);
        states := GetElementsInPeer(order[i], f, PathsOf(peers, order[..i]), states);
      }
      assert order[..|order|] == order;
    }

    /** get_elements_in_peer and get_element. */
    method GetElementsInPeer(p: Peer, f: Fetch, ghost before: seq<string>, found: seq<(string, Json)>)
      returns (states: seq<(string, Json)>)
      requires p in peers && f.peer in peers && Walk(Now(), before + peers[p].elements) && Walk(Now(), before)
      requires found == Got(Now(), f, before)
      ensures Walk(Now(), before + peers[p].elements) && states == Got(Now(), f, before + peers[p].elements)
    {
      var own := peers[p].elements;
      states := found;
      assert before + own[..0] == before;
      for j := 0 to |own|
        invariant Walk(Now(), before + own[..j]) && states == Got(Now(), f, before + own[..j])
      {
        var q := own[j];
        WalkOn(Now(), before, own, j);
        GotOneMore(Now(), f, before + own[..j], q);
        var sees := MayFetch(f, elements[q]);
        if sees {
          if elements[q].value != None { states := states + [(elements[q].path, elements[q].value.value)]; }
        }
      }
      assert own[..|own|] == own;
    }
  }

  lemma ChangeStep(s: State, p: Peer, path: string, v: Json)
    requires Inv(s) && p in s.peers
    ensures Step(s, Command.ChangeState(p, path, v))
            == if path in s.elements && s.elements[path].owner == p && s.elements[path].value.Some?
               then DoChange(s, path, v) else s
    ensures Inv(Step(s, Command.ChangeState(p, path, v)))
    ensures path in s.elements ==> s.elements[path].path == path
  {
    StepKeepsInv(s, Command.ChangeState(p, path, v));
  }

  lemma AddFetchStep(s: State, p: Peer, id: FetchId, matchers: seq<Matcher>)
    requires Inv(s) && p in s.peers
    ensures FindFetch(s.peers[p].fetches, id) != None ==> Step(s, Command.AddFetch(p, id, matchers)) == s
    ensures FindFetch(s.peers[p].fetches, id) == None ==>
              var f := Fetch(s.next, p, id, matchers);
              NewFetch(s, f) && (forall q :: q in PathsOf(s.peers, s.order) ==> q in s.elements)
              && Step(s, Command.AddFetch(p, id, matchers)) == DoFetch(s, f)
    ensures Inv(Step(s, Command.AddFetch(p, id, matchers)))
  {
    hide Exact, Mirror, Sees;
    StepKeepsInv(s, Command.AddFetch(p, id, matchers));
    AllPaths(s);
  }

  lemma UnfetchStep(s: State, p: Peer, id: FetchId)
    requires Inv(s) && p in s.peers
    ensures var f := FindFetch(s.peers[p].fetches, id);
            if f == None then Step(s, Unfetch(p, id)) == s
            else Live(s, f.value) && Step(s, Unfetch(p, id)) == DropFetch(s, f.value)
    ensures Inv(Step(s, Unfetch(p, id)))
  {
    hide Exact, Mirror, Sees, PeerList, Owned;
    StepKeepsInv(s, Unfetch(p, id));
    if FindFetch(s.peers[p].fetches, id) != None { FoundFetch(s, p, id); }
  }

  lemma AuthenticateStep(s: State, p: Peer, credentials: Option<nat>)
    requires Inv(s) && p in s.peers
    ensures Step(s, Authenticate(p, credentials))
            == if s.peers[p].fetches == [] && credentials != None then SetGroups(s, p, credentials.value) else s
    ensures Inv(Step(s, Authenticate(p, credentials)))
  {
    hide Exact, Mirror, Sees;
    StepKeepsInv(s, Authenticate(p, credentials));
  }

  lemma DisconnectStep(s: State, p: Peer)
    requires Inv(s) && p in s.peers
    ensures Step(s, Disconnect(p)) == DoDisconnect(s, p) && Inv(Step(s, Disconnect(p)))
  {
    hide Exact, Mirror, Sees;
    StepKeepsInv(s, Disconnect(p));
  }

  lemma ClearedAll(s: State, f: Fetch, all: seq<string>)
    requires f.peer in s.peers && forall q :: q in s.elements ==> q in all
    ensures Cleared(s, f, all) == DropFetch(s, f).elements
  {
  }

  lemma {:induction false} GotConcat(s: State, f: Fetch, a: seq<string>, b: seq<string>)
    requires forall p :: p in a || p in b ==> p in s.elements
    ensures Got(s, f, a + b) == Got(s, f, a) + Got(s, f, b)
    decreases a
  {
    hide Shown;
    if a == [] {
      assert a + b == b;
    } else {
      assert a == [a[0]] + a[1..] && (a + b)[0] == a[0] && (a + b)[1..] == a[1..] + b;
      GotConcat(s, f, a[1..], b);
    }
  }

  lemma GotOneMore(s: State, f: Fetch, a: seq<string>, q: string)
    requires (forall p :: p in a ==> p in s.elements) && q in s.elements
    ensures forall p :: p in a + [q] ==> p in s.elements
    ensures Got(s, f, a + [q])
            == Got(s, f, a) + if Sees(s, f, s.elements[q]) && s.elements[q].value.Some?
                then [(q, s.elements[q].value.value)] else []
  {
    GotConcat(s, f, a, [q]);
    assert [q][1..] == [];
  }

  /** Elements, each once. */
  ghost predicate Walk(s: State, ps: seq<string>)
  {
    NoDup(ps) && forall q :: q in ps ==> q in s.elements && s.elements[q].path == q
  }

  lemma PathsUpTo(s: State, i: nat)
    requires PeerList(s) && Owned(s) && i < |s.order|
    ensures forall p :: p in s.order[..i] || p in s.order[..i + 1] ==> p in s.peers
    ensures s.order[i] in s.peers && Walk(s, PathsOf(s.peers, s.order[..i]))
    ensures Walk(s, PathsOf(s.peers, s.order[..i]) + s.peers[s.order[i]].elements)
    ensures PathsOf(s.peers, s.order[..i + 1]) == PathsOf(s.peers, s.order[..i]) + s.peers[s.order[i]].elements
  {
    assert s.order[i] in s.order;
    FetchesOfNext(s.peers, s.order, i);
    OrderedWalk(s, s.order[..i]);
    OrderedWalk(s, s.order[..i + 1]);
  }

  lemma OrderedWalk(s: State, order: seq<Peer>)
    requires Owned(s) && NoDup(order) && forall p :: p in order ==> p in s.peers
    ensures Walk(s, PathsOf(s.peers, order))
  {
    PathsUnique(s, order);
    forall q | q in PathsOf(s.peers, order) ensures q in s.elements && s.elements[q].path == q {
      PathsMember(s, order, q);
    }
  }

  lemma WalkOn(s: State, before: seq<string>, own: seq<string>, j: nat)
    requires Walk(s, before + own) && j < |own|
    ensures own[j] in s.elements && s.elements[own[j]].path == own[j] && own[j] !in before + own[..j]
    ensures before + own[..j + 1] == before + own[..j] + [own[j]]
    ensures Walk(s, before + own[..j]) && Walk(s, before + own[..j] + [own[j]])
  {
    var all := before + own;
    assert all[|before| + j] == own[j] && all[|before| + j] in all;
    WalkPart(s, all, |before| + j);
    WalkPart(s, all, |before| + j + 1);
    assert before + own[..j] == all[..|before| + j];
    assert before + own[..j] + [own[j]] == all[..|before| + j + 1];
  }

  lemma WalkPart(s: State, all: seq<string>, n: nat)
    requires Walk(s, all) && n <= |all|
    ensures Walk(s, all[..n])
  {
    forall q | q in all[..n] ensures q in all {}
  }

  lemma EventsOneMore(s: State, f: Fetch, a: seq<string>, q: string)
    requires (forall p :: p in a ==> p in s.elements) && q in s.elements
    ensures forall p :: p in a + [q] ==> p in s.elements
    ensures AddEvents(s, f, a + [q])
            == AddEvents(s, f, a) + if Sees(s, f, s.elements[q]) then [Event(f.uid, Add, q, s.elements[q].value)]
                else []
  {
    EventsConcat(s, f, a, [q]);
    assert [q][1..] == [];
  }

  lemma {:induction false} SamePaths(a: map<Peer, PeerInfo>, b: map<Peer, PeerInfo>, order: seq<Peer>)
    requires forall p :: p in order ==> p in a && p in b && a[p].elements == b[p].elements
    ensures PathsOf(a, order) == PathsOf(b, order)
    decreases order
  {
    if order != [] { assert order == [order[0]] + order[1..]; SamePaths(a, b, order[1..]); }
  }

  lemma {:induction false} SameEvents(s: State, t: State, f: Fetch, ps: seq<string>)
    requires SameGroups(s, t) && s.elements == t.elements && forall p :: p in ps ==> p in s.elements
    ensures AddEvents(s, f, ps) == AddEvents(t, f, ps)
    decreases ps
  {
    if ps != [] {
      assert ps == [ps[0]] + ps[1..];
      SeesSame(s, t, f, s.elements[ps[0]], s.elements[ps[0]]);
      SameEvents(s, t, f, ps[1..]);
    }
  }

  /** The fetch as entered into its peer's list, before it is offered to the elements. */
  function Listed(s: State, f: Fetch): State
    requires f.peer in s.peers
  {
    s.(next := s.next + 1,
       peers := s.peers[f.peer := s.peers[f.peer].(fetches := s.peers[f.peer].fetches + [f])])
  }

  lemma ListedLists(s: State, f: Fetch)
    requires Lists(s) && f.peer in s.peers
    ensures PeerList(Listed(s, f)) && Owned(Listed(s, f)) && SameGroups(s, Listed(s, f))
    ensures PathsOf(Listed(s, f).peers, s.order) == PathsOf(s.peers, s.order)
  {
    var t := Listed(s, f);
    SameOwnershipKeeps(s, t);
    SamePaths(s.peers, t.peers, s.order);
  }

  lemma EnteredAll(s: State, t: State, f: Fetch, all: seq<string>)
    requires SameGroups(s, t) && t.elements == s.elements && forall q :: q in s.elements ==> q in all
    ensures Entered(t, f, all) == map q | q in s.elements ::
              var e := s.elements[q]; if Sees(s, f, e) then e.(fetchers := AddFetcher(e.fetchers, f)) else e
  {
    forall q | q in s.elements ensures Sees(t, f, s.elements[q]) == Sees(s, f, s.elements[q]) {
      SeesSame(s, t, f, s.elements[q], s.elements[q]);
    }
  }

  lemma FetchDone(s: State, f: Fetch, t: State)
    requires Lists(s) && NewFetch(s, f) && t == Listed(s, f)
    ensures PeerList(t) && Owned(t) && (forall q :: q in PathsOf(t.peers, t.order) ==> q in s.elements)
    ensures (forall p :: p in s.order ==> p in s.peers) && forall q :: q in PathsOf(s.peers, s.order) ==>
        q in s.elements
    ensures var all := PathsOf(t.peers, t.order);
            DoFetch(s, f) == t.(elements := Entered(t, f, all), sent := s.sent + AddEvents(t, f, all))
  {
    ListedLists(s, f);
    AllPaths(s);
    var all := PathsOf(s.peers, s.order);
    EnteredAll(s, t, f, all);
    SameEvents(s, t, f, all);
  }
}
