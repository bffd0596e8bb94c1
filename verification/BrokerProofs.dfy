/** Index exactness and mirroring: what every step of the broker keeps. */
module BrokerProofs {
  import opened Options
  import opened Groups
  import opened Matchers
  import opened BrokerState

  // ---------- The invariant ----------

  ghost predicate PeerList(s: State)
  {
    NoDup(s.order) && forall p :: p in s.order <==> p in s.peers
  }

  /** Every element is in the list of its owner, once, and nowhere else. */
  ghost predicate Owned(s: State)
  {
    && (forall p :: p in s.peers ==> NoDup(s.peers[p].elements))
    && (forall p, q :: p in s.peers && q in s.peers[p].elements ==> q in s.elements && s.elements[q].owner == p)
    && forall q :: q in s.elements ==>
         s.elements[q].path == q && s.elements[q].owner in s.peers && q in s.peers[s.elements[q].owner].elements
  }

  ghost predicate FetchLists(s: State)
  {
    && (forall p, f :: p in s.peers && f in s.peers[p].fetches ==> f.peer == p && f.uid < s.next)
    && (forall p :: p in s.peers ==> NoDup(s.peers[p].fetches))
    && forall f, g :: Live(s, f) && Live(s, g) && f.uid == g.uid ==> f == g
  }

  /** The table of an element names a fetch exactly once if the fetch sees the element, and not at
      all otherwise, and it names no fetch that is gone. */
  ghost predicate ExactTable(s: State, e: Element)
  {
    && (forall f :: Live(s, f) ==> Times(e.fetchers, f.uid) == if Sees(s, f, e) then 1 else 0)
    && forall f :: Some(f) in e.fetchers ==> Live(s, f)
  }

  ghost predicate Exact(s: State)
  {
    forall q :: q in s.elements ==> ExactTable(s, s.elements[q])
  }

  predicate KnownTo(es: seq<Event>, n: nat)
  {
    forall i :: 0 <= i < |es| ==> es[i].fetch < n
  }

  ghost predicate SentKnown(s: State) { KnownTo(s.sent, s.next) }

  /** Replaying the events sent to a live fetch gives exactly the elements it sees, with values. */
  ghost predicate Mirrors(s: State, f: Fetch)
  {
    Replay(f.uid, Some(map[]), s.sent) == Some(View(s, f))
  }

  ghost predicate Mirror(s: State)
  {
    forall f :: Live(s, f) ==> Mirrors(s, f)
  }

  ghost predicate Lists(s: State) { PeerList(s) && Owned(s) && FetchLists(s) && SentKnown(s) }

  ghost predicate Inv(s: State) { Lists(s) && Exact(s) && Mirror(s) }

  // ---------- Replays ----------

  type Mirrored = Option<map<string, Option<Json>>>

  lemma {:induction false} ReplayConcat(uid: nat, m: Mirrored, a: seq<Event>, b: seq<Event>)
    ensures Replay(uid, m, a + b) == Replay(uid, Replay(uid, m, a), b)
    decreases a
  {
    if a == [] {
      assert a + b == b;
    } else {
      assert (a + b)[1..] == a[1..] + b;
      ReplayConcat(uid, if a[0].fetch == uid then Apply(m, a[0]) else m, a[1..], b);
    }
  }

  lemma {:induction false} ReplayOthers(uid: nat, m: Mirrored, es: seq<Event>)
    requires forall i :: 0 <= i < |es| ==> es[i].fetch != uid
    ensures Replay(uid, m, es) == m
    decreases es
  {
    if es != [] { ReplayOthers(uid, m, es[1..]); }
  }

  /** What a client makes of the same event n times in a row. */
  function Applied(m: Mirrored, e: Event, n: nat): Mirrored
    decreases n
  {
    if n == 0 then m else Applied(Apply(m, e), e, n - 1)
  }

  /** A notification reaches a fetch as often as the table names it. */
  lemma {:induction false} NotesReplay(t: seq<Option<Fetch>>, kind: Kind, path: string, value: Option<Json>, uid: nat,
      m: Mirrored)
    ensures Replay(uid, m, Notes(t, kind, path, value)) == Applied(m, Event(uid, kind, path, value), Times(t, uid))
    decreases t
  {
    if t != [] {
      var e := if t[0].Some? then [Event(t[0].value.uid, kind, path, value)] else [];
      var rest := Notes(t[1..], kind, path, value);
      ReplayConcat(uid, m, e, rest);
      NotesReplay(t[1..], kind, path, value, uid, Replay(uid, m, e));
      if t[0].Some? { assert e[1..] == []; }
    }
  }

  lemma {:induction false} NotesFetches(t: seq<Option<Fetch>>, kind: Kind, path: string, value: Option<Json>, n: nat)
    requires forall f :: Some(f) in t ==> f.uid < n
    ensures forall i :: 0 <= i < |Notes(t, kind, path, value)| ==> Notes(t, kind, path, value)[i].fetch < n
    decreases t
  {
    if t != [] {
      assert t[0] in t;
      assert forall f :: f in t[1..] ==> f in t;
      NotesFetches(t[1..], kind, path, value, n);
    }
  }

  // ---------- Fetcher tables ----------

  lemma {:induction false} TimesConcat(a: seq<Option<Fetch>>, b: seq<Option<Fetch>>, uid: nat)
    ensures Times(a + b, uid) == Times(a, uid) + Times(b, uid)
    decreases a
  {
    if a == [] { assert a + b == b; } else { assert (a + b)[1..] == a[1..] + b; TimesConcat(a[1..], b, uid); }
  }

  lemma {:induction false} TimesNone(n: nat, uid: nat)
    ensures Times(seq(n, _ => None), uid) == 0
  {
    var t: seq<Option<Fetch>> := seq(n, _ => None);
    if n > 0 { assert t[1..] == seq(n - 1, _ => None); TimesNone(n - 1, uid); }
  }

  lemma {:induction false} PutFirstFreeEffect(t: seq<Option<Fetch>>, f: Fetch, uid: nat)
    requires None in t
    ensures Times(PutFirstFree(t, f), uid) == Times(t, uid) + if uid == f.uid then 1 else 0
    ensures forall g :: Some(g) in PutFirstFree(t, f) <==> g == f || Some(g) in t
    decreases t
  {
    var r := PutFirstFree(t, f);
    assert t == [t[0]] + t[1..];
    if t[0] == None {
      assert r[1..] == t[1..];
    } else {
      PutFirstFreeEffect(t[1..], f, uid);
      assert r[1..] == PutFirstFree(t[1..], f);
    }
  }

  /** Adding a fetch names it once more and changes nothing else, whether or not the table grows. */
  lemma AddFetcherEffect(t: seq<Option<Fetch>>, f: Fetch, uid: nat)
    ensures Times(AddFetcher(t, f), uid) == Times(t, uid) + if uid == f.uid then 1 else 0
    ensures forall g :: Some(g) in AddFetcher(t, f) <==> g == f || Some(g) in t
  {
    if None in t {
      PutFirstFreeEffect(t, f, uid);
    } else {
      var size := if 2 * |t| > INITIAL_FETCHERS then 2 * |t| else INITIAL_FETCHERS;
      var free: seq<Option<Fetch>> := seq(size - |t| - 1, _ => None);
      TimesConcat(t + [Some(f)], free, uid);
      TimesConcat(t, [Some(f)], uid);
      TimesNone(size - |t| - 1, uid);
      assert [Some(f)][1..] == [];
    }
  }

  lemma {:induction false} RemoveFetcherEffect(t: seq<Option<Fetch>>, f: Fetch, uid: nat)
    requires forall g :: Some(g) in t && g.uid == f.uid ==> g == f
    ensures Times(RemoveFetcher(t, f), uid) == if uid == f.uid then 0 else Times(t, uid)
    ensures forall g :: Some(g) in RemoveFetcher(t, f) <==> g != f && Some(g) in t
    decreases t
  {
    var r := RemoveFetcher(t, f);
    forall g ensures Some(g) in r <==> g != f && Some(g) in t {
      if g != f && Some(g) in t { var i :| 0 <= i < |t| && t[i] == Some(g); assert r[i] == Some(g); }
    }
    if t != [] {
      assert t[0] in t;
      assert forall g :: g in t[1..] ==> g in t;
      assert r[1..] == RemoveFetcher(t[1..], f);
      RemoveFetcherEffect(t[1..], f, uid);
    }
  }

  // ---------- The lists of all peers ----------

  predicate UniqueUids(fs: seq<Fetch>)
  {
    forall i, j :: 0 <= i < j < |fs| ==> fs[i].uid != fs[j].uid
  }

  lemma {:induction false} FetchesMember(s: State, order: seq<Peer>, f: Fetch)
    requires FetchLists(s) && forall p :: p in order ==> p in s.peers
    ensures f in FetchesOf(s.peers, order) <==> f.peer in order && Live(s, f)
    decreases order
  {
    if order != [] {
      assert order == [order[0]] + order[1..];
      FetchesMember(s, order[1..], f);
    }
  }

  lemma {:induction false} FetchesUnique(s: State, order: seq<Peer>)
    requires FetchLists(s) && NoDup(order) && forall p :: p in order ==> p in s.peers
    ensures UniqueUids(FetchesOf(s.peers, order))
    decreases order
  {
    if order != [] {
      var p, here, rest := order[0], s.peers[order[0]].fetches, FetchesOf(s.peers, order[1..]);
      assert p !in order[1..];
      FetchesUnique(s, order[1..]);
      forall i, j | 0 <= i < j < |here| ensures here[i].uid != here[j].uid {
        assert Live(s, here[i]) && Live(s, here[j]);
      }
      forall i, j | 0 <= i < |here| && 0 <= j < |rest| ensures here[i].uid != rest[j].uid {
        assert rest[j] in rest;
        FetchesMember(s, order[1..], rest[j]);
        assert Live(s, here[i]) && here[i].peer == p;
      }
    }
  }

  lemma {:induction false} PathsMember(s: State, order: seq<Peer>, q: string)
    requires Owned(s) && forall p :: p in order ==> p in s.peers
    ensures q in PathsOf(s.peers, order) <==> q in s.elements && s.elements[q].owner in order
    decreases order
  {
    if order != [] {
      assert order == [order[0]] + order[1..];
      PathsMember(s, order[1..], q);
    }
  }

  lemma {:induction false} PathsUnique(s: State, order: seq<Peer>)
    requires Owned(s) && NoDup(order) && forall p :: p in order ==> p in s.peers
    ensures NoDup(PathsOf(s.peers, order))
    decreases order
  {
    if order != [] {
      var p, here, rest := order[0], s.peers[order[0]].elements, PathsOf(s.peers, order[1..]);
      assert p !in order[1..];
      PathsUnique(s, order[1..]);
      forall i, j | 0 <= i < |here| && 0 <= j < |rest| ensures here[i] != rest[j] {
        assert rest[j] in rest && here[i] in here;
        PathsMember(s, order[1..], rest[j]);
      }
    }
  }

  lemma AllFetches(s: State)
    requires PeerList(s) && FetchLists(s)
    ensures UniqueUids(FetchesOf(s.peers, s.order))
    ensures forall f :: f in FetchesOf(s.peers, s.order) <==> Live(s, f)
  {
    FetchesUnique(s, s.order);
    forall f ensures f in FetchesOf(s.peers, s.order) <==> Live(s, f) { FetchesMember(s, s.order, f); }
  }

  lemma AllPaths(s: State)
    requires PeerList(s) && Owned(s)
    ensures NoDup(PathsOf(s.peers, s.order))
    ensures forall q :: q in PathsOf(s.peers, s.order) <==> q in s.elements
  {
    PathsUnique(s, s.order);
    forall q ensures q in PathsOf(s.peers, s.order) <==> q in s.elements { PathsMember(s, s.order, q); }
  }

  // ---------- A new element ----------

  lemma {:induction false} FindFetchersKeeps(s: State, e: Element, fs: seq<Fetch>)
    ensures FindFetchers(s, e, fs).0 == e.(fetchers := FindFetchers(s, e, fs).0.fetchers)
    decreases fs
  {
    if fs != [] {
      FindFetchersKeeps(s, if Sees(s, fs[0], e) then e.(fetchers := AddFetcher(e.fetchers, fs[0])) else e, fs[1..]);
    }
  }

  /** The new element's table names each fetch that sees it once, and that fetch is told once. */
  lemma {:induction false} FindFetchersEffect(s: State, e: Element, fs: seq<Fetch>, f: Fetch, m: Mirrored)
    requires UniqueUids(fs) && f in fs
    ensures var r := FindFetchers(s, e, fs);
            && Times(r.0.fetchers, f.uid) == Times(e.fetchers, f.uid) + (if Sees(s, f, e) then 1 else 0)
            && Replay(f.uid, m, r.1) == if Sees(s, f, e) then Apply(m, Event(f.uid, Add, e.path, e.value)) else m
    decreases fs
  {
    var g, t := fs[0], fs[1..];
    var e' := if Sees(s, g, e) then e.(fetchers := AddFetcher(e.fetchers, g)) else e;
    AddFetcherEffect(e.fetchers, g, f.uid);
    assert Sees(s, f, e') == Sees(s, f, e);
    var r := FindFetchers(s, e, fs);
    if Sees(s, g, e) { assert r.1[1..] == FindFetchers(s, e', t).1; }
    if f == g {
      FindFetchersOthers(s, e', t, f.uid, if Sees(s, g, e) then Apply(m, Event(f.uid, Add, e.path, e.value)) else m);
    } else {
      assert f in t;
      assert f.uid != g.uid by { var i :| 0 <= i < |t| && t[i] == f; assert fs[i + 1] == f; }
      FindFetchersEffect(s, e', t, f, m);
    }
  }

  lemma {:induction false} FindFetchersOthers(s: State, e: Element, fs: seq<Fetch>, uid: nat, m: Mirrored)
    requires forall i :: 0 <= i < |fs| ==> fs[i].uid != uid
    ensures var r := FindFetchers(s, e, fs);
            Times(r.0.fetchers, uid) == Times(e.fetchers, uid) && Replay(uid, m, r.1) == m
    decreases fs
  {
    if fs != [] {
      var e' := if Sees(s, fs[0], e) then e.(fetchers := AddFetcher(e.fetchers, fs[0])) else e;
      AddFetcherEffect(e.fetchers, fs[0], uid);
      FindFetchersOthers(s, e', fs[1..], uid, m);
      var r := FindFetchers(s, e, fs);
      if Sees(s, fs[0], e) { assert r.1[1..] == FindFetchers(s, e', fs[1..]).1; }
    }
  }

  lemma {:induction false} FindFetchersNames(s: State, e: Element, fs: seq<Fetch>, n: nat)
    requires forall i :: 0 <= i < |fs| ==> fs[i].uid < n
    ensures forall g :: Some(g) in FindFetchers(s, e, fs).0.fetchers ==> Some(g) in e.fetchers || g in fs
    ensures KnownTo(FindFetchers(s, e, fs).1, n)
    decreases fs
  {
    if fs != [] {
      var e' := if Sees(s, fs[0], e) then e.(fetchers := AddFetcher(e.fetchers, fs[0])) else e;
      AddFetcherEffect(e.fetchers, fs[0], 0);
      FindFetchersNames(s, e', fs[1..], n);
      assert forall g :: g in fs <==> g == fs[0] || g in fs[1..];
    }
  }

  /** Nothing was there to be seen of a new element: no live fetch is named or told. */
  lemma NewTable(p: Peer, path: string, value: Option<Json>, fetchOnly: bool, groups: nat, uid: nat)
    ensures Times(NewElement(p, path, value, fetchOnly, groups).fetchers, uid) == 0
    ensures forall g :: Some(g) !in NewElement(p, path, value, fetchOnly, groups).fetchers
  {
    TimesNone(INITIAL_FETCHERS, uid);
  }

  ghost predicate Fresh(s: State, e: Element)
  {
    e.path !in s.elements && (forall uid :: Times(e.fetchers, uid) == 0) && forall g :: Some(g) !in e.fetchers
  }

  /** The same peers with the same fetches. */
  ghost predicate SameFetches(s: State, t: State)
  {
    s.order == t.order && s.next == t.next && s.peers.Keys == t.peers.Keys
    && forall p :: p in s.peers ==> s.peers[p].fetches == t.peers[p].fetches
  }

  lemma SameFetchesKeep(s: State, t: State)
    requires PeerList(s) && FetchLists(s) && SameFetches(s, t)
    ensures PeerList(t) && FetchLists(t)
    ensures forall f :: Live(t, f) <==> Live(s, f)
  {
    forall f ensures Live(t, f) <==> Live(s, f) {}
    forall p, f | p in t.peers && f in t.peers[p].fetches ensures f.peer == p && f.uid < t.next {
      assert f in s.peers[p].fetches;
    }
  }

  lemma KnownConcat(a: seq<Event>, b: seq<Event>, n: nat)
    requires KnownTo(a, n) && KnownTo(b, n)
    ensures KnownTo(a + b, n)
  {
  }

  lemma AddElementOwned(s: State, p: Peer, e: Element)
    requires Lists(s) && p in s.peers && e.path !in s.elements && e.owner == p
    ensures Owned(DoAddElement(s, p, e))
  {
    var t := DoAddElement(s, p, e);
    FindFetchersKeeps(s, e, FetchesOf(s.peers, s.order));
    var here := s.peers[p].elements;
    assert e.path !in here;
    assert t.peers[p].elements == here + [e.path];
    forall r, q | r in t.peers && q in t.peers[r].elements ensures q in t.elements && t.elements[q].owner == r {
      if q != e.path { assert q in s.peers[r].elements; }
    }
    forall q | q in t.elements
      ensures t.elements[q].path == q && t.elements[q].owner in t.peers && q in t.peers[t.elements[q].owner].elements
    {
      if q != e.path { assert q in s.peers[s.elements[q].owner].elements; }
    }
  }

  lemma AddElementLists(s: State, p: Peer, e: Element)
    requires Lists(s) && p in s.peers && Fresh(s, e) && e.owner == p
    ensures Lists(DoAddElement(s, p, e))
    ensures forall f :: Live(DoAddElement(s, p, e), f) <==> Live(s, f)
  {
    var fs := FetchesOf(s.peers, s.order);
    AllFetches(s);
    forall i | 0 <= i < |fs| ensures fs[i].uid < s.next { assert fs[i] in fs; }
    FindFetchersNames(s, e, fs, s.next);
    AddElementOwned(s, p, e);
    SameFetchesKeep(s, DoAddElement(s, p, e));
    KnownConcat(s.sent, FindFetchers(s, e, fs).1, s.next);
  }

  /** Adding an element keeps the index exact and every mirror. */
  lemma AddElementKeepsInv(s: State, p: Peer, e: Element)
    requires Inv(s) && p in s.peers && Fresh(s, e) && e.owner == p
    ensures Inv(DoAddElement(s, p, e))
  {
    var fs := FetchesOf(s.peers, s.order);
    var (e', events) := FindFetchers(s, e, fs);
    var t := DoAddElement(s, p, e);
    AddElementLists(s, p, e);
    AllFetches(s);
    FindFetchersKeeps(s, e, fs);
    forall i | 0 <= i < |fs| ensures fs[i].uid < s.next { assert fs[i] in fs; }
    FindFetchersNames(s, e, fs, s.next);
    forall f | Live(t, f) ensures Times(e'.fetchers, f.uid) == (if Sees(t, f, e') then 1 else 0) && Mirrors(t, f) {
      FindFetchersEffect(s, e, fs, f, Some(View(s, f)));
      ReplayConcat(f.uid, Some(map[]), s.sent, events);
      assert Mirrors(s, f);
      SameSight(s, t, f);
      assert Sees(t, f, e') == Sees(s, f, e);
      AddToView(s, t, f, e');
    }
    assert ExactTable(t, e');
    forall q | q in t.elements ensures ExactTable(t, t.elements[q]) {
      if q != e.path { SameTable(s, t, s.elements[q]); }
    }
  }

  /** What a fetch sees depends on the access settings and on its peer's groups only. */
  ghost predicate SameGroups(s: State, t: State)
  {
    s.enabled == t.enabled && forall p :: GroupsOf(s, p) == GroupsOf(t, p)
  }

  lemma SameSight(s: State, t: State, f: Fetch)
    requires SameGroups(s, t)
    ensures forall e :: Sees(s, f, e) == Sees(t, f, e)
  {
  }

  lemma SameTable(s: State, t: State, e: Element)
    requires ExactTable(s, e) && SameGroups(s, t) && forall f :: Live(s, f) <==> Live(t, f)
    ensures ExactTable(t, e)
  {
  }

  type Picture = map<string, Option<Json>>

  ghost predicate AgreeBut(a: Picture, b: Picture, path: string)
  {
    forall q :: q != path ==> (q in b <==> q in a) && (q in a ==> b[q] == a[q])
  }

  lemma AgreePut(a: Picture, b: Picture, path: string, v: Option<Json>)
    requires AgreeBut(a, b, path) && path in b && b[path] == v
    ensures b == a[path := v]
  {
  }

  lemma AgreeDrop(a: Picture, b: Picture, path: string)
    requires AgreeBut(a, b, path) && path !in b
    ensures b == a - {path}
  {
  }

  lemma AgreeSame(a: Picture, b: Picture, path: string)
    requires AgreeBut(a, b, path) && (path in a <==> path in b) && (path in a ==> a[path] == b[path])
    ensures b == a
  {
  }

  /** Elements that stay the same keep their place in the view of a fetch. */
  lemma OthersStay(s: State, t: State, f: Fetch, path: string)
    requires SameGroups(s, t) && forall q :: q != path ==> (q in s.elements <==> q in t.elements)
    requires forall q :: q != path && q in s.elements ==> SameToSee(s.elements[q], t.elements[q])
    ensures AgreeBut(View(s, f), View(t, f), path)
  {
    forall q | q != path && q in s.elements ensures Sees(t, f, t.elements[q]) == Sees(s, f, s.elements[q]) {
      SeesSame(s, t, f, s.elements[q], t.elements[q]);
    }
  }

  lemma AllStay(s: State, t: State, f: Fetch)
    requires SameGroups(s, t) && s.elements.Keys == t.elements.Keys
    requires forall q :: q in s.elements ==> SameToSee(s.elements[q], t.elements[q])
    ensures View(t, f) == View(s, f)
  {
    forall q | q in s.elements ensures Sees(t, f, t.elements[q]) == Sees(s, f, s.elements[q]) {
      SeesSame(s, t, f, s.elements[q], t.elements[q]);
    }
  }

  ghost predicate SameToSee(e: Element, e': Element)
  {
    e'.path == e.path && e'.groups == e.groups && e'.value == e.value
  }

  lemma SeesSame(s: State, t: State, f: Fetch, e: Element, e': Element)
    requires SameGroups(s, t) && e'.path == e.path && e'.groups == e.groups
    ensures Sees(t, f, e') == Sees(s, f, e)
  {
  }

  lemma AddToView(s: State, t: State, f: Fetch, e: Element)
    requires SameGroups(s, t) && e.path !in s.elements && t.elements == s.elements[e.path := e]
    ensures View(t, f) == if Sees(s, f, e) then View(s, f)[e.path := e.value] else View(s, f)
  {
    SameSight(s, t, f);
  }

  /** When the element table is full, the fetching peers have been told of an element that does not
      come to be: the mirrors stay right exactly if no live fetch would see it. */
  lemma AddElementFullMirrorsIff(s: State, e: Element)
    requires Inv(s) && Fresh(s, e)
    ensures Mirror(DoAddElementFull(s, e)) <==> forall f :: Live(s, f) ==> !Sees(s, f, e)
  {
    var fs := FetchesOf(s.peers, s.order);
    var t := DoAddElementFull(s, e);
    AllFetches(s);
    forall f | Live(s, f) ensures Live(t, f) && (Mirrors(t, f) <==> !Sees(s, f, e)) {
      FindFetchersEffect(s, e, fs, f, Some(View(s, f)));
      ReplayConcat(f.uid, Some(map[]), s.sent, FindFetchers(s, e, fs).1);
      assert Mirrors(s, f) && View(t, f) == View(s, f);
      assert e.path !in View(s, f);
    }
    forall f | Live(t, f) ensures Live(s, f) {}
  }

  /** The same elements in the same lists. */
  ghost predicate SameOwnership(s: State, t: State)
  {
    && s.peers.Keys == t.peers.Keys && s.elements.Keys == t.elements.Keys
    && (forall p :: p in s.peers ==> s.peers[p].elements == t.peers[p].elements)
    && forall q :: q in s.elements ==> t.elements[q].path == s.elements[q].path
                                       && t.elements[q].owner == s.elements[q].owner
  }

  lemma SameOwnershipKeeps(s: State, t: State)
    requires Owned(s) && SameOwnership(s, t)
    ensures Owned(t)
  {
    forall p, q | p in t.peers && q in t.peers[p].elements ensures q in t.elements && t.elements[q].owner == p {
      assert q in s.peers[p].elements;
    }
  }

  lemma TableFetchesKnown(s: State, e: Element)
    requires FetchLists(s) && ExactTable(s, e)
    ensures forall g :: Some(g) in e.fetchers ==> g.uid < s.next
  {
    forall g | Some(g) in e.fetchers ensures g.uid < s.next { assert Live(s, g); }
  }

  /** What a notification of the fetchers of e does to the mirror of f. */
  lemma NotifiedMirror(s: State, e: Element, kind: Kind, value: Option<Json>, f: Fetch)
    requires Exact(s) && Mirrors(s, f) && Live(s, f) && e.path in s.elements && s.elements[e.path] == e
    ensures Replay(f.uid, Some(map[]), s.sent + Notes(e.fetchers, kind, e.path, value))
            == if Sees(s, f, e) then Apply(Some(View(s, f)), Event(f.uid, kind, e.path, value)) else Some(View(s, f))
  {
    assert ExactTable(s, e);
    NotesReplay(e.fetchers, kind, e.path, value, f.uid, Some(View(s, f)));
    ReplayConcat(f.uid, Some(map[]), s.sent, Notes(e.fetchers, kind, e.path, value));
  }

  // ---------- A changed value ----------

  lemma ChangeLists(s: State, path: string, v: Json)
    requires Lists(s) && Exact(s) && path in s.elements
    ensures Lists(DoChange(s, path, v)) && forall f :: Live(DoChange(s, path, v), f) <==> Live(s, f)
  {
    var e := s.elements[path];
    assert ExactTable(s, e);
    TableFetchesKnown(s, e);
    NotesFetches(e.fetchers, Change, path, Some(v), s.next);
    KnownConcat(s.sent, Notes(e.fetchers, Change, path, Some(v)), s.next);
    SameFetchesKeep(s, DoChange(s, path, v));
    SameOwnershipKeeps(s, DoChange(s, path, v));
  }

  lemma ChangedView(s: State, t: State, f: Fetch, path: string, v: Json)
    requires path in s.elements && SameGroups(s, t)
    requires t.elements == s.elements[path := s.elements[path].(value := Some(v))]
    ensures View(t, f) == if Sees(s, f, s.elements[path]) then View(s, f)[path := Some(v)] else View(s, f)
  {
    OthersStay(s, t, f, path);
    SeesSame(s, t, f, s.elements[path], t.elements[path]);
    if Sees(s, f, s.elements[path]) {
      AgreePut(View(s, f), View(t, f), path, Some(v));
    } else {
      AgreeSame(View(s, f), View(t, f), path);
    }
  }

  lemma ChangeMirrors(s: State, path: string, v: Json, f: Fetch)
    requires Inv(s) && path in s.elements && Live(s, f)
    ensures Mirrors(DoChange(s, path, v), f)
  {
    var e, t := s.elements[path], DoChange(s, path, v);
    assert Mirrors(s, f);
    NotifiedMirror(s, e, Change, Some(v), f);
    ChangedView(s, t, f, path, v);
  }

  /** A change is sent to exactly the fetches that see the element. */
  lemma ChangeKeepsInv(s: State, path: string, v: Json)
    requires Inv(s) && path in s.elements
    ensures Inv(DoChange(s, path, v))
  {
    var t := DoChange(s, path, v);
    ChangeLists(s, path, v);
    forall f | Live(t, f) ensures Mirrors(t, f) { ChangeMirrors(s, path, v, f); }
    forall q | q in t.elements ensures ExactTable(t, t.elements[q]) {
      SameTable(s, t, s.elements[q]);
      if q == path { SameElementTable(t, s.elements[q], t.elements[q]); }
    }
  }

  lemma SameElementTable(t: State, e: Element, e': Element)
    requires ExactTable(t, e) && e'.fetchers == e.fetchers && e'.path == e.path && e'.groups == e.groups
    ensures ExactTable(t, e')
  {
    forall f ensures Sees(t, f, e') == Sees(t, f, e) {}
  }

  // ---------- A removed element ----------

  lemma {:induction false} WithoutMember<T>(xs: seq<T>, x: T)
    requires NoDup(xs) && x in xs
    ensures NoDup(Without(xs, x)) && forall y :: y in Without(xs, x) <==> y != x && y in xs
    decreases xs
  {
    assert xs == [xs[0]] + xs[1..];
    if xs[0] != x {
      WithoutMember(xs[1..], x);
      assert xs[0] !in Without(xs[1..], x);
    } else {
      assert x !in xs[1..];
    }
  }

  lemma DropElementOwned(s: State, path: string)
    requires Owned(s) && path in s.elements
    ensures Owned(DropElement(s, path))
  {
    var t := DropElement(s, path);
    var o := s.elements[path].owner;
    WithoutMember(s.peers[o].elements, path);
    forall p, q | p in t.peers && q in t.peers[p].elements ensures q in t.elements && t.elements[q].owner == p {
      assert q in s.peers[p].elements;
    }
    forall q | q in t.elements
      ensures t.elements[q].path == q && t.elements[q].owner in t.peers && q in t.peers[t.elements[q].owner].elements
    {
      assert q in s.peers[s.elements[q].owner].elements;
    }
  }

  lemma DropElementLists(s: State, path: string)
    requires Lists(s) && Exact(s) && path in s.elements
    ensures Lists(DropElement(s, path)) && forall f :: Live(DropElement(s, path), f) <==> Live(s, f)
  {
    var e := s.elements[path];
    assert ExactTable(s, e);
    TableFetchesKnown(s, e);
    NotesFetches(e.fetchers, Remove, path, e.value, s.next);
    KnownConcat(s.sent, Notes(e.fetchers, Remove, path, e.value), s.next);
    SameFetchesKeep(s, DropElement(s, path));
    DropElementOwned(s, path);
  }

  lemma DroppedView(s: State, t: State, f: Fetch, path: string)
    requires path in s.elements && SameGroups(s, t) && t.elements == s.elements - {path}
    ensures View(t, f) == if Sees(s, f, s.elements[path]) then View(s, f) - {path} else View(s, f)
  {
    OthersStay(s, t, f, path);
    if Sees(s, f, s.elements[path]) {
      AgreeDrop(View(s, f), View(t, f), path);
    } else {
      AgreeSame(View(s, f), View(t, f), path);
    }
  }

  lemma DropElementMirrors(s: State, path: string, f: Fetch)
    requires Inv(s) && path in s.elements && Live(s, f)
    ensures Mirrors(DropElement(s, path), f)
  {
    var e, t := s.elements[path], DropElement(s, path);
    assert Mirrors(s, f);
    NotifiedMirror(s, e, Remove, e.value, f);
    DroppedView(s, t, f, path);
  }

  /** A removal is sent to exactly the fetches that saw the element. */
  lemma DropElementKeepsInv(s: State, path: string)
    requires Inv(s) && path in s.elements
    ensures Inv(DropElement(s, path))
  {
    var t := DropElement(s, path);
    DropElementLists(s, path);
    forall f | Live(t, f) ensures Mirrors(t, f) { DropElementMirrors(s, path, f); }
    forall q | q in t.elements ensures ExactTable(t, t.elements[q]) { SameTable(s, t, s.elements[q]); }
  }

  // ---------- A new fetch ----------

  /** The elements among the paths that a fetch sees. */
  function Seen(s: State, f: Fetch, ps: seq<string>): map<string, Option<Json>>
    requires forall p :: p in ps ==> p in s.elements
  {
    map p | p in ps && Sees(s, f, s.elements[p]) :: s.elements[p].value
  }

  lemma SeenStep(s: State, f: Fetch, ps: seq<string>, m: Picture)
    requires ps != [] && NoDup(ps) && forall p :: p in ps ==> p in s.elements
    ensures (forall p :: p in ps[1..] ==> p in s.elements && p != ps[0])
    ensures (if Sees(s, f, s.elements[ps[0]]) then m[ps[0] := s.elements[ps[0]].value] else m) + Seen(s, f, ps[1..])
            == m + Seen(s, f, ps)
  {
    hide Sees;
    assert ps == [ps[0]] + ps[1..];
  }

  lemma SeenAll(s: State, f: Fetch, ps: seq<string>)
    requires forall q :: q in ps <==> q in s.elements
    ensures map[] + Seen(s, f, ps) == View(s, f)
  {
  }

  lemma {:induction false} AddEventsReplay(s: State, f: Fetch, ps: seq<string>, m: map<string, Option<Json>>)
    requires NoDup(ps) && forall p :: p in ps ==> p in s.elements && s.elements[p].path == p && p !in m
    ensures Replay(f.uid, Some(m), AddEvents(s, f, ps))
            == Some(m + Seen(s, f, ps))
    decreases ps
  {
    if ps == [] {
      assert m + Seen(s, f, ps) == m;
    } else {
      var p := ps[0];
      var e := s.elements[p];
      var m' := if Sees(s, f, e) then m[p := e.value] else m;
      assert ps == [p] + ps[1..];
      AddEventsReplay(s, f, ps[1..], m');
      var here := if Sees(s, f, e) then [Event(f.uid, Add, p, e.value)] else [];
      ReplayConcat(f.uid, Some(m), here, AddEvents(s, f, ps[1..]));
      assert Sees(s, f, e) ==> here[1..] == [];
      assert Replay(f.uid, Some(m), here) == Some(m');
      assert AddEvents(s, f, ps) == here + AddEvents(s, f, ps[1..]);
      SeenStep(s, f, ps, m);
    }
  }

  lemma {:induction false} AddEventsFetch(s: State, f: Fetch, ps: seq<string>)
    requires forall p :: p in ps ==> p in s.elements
    ensures forall i :: 0 <= i < |AddEvents(s, f, ps)| ==> AddEvents(s, f, ps)[i].fetch == f.uid
    decreases ps
  {
    if ps != [] {
      assert ps == [ps[0]] + ps[1..];
      AddEventsFetch(s, f, ps[1..]);
    }
  }

  ghost predicate NewFetch(s: State, f: Fetch)
  {
    f.uid == s.next && f.peer in s.peers
  }

  lemma NewFetchLists(s: State, f: Fetch, t: State)
    requires PeerList(s) && FetchLists(s) && NewFetch(s, f) && s.order == t.order && t.next == s.next + 1
    requires t.peers == s.peers[f.peer := s.peers[f.peer].(fetches := s.peers[f.peer].fetches + [f])]
    ensures PeerList(t) && FetchLists(t) && forall g :: Live(t, g) <==> g == f || Live(s, g)
  {
    forall g ensures Live(t, g) <==> g == f || Live(s, g) {}
    forall g | Live(s, g) ensures g.uid < f.uid {}
    assert NoDup(t.peers[f.peer].fetches) by { assert f !in s.peers[f.peer].fetches; }
  }

  lemma FetchKeepsLists(s: State, f: Fetch)
    requires Lists(s) && NewFetch(s, f) && forall q :: q in PathsOf(s.peers, s.order) ==> q in s.elements
    ensures Lists(DoFetch(s, f)) && forall g :: Live(DoFetch(s, f), g) <==> g == f || Live(s, g)
  {
    var t := DoFetch(s, f);
    NewFetchLists(s, f, t);
    AddEventsFetch(s, f, PathsOf(s.peers, s.order));
    SameOwnershipKeeps(s, t);
    KnownConcat(s.sent, AddEvents(s, f, PathsOf(s.peers, s.order)), t.next);
  }

  /** No event has been sent yet to a fetch that is just created. */
  lemma NothingSentYet(s: State, f: Fetch)
    requires SentKnown(s) && NewFetch(s, f)
    ensures Replay(f.uid, Some(map[]), s.sent) == Some(map[])
  {
    ReplayOthers(f.uid, Some(map[]), s.sent);
  }

  lemma FetchSameGroups(s: State, f: Fetch)
    requires NewFetch(s, f) && (forall q :: q in s.order ==> q in s.peers)
    requires forall q :: q in PathsOf(s.peers, s.order) ==> q in s.elements
    ensures SameGroups(s, DoFetch(s, f))
  {
  }

  lemma NewFetchMirrors(s: State, f: Fetch)
    requires Inv(s) && NewFetch(s, f)
    ensures (forall q :: q in PathsOf(s.peers, s.order) ==> q in s.elements) && Mirrors(DoFetch(s, f), f)
  {
    var ps := PathsOf(s.peers, s.order);
    AllPaths(s);
    var t := DoFetch(s, f);
    NothingSentYet(s, f);
    AddEventsReplay(s, f, ps, map[]);
    ReplayConcat(f.uid, Some(map[]), s.sent, AddEvents(s, f, ps));
    FetchSameGroups(s, f);
    SeenAll(s, f, ps);
    AllStay(s, t, f);
  }

  lemma OtherFetchMirrors(s: State, f: Fetch, g: Fetch)
    requires Inv(s) && NewFetch(s, f) && Live(s, g) && forall q :: q in PathsOf(s.peers, s.order) ==> q in s.elements
    ensures Mirrors(DoFetch(s, f), g)
  {
    var ps, t := PathsOf(s.peers, s.order), DoFetch(s, f);
    AddEventsFetch(s, f, ps);
    assert Mirrors(s, g) && g.uid < f.uid;
    ReplayConcat(g.uid, Some(map[]), s.sent, AddEvents(s, f, ps));
    ReplayOthers(g.uid, Some(View(s, g)), AddEvents(s, f, ps));
    FetchSameGroups(s, f);
    AllStay(s, t, g);
  }

  /** A new fetch is told of exactly what it sees, and enters exactly those tables. */
  lemma FetchKeepsInv(s: State, f: Fetch)
    requires Inv(s) && NewFetch(s, f)
    ensures (forall q :: q in PathsOf(s.peers, s.order) ==> q in s.elements) && Inv(DoFetch(s, f))
  {
    NewFetchMirrors(s, f);
    var t := DoFetch(s, f);
    FetchKeepsLists(s, f);
    assert SameGroups(s, t);
    forall g | Live(t, g) ensures Mirrors(t, g) { if g != f { OtherFetchMirrors(s, f, g); } }
    forall q | q in t.elements ensures ExactTable(t, t.elements[q]) { FetchKeepsTable(s, f, t, q); }
  }

  lemma FetchKeepsTable(s: State, f: Fetch, t: State, q: string)
    requires Inv(s) && NewFetch(s, f) && q in s.elements && SameGroups(s, t)
    requires forall g :: Live(t, g) <==> g == f || Live(s, g)
    requires q in t.elements && t.elements[q] ==
             var e := s.elements[q]; if Sees(s, f, e) then e.(fetchers := AddFetcher(e.fetchers, f)) else e
    ensures ExactTable(t, t.elements[q])
  {
    var e, e' := s.elements[q], t.elements[q];
    assert ExactTable(s, e);
    AddFetcherEffect(e.fetchers, f, f.uid);
    NotNamed(e.fetchers, f.uid, s);
    forall g | Live(t, g) ensures Times(e'.fetchers, g.uid) == if Sees(t, g, e') then 1 else 0 {
      SameSight(s, t, g);
      assert Sees(t, g, e') == Sees(s, g, e);
      AddFetcherEffect(e.fetchers, f, g.uid);
    }
  }

  lemma {:induction false} NotNamed(t: seq<Option<Fetch>>, uid: nat, s: State)
    requires FetchLists(s) && uid == s.next && forall g :: Some(g) in t ==> Live(s, g)
    ensures Times(t, uid) == 0
    decreases t
  {
    if t != [] {
      assert t == [t[0]] + t[1..] && t[0] in t;
      NotNamed(t[1..], uid, s);
    }
  }

  // ---------- A removed fetch ----------

  lemma DropFetchLists(s: State, f: Fetch)
    requires Lists(s) && Live(s, f)
    ensures Lists(DropFetch(s, f)) && forall g :: Live(DropFetch(s, f), g) <==> g != f && Live(s, g)
  {
    var t := DropFetch(s, f);
    var here := s.peers[f.peer].fetches;
    WithoutMember(here, f);
    assert t.peers[f.peer].fetches == Without(here, f);
    forall g ensures Live(t, g) <==> g != f && Live(s, g) {
      if g.peer in s.peers && g.peer == f.peer { assert g in Without(here, f) <==> g != f && g in here; }
    }
    FewerFetches(s, t);
    SameOwnershipKeeps(s, t);
  }

  lemma FewerFetches(s: State, t: State)
    requires PeerList(s) && FetchLists(s) && s.order == t.order && s.next == t.next && s.peers.Keys == t.peers.Keys
    requires forall p :: p in s.peers ==> NoDup(t.peers[p].fetches)
    requires forall p, g :: p in t.peers && g in t.peers[p].fetches ==> g in s.peers[p].fetches
    ensures PeerList(t) && FetchLists(t)
  {
    forall g | Live(t, g) ensures Live(s, g) {}
  }

  lemma DropFetchTable(s: State, f: Fetch, q: string)
    requires Inv(s) && Live(s, f) && q in s.elements
    ensures ExactTable(DropFetch(s, f), DropFetch(s, f).elements[q])
  {
    var t := DropFetch(s, f);
    DropFetchLists(s, f);
    assert SameGroups(s, t);
    var e, e' := s.elements[q], t.elements[q];
    assert ExactTable(s, e);
    forall g | Some(g) in e.fetchers && g.uid == f.uid ensures g == f { assert Live(s, g); }
    forall g | Live(t, g) ensures Times(e'.fetchers, g.uid) == if Sees(t, g, e') then 1 else 0 {
      RemoveFetcherEffect(e.fetchers, f, g.uid);
      SameSight(s, t, g);
      assert Sees(t, g, e') == Sees(s, g, e);
      assert g.uid != f.uid;
    }
    RemoveFetcherEffect(e.fetchers, f, f.uid);
  }

  /** A removed fetch leaves every table; the others are not touched. */
  lemma DropFetchKeepsInv(s: State, f: Fetch)
    requires Inv(s) && Live(s, f)
    ensures Inv(DropFetch(s, f))
  {
    var t := DropFetch(s, f);
    DropFetchLists(s, f);
    assert SameGroups(s, t);
    forall g | Live(t, g) ensures Mirrors(t, g) {
      assert Mirrors(s, g);
      AllStay(s, t, g);
    }
    forall q | q in t.elements ensures ExactTable(t, t.elements[q]) { DropFetchTable(s, f, q); }
  }
}
