/** The broker: elements, fetches and the events sent to fetching peers. src/fetch.c, src/element.c,
    src/peer.c and src/authenticate.c, without allocation or send failures. */
module BrokerState {
  import opened Options
  import opened Groups
  import opened Matchers

  type Peer = nat

  /** A JSON value, as its text. */
  type Json = string

  datatype FetchId = Number(n: int) | Text(s: string)

  /** `uid` stands for the identity of the allocated struct fetch. */
  datatype Fetch = Fetch(uid: nat, peer: Peer, id: FetchId, matchers: seq<Matcher>)

  /** An element; a method has no value. The fetcher table grows by doubling and has free places. */
  datatype Element = Element(path: string, owner: Peer, value: Option<Json>, fetchOnly: bool, groups: nat,
                             fetchers: seq<Option<Fetch>>)

  datatype PeerInfo = PeerInfo(groups: nat, elements: seq<string>, fetches: seq<Fetch>)

  datatype Kind = Add | Change | Remove

  /** A notification sent for the fetch with that identity. */
  datatype Event = Event(fetch: nat, kind: Kind, path: string, value: Option<Json>)

  datatype State = State(enabled: bool, order: seq<Peer>, peers: map<Peer, PeerInfo>, elements: map<string, Element>,
                         sent: seq<Event>, next: nat)

  /** CONFIG_INITIAL_FETCH_TABLE_SIZE. */
  const INITIAL_FETCHERS: nat := 4

  // ---------- The fetcher table ----------

  /** The first free place takes the fetch. */
  function PutFirstFree(t: seq<Option<Fetch>>, f: Fetch): seq<Option<Fetch>>
    requires None in t
  {
    if t[0] == None then [Some(f)] + t[1..] else [t[0]] + PutFirstFree(t[1..], f)
  }

  /** add_fetch_to_state: a full table is doubled first. */
  function AddFetcher(t: seq<Option<Fetch>>, f: Fetch): seq<Option<Fetch>>
  {
    if None in t then PutFirstFree(t, f)
    else
      var size := if 2 * |t| > INITIAL_FETCHERS then 2 * |t| else INITIAL_FETCHERS;
      t + [Some(f)] + seq(size - |t| - 1, _ => None)
  }

  /** remove_fetch_from_state. */
  function RemoveFetcher(t: seq<Option<Fetch>>, f: Fetch): (r: seq<Option<Fetch>>)
    ensures |r| == |t|
  {
    seq(|t|, i requires 0 <= i < |t| => if t[i] == Some(f) then None else t[i])
  }

  /** How often the table names the fetch with that identity. */
  function Times(t: seq<Option<Fetch>>, uid: nat): nat
  {
    if t == [] then 0 else (if t[0].Some? && t[0].value.uid == uid then 1 else 0) + Times(t[1..], uid)
  }

  // ---------- Who sees what ----------

  function GroupsOf(s: State, p: Peer): nat
  {
    if p in s.peers then s.peers[p].groups else 0
  }

  /** The simple relation that the fetcher tables index: the fetch matches the path and its peer has
      access to the element. */
  predicate Sees(s: State, f: Fetch, e: Element)
  {
    HasAccess(s.enabled, e.groups, GroupsOf(s, f.peer)) && StateMatches(f.matchers, e.path)
  }

  predicate Live(s: State, f: Fetch)
  {
    f.peer in s.peers && f in s.peers[f.peer].fetches
  }

  /** The elements that a fetch should know of, with their values. */
  function View(s: State, f: Fetch): map<string, Option<Json>>
  {
    map p | p in s.elements && Sees(s, f, s.elements[p]) :: s.elements[p].value
  }

  /** What a client makes of the events it is sent: None once an event does not fit. */
  function Apply(m: Option<map<string, Option<Json>>>, e: Event): Option<map<string, Option<Json>>>
  {
    if m.None? then None
    else match e.kind
      case Add => if e.path in m.value then None else Some(m.value[e.path := e.value])
      case Change => if e.path in m.value then Some(m.value[e.path := e.value]) else None
      case Remove => if e.path in m.value then Some(m.value - {e.path}) else None
  }

  function Replay(uid: nat, m: Option<map<string, Option<Json>>>, es: seq<Event>): Option<map<string, Option<Json>>>
    decreases es
  {
    if es == [] then m else Replay(uid, if es[0].fetch == uid then Apply(m, es[0]) else m, es[1..])
  }

  // ---------- The steps ----------

  /** notify_fetchers. */
  function Notes(t: seq<Option<Fetch>>, kind: Kind, path: string, value: Option<Json>): seq<Event>
  {
    if t == [] then []
    else (if t[0].Some? then [Event(t[0].value.uid, kind, path, value)] else []) + Notes(t[1..], kind, path, value)
  }

  /** All fetches, or all paths, of the peers in the order of the peer list. */
  function FetchesOf(peers: map<Peer, PeerInfo>, order: seq<Peer>): seq<Fetch>
    requires forall p :: p in order ==> p in peers
  {
    if order == [] then [] else peers[order[0]].fetches + FetchesOf(peers, order[1..])
  }

  function PathsOf(peers: map<Peer, PeerInfo>, order: seq<Peer>): seq<string>
    requires forall p :: p in order ==> p in peers
  {
    if order == [] then [] else peers[order[0]].elements + PathsOf(peers, order[1..])
  }

  /** find_fetchers_for_element on a new element. */
  function FindFetchers(s: State, e: Element, fs: seq<Fetch>): (Element, seq<Event>)
    decreases fs
  {
    if fs == [] then (e, [])
    else if Sees(s, fs[0], e) then
      var r := FindFetchers(s, e.(fetchers := AddFetcher(e.fetchers, fs[0])), fs[1..]);
      (r.0, [Event(fs[0].uid, Add, e.path, e.value)] + r.1)
    else FindFetchers(s, e, fs[1..])
  }

  /** add_fetch_to_states: the events of a new fetch over the given paths. */
  function AddEvents(s: State, f: Fetch, ps: seq<string>): seq<Event>
    requires forall p :: p in ps ==> p in s.elements
  {
    if ps == [] then []
    else (if Sees(s, f, s.elements[ps[0]]) then [Event(f.uid, Add, ps[0], s.elements[ps[0]].value)] else [])
         + AddEvents(s, f, ps[1..])
  }

  /** remove_element. */
  function DropElement(s: State, path: string): State
    requires path in s.elements && s.elements[path].owner in s.peers
  {
    var e := s.elements[path];
    var info := s.peers[e.owner];
    s.(elements := s.elements - {path},
       peers := s.peers[e.owner := info.(elements := Without(info.elements, path))],
       sent := s.sent + Notes(e.fetchers, Remove, path, e.value))
  }

  /** list_del: the sequence without an element. */
  function Without<T(==)>(xs: seq<T>, x: T): seq<T>
  {
    if xs == [] then [] else if xs[0] == x then xs[1..] else [xs[0]] + Without(xs[1..], x)
  }

  /** Removing a fetch from all elements and from its peer. */
  function DropFetch(s: State, f: Fetch): State
    requires f.peer in s.peers
  {
    var info := s.peers[f.peer];
    s.(elements := map p | p in s.elements :: s.elements[p].(fetchers := RemoveFetcher(s.elements[p].fetchers, f)),
       peers := s.peers[f.peer := info.(fetches := Without(info.fetches, f))])
  }

  function FindFetch(fs: seq<Fetch>, id: FetchId): Option<Fetch>
  {
    if fs == [] then None else if fs[0].id == id then Some(fs[0]) else FindFetch(fs[1..], id)
  }

  datatype Command =
    | Connect(peer: Peer, groups: nat)
    | AddElement(peer: Peer, path: string, value: Option<Json>, fetchOnly: bool, groups: nat)
    | ChangeState(peer: Peer, path: string, newValue: Json)
    | RemoveElement(peer: Peer, path: string)
    | AddFetch(peer: Peer, id: FetchId, matchers: seq<Matcher>)
    | Unfetch(peer: Peer, id: FetchId)
    | Authenticate(peer: Peer, credentials: Option<nat>)
    | Disconnect(peer: Peer)

  function NewElement(p: Peer, path: string, value: Option<Json>, fetchOnly: bool, groups: nat): Element
  {
    Element(path, p, value, fetchOnly, groups, seq(INITIAL_FETCHERS, _ => None))
  }

  /** add_element_to_peer: the fetching peers are told first, then the element is entered. */
  function DoAddElement(s: State, p: Peer, e: Element): State
    requires p in s.peers && forall q :: q in s.order ==> q in s.peers
  {
    var r := FindFetchers(s, e, FetchesOf(s.peers, s.order));
    var info := s.peers[p];
    s.(elements := s.elements[e.path := r.0],
       peers := s.peers[p := info.(elements := info.elements + [e.path])],
       sent := s.sent + r.1)
  }

  /** add_element_to_peer when the element table is full: the element is freed again. */
  function DoAddElementFull(s: State, e: Element): State
    requires forall q :: q in s.order ==> q in s.peers
  {
    s.(sent := s.sent + FindFetchers(s, e, FetchesOf(s.peers, s.order)).1)
  }

  function DoChange(s: State, path: string, v: Json): State
    requires path in s.elements
  {
    var e := s.elements[path];
    s.(elements := s.elements[path := e.(value := Some(v))],
       sent := s.sent + Notes(e.fetchers, Change, path, Some(v)))
  }

  /** add_fetch_to_peer, then add_fetch_to_states. */
  function DoFetch(s: State, f: Fetch): State
    requires f.peer in s.peers && forall q :: q in s.order ==> q in s.peers
    requires forall q :: q in PathsOf(s.peers, s.order) ==> q in s.elements
  {
    var info := s.peers[f.peer];
    s.(peers := s.peers[f.peer := info.(fetches := info.fetches + [f])],
       elements := map q | q in s.elements ::
         var e := s.elements[q]; if Sees(s, f, e) then e.(fetchers := AddFetcher(e.fetchers, f)) else e,
       sent := s.sent + AddEvents(s, f, PathsOf(s.peers, s.order)),
       next := s.next + 1)
  }

  function SetGroups(s: State, p: Peer, groups: nat): State
    requires p in s.peers
  {
    s.(peers := s.peers[p := s.peers[p].(groups := groups)])
  }

  function DropFetches(s: State, fs: seq<Fetch>): State
    requires forall f :: f in fs ==> f.peer in s.peers
    decreases fs
  {
    if fs == [] then s else assert fs[0] in fs; DropFetches(DropFetch(s, fs[0]), fs[1..])
  }

  /** An owner's elements, removed one after the other. */
  function DropElements(s: State, ps: seq<string>): State
    requires forall p :: p in ps ==> p in s.elements && s.elements[p].owner in s.peers
    requires NoDup(ps)
    decreases ps
  {
    if ps == [] then s else assert ps[0] in ps; DropElements(DropElement(s, ps[0]), ps[1..])
  }

  predicate NoDup<T(==)>(xs: seq<T>)
  {
    forall i, j :: 0 <= i < j < |xs| ==> xs[i] != xs[j]
  }

  /** list_del and free of a peer that has neither fetches nor elements any more. */
  function DropPeer(s: State, p: Peer): State
  {
    s.(order := Without(s.order, p), peers := s.peers - {p})
  }
}
