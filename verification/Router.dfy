/** Request routing: src/router.c, set_or_call of src/element.c and the routing part of a disconnect
    in src/peer.c. Requests are numbered in the order of their ids. */
module Router {
  import opened Options
  import opened RoutedIds

  type Peer = nat

  /** How a set or call with an id is answered. */
  datatype Answer = Reply(isError: bool) | Timeout | Shutdown | Failure

  /** `origin` is the text of the client's request id, if it gave one; `armed` says that the timer
      runs; `unsent` that the message to the owner could not be sent. */
  datatype Request = Request(requester: Peer, owner: Peer, origin: Option<string>, address: string, id: string,
                             armed: bool, unsent: bool, answers: seq<Answer>)
  {
    /** Stop the timer and, if the client wants one, send an answer. */
    function Finish(a: Answer): Request
    {
      this.(armed := false, answers := answers + if origin.Some? then [a] else [])
    }
  }

  datatype State = State(requests: seq<Request>, tables: map<Peer, map<string, nat>>)

  const EMPTY := State([], map[])

  /** Request n carries the id that fill_routed_request_id gave it. */
  predicate Named(n: nat, q: Request)
  {
    Address(q.address) && q.id == RoutedId(q.origin, n % UUIDS, q.address)
  }

  // ---------- The steps ----------

  datatype Event =
    | Connect(peer: Peer)
    | SetOrCall(requester: Peer, owner: Peer, origin: Option<string>, address: string, fits: bool, starts: bool,
        sends: bool)
    | Respond(peer: Peer, id: string, isError: bool)
    | TimerExpires(request: nat)
    | Disconnect(peer: Peer)

  /** When the environment can produce an event. */
  predicate Enabled(s: State, e: Event)
  {
    match e
    case Connect(p) => p !in s.tables
    case SetOrCall(p, o, _, address, _, _, _) => p in s.tables && o in s.tables && Address(address)
    case Respond(p, _, _) => p in s.tables
    case TimerExpires(n) => n < |s.requests| && s.requests[n].armed
    case Disconnect(p) => p in s.tables
  }

  function RemoveId(s: State, p: Peer, id: string): State
  {
    if p in s.tables then s.(tables := s.tables[p := s.tables[p] - {id}]) else s
  }

  /** The record of a request: routed with its timer running, or failed before that; told of a
      failure while its timer runs on, if the message to the owner could not be sent. */
  function NewRecord(n: nat, p: Peer, o: Peer, origin: Option<string>, address: string, routed: bool,
      sends: bool): Request
    requires Address(address)
  {
    var q := Request(p, o, origin, address, RoutedId(origin, n % UUIDS, address), true, false, []);
    if !routed then q.Finish(Failure)
    else if !sends then q.(unsent := true, answers := if origin.Some? then [Failure] else [])
    else q
  }

  /** alloc_routing_request, setup_routing_information and the forwarding of set_or_call. */
  function RouteRequest(s: State, p: Peer, o: Peer, origin: Option<string>, address: string,
                        fits: bool, starts: bool, sends: bool): State
    requires o in s.tables && Address(address)
  {
    var n: nat := |s.requests|;
    var id := RoutedId(origin, n % UUIDS, address);
    var entered := fits || id in s.tables[o];
    var t := s.(requests := s.requests + [NewRecord(n, p, o, origin, address, entered && starts, sends)]);
    if !entered then t
    else if !starts then RemoveId(t, o, id)
    else
      var table: map<string, nat> := s.tables[o][id := n];
      t.(tables := s.tables[o := table])
  }

  /** handle_routing_response. */
  function RouteResponse(s: State, p: Peer, id: string, isError: bool): State
    requires p in s.tables && (id in s.tables[p] ==> s.tables[p][id] < |s.requests|)
  {
    if id in s.tables[p] then
      var n := s.tables[p][id];
      RemoveId(s.(requests := s.requests[n := s.requests[n].Finish(Reply(isError))]), p, id)
    else s
  }

  /** request_timeout_handler. */
  function Expire(s: State, n: nat): State
    requires n < |s.requests|
  {
    var q := s.requests[n];
    RemoveId(s, q.owner, q.id).(requests := s.requests[n := q.Finish(Timeout)])
  }

  /** Request n can be reached from its owner's routing table. */
  predicate InTable(s: State, n: nat)
    requires n < |s.requests|
  {
    var q := s.requests[n];
    q.owner in s.tables && q.id in s.tables[q.owner] && s.tables[q.owner][q.id] == n
  }

  /** free_peer_resources empties every routing table: its own entries are shut down, and of the
      entries of other peers only those that the leaving peer requested. */
  function Leave(s: State, p: Peer): State
    requires Inv(s)
  {
    State(
      seq(|s.requests|, n requires 0 <= n < |s.requests| =>
        var q := s.requests[n];
        if InTable(s, n) && (q.owner == p || q.requester == p) then q.Finish(Shutdown) else q),
      map o | o in s.tables && o != p :: map[])
  }

  function Step(s: State, e: Event): State
    requires Inv(s) && Enabled(s, e)
  {
    match e
    case Connect(p) => s.(tables := s.tables[p := map[]])
    case SetOrCall(p, o, origin, address, fits, starts, sends) => RouteRequest(s, p, o, origin, address, fits, starts,
        sends)
    case Respond(p, id, isError) => RouteResponse(s, p, id, isError)
    case TimerExpires(n) => Expire(s, n)
    case Disconnect(p) => Leave(s, p)
  }

  // ---------- The invariant ----------

  /** How often a request has been answered: once when its timer no longer runs, and once more if
      it could not be forwarded and the client was told so while the timer ran on. */
  predicate Counted(q: Request)
  {
    |q.answers| == if q.origin.None? then 0 else (if q.armed then 0 else 1) + (if q.unsent then 1 else 0)
  }

  /** Every table entry leads to a request whose timer runs, of that owner and under that id. */
  predicate EntriesArmed(s: State)
  {
    forall o, id :: o in s.tables && id in s.tables[o] ==>
      var n := s.tables[o][id];
      n < |s.requests| && s.requests[n].armed && s.requests[n].owner == o && s.requests[n].id == id
  }

  predicate Inv(s: State)
  {
    EntriesArmed(s) && forall n :: 0 <= n < |s.requests| ==> Named(n, s.requests[n]) && Counted(s.requests[n])
  }

  lemma RouteRequestKeepsInv(s: State, p: Peer, o: Peer, origin: Option<string>, address: string,
                             fits: bool, starts: bool, sends: bool)
    requires Inv(s) && o in s.tables && Address(address)
    ensures Inv(RouteRequest(s, p, o, origin, address, fits, starts, sends))
  {
    NewRequest(s, p, o, origin, address, fits, starts, sends);
    NewEntries(s, p, o, origin, address, fits, starts, sends);
  }

  lemma NewRecordGood(n: nat, p: Peer, o: Peer, origin: Option<string>, address: string, routed: bool, sends: bool)
    requires Address(address)
    ensures var q := NewRecord(n, p, o, origin, address, routed, sends); Named(n, q) && Counted(q)
  {
  }

  lemma NewRequest(s: State, p: Peer, o: Peer, origin: Option<string>, address: string,
                   fits: bool, starts: bool, sends: bool)
    requires Inv(s) && o in s.tables && Address(address)
    ensures var t := RouteRequest(s, p, o, origin, address, fits, starts, sends);
            && |t.requests| == |s.requests| + 1 && t.requests[..|s.requests|] == s.requests
            && forall n :: 0 <= n < |t.requests| ==> Named(n, t.requests[n]) && Counted(t.requests[n])
  {
    hide RoutedId, NewRecord, Named, Counted, EntriesArmed;
    var t := RouteRequest(s, p, o, origin, address, fits, starts, sends);
    var m := |s.requests|;
    assert t.requests[..m] == s.requests && |t.requests| == m + 1;
    var routed := (fits || RoutedId(origin, m % UUIDS, address) in s.tables[o]) && starts;
    NewRecordGood(m, p, o, origin, address, routed, sends);
    forall n | 0 <= n < |t.requests| ensures Named(n, t.requests[n]) && Counted(t.requests[n]) {
      if n < m { assert t.requests[n] == s.requests[n]; }
    }
  }

  lemma NewEntries(s: State, p: Peer, o: Peer, origin: Option<string>, address: string,
                   fits: bool, starts: bool, sends: bool)
    requires Inv(s) && o in s.tables && Address(address)
    ensures EntriesArmed(RouteRequest(s, p, o, origin, address, fits, starts, sends))
  {
    var t := RouteRequest(s, p, o, origin, address, fits, starts, sends);
    var m := |s.requests|;
    NewRequest(s, p, o, origin, address, fits, starts, sends);
    forall k, i | k in t.tables && i in t.tables[k]
      ensures var n := t.tables[k][i];
              n < |t.requests| && t.requests[n].armed && t.requests[n].owner == k && t.requests[n].id == i
    {
      var n := t.tables[k][i];
      if n != m {
        assert i in s.tables[k] && s.tables[k][i] == n;
        assert t.requests[..m][n] == s.requests[n];
      } else {
        OnlyNewEntry(s, p, o, origin, address, fits, starts, sends, k, i);
      }
    }
  }

  lemma OnlyNewEntry(s: State, p: Peer, o: Peer, origin: Option<string>, address: string,
                     fits: bool, starts: bool, sends: bool, k: Peer, i: string)
    requires Inv(s) && o in s.tables && Address(address)
    requires var t := RouteRequest(s, p, o, origin, address, fits, starts, sends);
             k in t.tables && i in t.tables[k] && t.tables[k][i] == |s.requests|
    ensures var q := RouteRequest(s, p, o, origin, address, fits, starts, sends).requests[|s.requests|];
            q.armed && q.owner == o == k && i == q.id
  {
    assert i in s.tables[k] ==> s.tables[k][i] != |s.requests|;
  }

  lemma RouteResponseKeepsInv(s: State, p: Peer, id: string, isError: bool)
    requires Inv(s) && p in s.tables
    ensures Inv(RouteResponse(s, p, id, isError))
  {
    if id in s.tables[p] {
      var n := s.tables[p][id];
      var t := RouteResponse(s, p, id, isError);
      forall o, i | o in t.tables && i in t.tables[o] ensures t.tables[o][i] != n {
        assert i in s.tables[o] && s.tables[o][i] == t.tables[o][i];
      }
    }
  }

  lemma ExpireKeepsInv(s: State, n: nat)
    requires Inv(s) && n < |s.requests| && s.requests[n].armed
    ensures Inv(Expire(s, n))
  {
    var t := Expire(s, n);
    forall o, i | o in t.tables && i in t.tables[o] ensures t.tables[o][i] != n {
      assert i in s.tables[o] && s.tables[o][i] == t.tables[o][i];
    }
  }

  lemma LeaveKeepsInv(s: State, p: Peer)
    requires Inv(s) && p in s.tables
    ensures Inv(Leave(s, p))
  {
    var t := Leave(s, p);
    forall n | 0 <= n < |t.requests| ensures Named(n, t.requests[n]) && Counted(t.requests[n]) {
      assert Counted(s.requests[n]);
    }
  }

  lemma StepKeepsInv(s: State, e: Event)
    requires Inv(s) && Enabled(s, e)
    ensures Inv(Step(s, e))
  {
    match e
    case Connect(p) =>
    case SetOrCall(p, o, origin, address, fits, starts, sends) =>
      RouteRequestKeepsInv(s, p, o, origin, address, fits, starts, sends);
    case Respond(p, id, isError) => RouteResponseKeepsInv(s, p, id, isError);
    case TimerExpires(n) => ExpireKeepsInv(s, n);
    case Disconnect(p) => LeaveKeepsInv(s, p);
  }

  // ---------- Runs ----------

  ghost predicate Runs(s: State, es: seq<Event>)
    requires Inv(s)
    decreases es
  {
    es == [] || (Enabled(s, es[0]) && (StepKeepsInv(s, es[0]); Runs(Step(s, es[0]), es[1..])))
  }

  ghost function After(s: State, es: seq<Event>): State
    requires Inv(s) && Runs(s, es)
    decreases es
  {
    if es == [] then s else (StepKeepsInv(s, es[0]); After(Step(s, es[0]), es[1..]))
  }

  lemma {:induction false} RunKeepsInv(s: State, es: seq<Event>)
    requires Inv(s) && Runs(s, es)
    ensures Inv(After(s, es)) && |s.requests| <= |After(s, es).requests|
    ensures forall n :: 0 <= n < |s.requests| ==> SameClient(s.requests[n], After(s, es).requests[n])
    decreases es
  {
    if es != [] {
      StepKeepsInv(s, es[0]);
      RunKeepsInv(Step(s, es[0]), es[1..]);
    }
  }

  /** What never changes about a request; a timer is never armed again. */
  predicate SameClient(q: Request, r: Request)
  {
    q.requester == r.requester && q.owner == r.owner && q.origin == r.origin && q.id == r.id
    && q.unsent == r.unsent && (r.armed ==> q.armed)
  }

  /** In every run a set or call with an id is answered at most once, and exactly once when its timer
      no longer runs, if and only if it could be forwarded; otherwise it is answered once by the
      failure and once more when the timer stops. */
  lemma AnsweredOnce(es: seq<Event>, n: nat)
    requires Runs(EMPTY, es) && n < |After(EMPTY, es).requests|
    ensures var q := After(EMPTY, es).requests[n];
            && (q.origin.None? ==> q.answers == [])
            && (q.origin.Some? && !q.unsent ==> |q.answers| == if q.armed then 0 else 1)
            && (q.origin.Some? && q.unsent ==> |q.answers| == if q.armed then 1 else 2)
  {
    RunKeepsInv(EMPTY, es);
  }

  /** A reply is only ever taken from the owner of the request, under the id it was sent. */
  lemma OnlyTheOwnerReplies(s: State, e: Event, n: nat, b: bool)
    requires Inv(s) && Enabled(s, e) && n < |s.requests|
    requires Step(s, e).requests[n].answers == s.requests[n].answers + [Reply(b)]
    ensures e == Respond(s.requests[n].owner, s.requests[n].id, b)
  {
    var answers := s.requests[n].answers;
    assert Step(s, e).requests[n].answers[|answers|] == Reply(b);
  }

  /** The owner's reply to a pending request is passed on exactly when the request can still be
      reached from the owner's table. */
  lemma ReplyPassedOnIff(s: State, n: nat, b: bool)
    requires Inv(s) && n < |s.requests| && s.requests[n].armed && s.requests[n].origin.Some?
    requires s.requests[n].owner in s.tables
    ensures var q := s.requests[n];
            var r := Step(s, Respond(q.owner, q.id, b)).requests[n];
            if InTable(s, n) then r == q.Finish(Reply(b)) else r == q
  {
  }

  /** A request that is out of its owner's table never gets back in. */
  lemma {:induction false} NeverBack(s: State, es: seq<Event>, n: nat)
    requires Inv(s) && Runs(s, es) && n < |s.requests| && !InTable(s, n)
    ensures n < |After(s, es).requests| && !InTable(After(s, es), n)
    decreases es
  {
    if es != [] {
      StepKeepsInv(s, es[0]);
      NotBackInOneStep(s, es[0], n);
      NeverBack(Step(s, es[0]), es[1..], n);
    }
  }

  lemma NotBackOnRemoval(s: State, p: Peer, id: string, requests: seq<Request>, n: nat)
    requires n < |s.requests| == |requests| && !InTable(s, n)
    requires requests[n].owner == s.requests[n].owner && requests[n].id == s.requests[n].id
    ensures !InTable(RemoveId(s.(requests := requests), p, id), n)
  {
  }

  lemma NotBackOnRequest(s: State, p: Peer, o: Peer, origin: Option<string>, address: string,
                         fits: bool, starts: bool, sends: bool, n: nat)
    requires Inv(s) && o in s.tables && Address(address) && n < |s.requests| && !InTable(s, n)
    ensures var t := RouteRequest(s, p, o, origin, address, fits, starts, sends);
            n < |t.requests| && !InTable(t, n)
  {
    var t := RouteRequest(s, p, o, origin, address, fits, starts, sends);
    NewRequest(s, p, o, origin, address, fits, starts, sends);
    assert t.requests[..|s.requests|][n] == s.requests[n];
  }

  lemma NotBackInOneStep(s: State, e: Event, n: nat)
    requires Inv(s) && Enabled(s, e) && n < |s.requests| && !InTable(s, n)
    ensures n < |Step(s, e).requests| && !InTable(Step(s, e), n)
  {
    match e
    case SetOrCall(p, o, origin, address, fits, starts, sends) =>
      NotBackOnRequest(s, p, o, origin, address, fits, starts, sends, n);
    case Respond(p, id, b) =>
      if id in s.tables[p] {
        var m := s.tables[p][id];
        NotBackOnRemoval(s, p, id, s.requests[m := s.requests[m].Finish(Reply(b))], n);
      }
    case TimerExpires(m) =>
      var q := s.requests[m];
      NotBackOnRemoval(s, q.owner, q.id, s.requests[m := q.Finish(Timeout)], n);
    case Connect(p) =>
    case Disconnect(p) => AllGoneOnLeave(s, n, p);
  }

  lemma StaysOnRequest(s: State, n: nat, p: Peer, o: Peer, origin: Option<string>, address: string,
                       fits: bool, starts: bool, sends: bool)
    requires Inv(s) && o in s.tables && Address(address) && n < |s.requests| && InTable(s, n)
    requires |s.requests| < n + UUIDS
    ensures var t := RouteRequest(s, p, o, origin, address, fits, starts, sends);
            t.requests[n] == s.requests[n] && InTable(t, n)
  {
    var q := s.requests[n];
    DistinctIds(n, |s.requests|, q.origin, q.address, origin, address);
    var t := RouteRequest(s, p, o, origin, address, fits, starts, sends);
    assert t.requests[n] == q;
  }

  lemma StaysOnRemoval(s: State, n: nat, p: Peer, id: string, requests: seq<Request>)
    requires n < |s.requests| && InTable(s, n)
    requires p == s.requests[n].owner ==> id != s.requests[n].id
    requires |requests| == |s.requests| && requests[n] == s.requests[n]
    ensures InTable(RemoveId(s.(requests := requests), p, id), n)
  {
  }

  lemma StaysOnResponse(s: State, n: nat, p: Peer, id: string, b: bool)
    requires Inv(s) && p in s.tables && n < |s.requests| && InTable(s, n)
    requires RouteResponse(s, p, id, b).requests[n].armed
    ensures RouteResponse(s, p, id, b).requests[n] == s.requests[n] && InTable(RouteResponse(s, p, id, b), n)
  {
    if id in s.tables[p] {
      var m := s.tables[p][id];
      assert m != n;
      StaysOnRemoval(s, n, p, id, s.requests[m := s.requests[m].Finish(Reply(b))]);
    }
  }

  /** No request that is 2^32 or more older than n is still pending. */
  predicate NoAncient(s: State, n: nat)
  {
    forall m :: 0 <= m < |s.requests| && s.requests[m].armed ==> n < m + UUIDS
  }

  lemma StaysOnExpiry(s: State, n: nat, m: nat)
    requires Inv(s) && n < |s.requests| && m < |s.requests| && InTable(s, n) && s.requests[m].armed
    requires Expire(s, m).requests[n].armed && |s.requests| < n + UUIDS && NoAncient(s, n)
    ensures Expire(s, m).requests[n] == s.requests[n] && InTable(Expire(s, m), n)
  {
    var q, r := s.requests[n], s.requests[m];
    assert m != n;
    if n < m { DistinctIds(n, m, q.origin, q.address, r.origin, r.address); }
    else { DistinctIds(m, n, r.origin, r.address, q.origin, q.address); }
    StaysOnRemoval(s, n, r.owner, r.id, s.requests[m := r.Finish(Timeout)]);
  }

  lemma AllGoneOnLeave(s: State, n: nat, p: Peer)
    requires Inv(s) && p in s.tables && n < |s.requests|
    ensures !InTable(Leave(s, p), n)
  {
  }

  /** Only a disconnect takes a pending request out of its owner's table, for 2^32 requests. */
  lemma StaysForOneStep(s: State, e: Event, n: nat)
    requires Inv(s) && Enabled(s, e) && n < |s.requests| && InTable(s, n)
    requires |s.requests| < n + UUIDS && NoAncient(s, n) && Step(s, e).requests[n].armed
    ensures InTable(Step(s, e), n) <==> !e.Disconnect?
  {
    match e
    case SetOrCall(p, o, origin, address, fits, starts, sends) =>
      StaysOnRequest(s, n, p, o, origin, address, fits, starts, sends);
    case Respond(p, id, b) => StaysOnResponse(s, n, p, id, b);
    case TimerExpires(m) => StaysOnExpiry(s, n, m);
    case Connect(p) => assert InTable(Step(s, e), n);
    case Disconnect(p) => AllGoneOnLeave(s, n, p);
  }

  /** While a request is pending, its owner's reply can be passed on exactly as long as no peer has
      disconnected, whichever peer that is: a third peer that leaves takes the route away. */
  lemma {:induction false} RoutedUntilSomeoneLeaves(s: State, es: seq<Event>, n: nat)
    requires Inv(s) && Runs(s, es) && n < |s.requests| && InTable(s, n)
    requires |After(s, es).requests| < n + UUIDS && NoAncient(s, n)
    requires n < |After(s, es).requests| && After(s, es).requests[n].armed
    ensures InTable(After(s, es), n) <==> forall e :: e in es ==> !e.Disconnect?
    decreases es
  {
    if es != [] {
      var e, t := es[0], Step(s, es[0]);
      StepKeepsInv(s, e);
      RunKeepsInv(t, es[1..]);
      assert es == [e] + es[1..];
      assert t.requests[n].armed;
      StaysForOneStep(s, e, n);
      StillNoAncient(s, e, n);
      if e.Disconnect? {
        assert e in es;
        NeverBack(t, es[1..], n);
      } else {
        RoutedUntilSomeoneLeaves(t, es[1..], n);
      }
    }
  }

  lemma StillNoAncient(s: State, e: Event, n: nat)
    requires Inv(s) && Enabled(s, e) && NoAncient(s, n) && n < |s.requests|
    ensures NoAncient(Step(s, e), n)
  {
    var t := Step(s, e);
    forall m | 0 <= m < |t.requests| && t.requests[m].armed ensures n < m + UUIDS {
      if m < |s.requests| { assert SameClient(s.requests[m], t.requests[m]); }
    }
  }

  /** A run in which a third peer's departure loses the owner's reply. */
  lemma ThirdPeerLosesReply()
    ensures var es := [Connect(0), Connect(1), Connect(2), SetOrCall(0, 1, Some("7"), "0x10", true, true, true),
        Disconnect(2),
                       Respond(1, RoutedId(Some("7"), 0, "0x10"), false), TimerExpires(0)];
            Runs(EMPTY, es) && After(EMPTY, es).requests[0].answers == [Timeout]
  {
  }

  // ---------- The code, storing into the tables and requests ----------

  class Broker {
    var requests: seq<Request>
    var tables: map<Peer, map<string, nat>>
    /** peer_list. */
    var peers: seq<Peer>

    ghost function S(): State
      reads this
    {
      State(requests, tables)
    }

    ghost predicate Valid()
      reads this
    {
      Inv(S()) && (forall p :: p in peers <==> p in tables) && forall i, j :: 0 <= i < j < |peers| ==>
          peers[i] != peers[j]
    }

    constructor ()
      ensures Valid() && S() == EMPTY
    {
      requests, tables, peers := [], map[], [];
    }

    /** init_peer. */
    method InitPeer(p: Peer)
      requires Valid() && Enabled(S(), Connect(p))
      modifies this
      ensures Valid() && S() == Step(old(S()), Connect(p))
    {
      StepKeepsInv(S(), Connect(p));
      tables := tables[p := map[]];
      peers := peers + [p];
    }

    /** The routing of set_or_call: an id is drawn, the request is entered into the owner's table and
        its timer started, and the message is sent to the owner. */
    method SetOrCall(p: Peer, o: Peer, origin: Option<string>, address: string, fits: bool, starts: bool, sends: bool)
      requires Valid() && Enabled(S(), Event.SetOrCall(p, o, origin, address, fits, starts, sends))
      modifies this
      ensures Valid() && S() == Step(old(S()), Event.SetOrCall(p, o, origin, address, fits, starts, sends))
    {
      RouteRequestKeepsInv(S(), p, o, origin, address, fits, starts, sends);
      Enter(p, o, origin, address, fits, starts, sends);
    }

    method Enter(p: Peer, o: Peer, origin: Option<string>, address: string, fits: bool, starts: bool, sends: bool)
      requires o in tables && Address(address)
      modifies this`requests, this`tables
      ensures S() == RouteRequest(old(S()), p, o, origin, address, fits, starts, sends)
      ensures tables.Keys == old(tables).Keys
    {
      hide NewRecord;
      var n: nat := |requests|;
      var id := RoutedId(origin, n % UUIDS, address);
      if !fits && id !in tables[o] {
        requests := requests + [NewRecord(n, p, o, origin, address, false, sends)];
        return;
      }
      var table: map<string, nat> := tables[o][id := n];
      assert table - {id} == tables[o] - {id};
      tables := tables[o := table];
      if !starts {
        Remove(o, id);
        requests := requests + [NewRecord(n, p, o, origin, address, false, sends)];
        return;
      }
      requests := requests + [NewRecord(n, p, o, origin, address, true, sends)];
    }

    /** HASHTABLE_REMOVE on the routing table of p. */
    method Remove(p: Peer, id: string)
      modifies this`tables
      ensures S() == RemoveId(old(S()), p, id)
    {
      if p in tables { tables := tables[p := tables[p] - {id}]; }
    }

    /** request_timeout_handler. */
    method RequestTimeout(n: nat)
      requires Valid() && Enabled(S(), TimerExpires(n))
      modifies this
      ensures Valid() && S() == Step(old(S()), TimerExpires(n))
    {
      StepKeepsInv(S(), TimerExpires(n));
      var q := requests[n];
      Remove(q.owner, q.id);
      requests := requests[n := q.Finish(Timeout)];
    }

    /** handle_routing_response. */
    method HandleRoutingResponse(p: Peer, id: string, isError: bool)
      requires Valid() && Enabled(S(), Respond(p, id, isError))
      modifies this
      ensures Valid() && S() == Step(old(S()), Respond(p, id, isError))
    {
      StepKeepsInv(S(), Respond(p, id, isError));
      if id in tables[p] {
        var n := tables[p][id];
        Remove(p, id);
        requests := requests[n := requests[n].Finish(Reply(isError))];
      }
    }

    /** The loop of remove_routing_info_from_peer, and of remove_peer_from_routing_table when `only`
        names the peer that leaves: every entry of the table of q is taken out, and cleared if its
        requester is that peer. */
    method EmptyTable(q: Peer, only: Option<Peer>)
      requires Valid() && q in tables
      modifies this`requests, this`tables
      ensures Valid() && tables == old(tables)[q := map[]] && |requests| == |old(requests)|
      ensures forall n :: 0 <= n < |requests| ==> requests[n] == Cleared(old(S()), n, q, only)
    {
      ghost var s := S();
      EmptyingStarts(s, q, only);
      while tables[q] != map[]
        invariant Emptying(s, S(), q, only)
        decreases |tables[q]|
      {
        var id :| id in tables[q];
        TakeOutStep(s, S(), q, id, only);
        RemoveEntry(q, id, only);
      }
      EmptyingEnds(s, S(), q, only);
    }

    /** One slot: HASHTABLE_REMOVE, then clear_routing_entry where it applies. */
    method RemoveEntry(q: Peer, id: string, only: Option<Peer>)
      requires q in tables && id in tables[q] && tables[q][id] < |requests|
      modifies this`requests, this`tables
      ensures S() == TakeOut(old(S()), q, id, only) && |tables[q]| < |old(tables)[q]|
    {
      var n := tables[q][id];
      assert |tables[q] - {id}| < |tables[q]| by { assert (tables[q] - {id}).Keys == tables[q].Keys - {id}; }
      Remove(q, id);
      var r := requests[n];
      if only.None? || r.requester == only.value {
        requests := requests[n := r.Finish(Shutdown)];
      }
    }

    /** remove_peer_from_routes: the tables of all peers. */
    method RemovePeerFromRoutes(p: Peer, ghost s: State)
      requires Valid() && Inv(s) && Leaving(s, S(), p, [])
      modifies this`requests, this`tables
      ensures Valid() && Leaving(s, S(), p, peers)
    {
      for i := 0 to |peers|
        invariant Valid() && Leaving(s, S(), p, peers[..i])
      {
        assert peers[i] in peers;
        ghost var t := S();
        EmptyTable(peers[i], Some(p));
        LeavingStep(s, t, S(), p, peers[..i], peers[i]);
        assert peers[..i + 1] == peers[..i] + [peers[i]];
      }
      assert peers[..|peers|] == peers;
    }

    /** delete_routing_table and list_del. */
    method Unlink(p: Peer)
      requires Valid() && p in tables && Inv(S().(tables := tables - {p}))
      modifies this`tables, this`peers
      ensures Valid() && S() == old(S()).(tables := old(tables) - {p})
    {
      var i: nat :| i < |peers| && peers[i] == p;
      peers := peers[..i] + peers[i + 1..];
      tables := tables - {p};
    }

    /** The routing part of free_peer_resources. */
    method FreePeerResources(p: Peer)
      requires Valid() && Enabled(S(), Disconnect(p))
      modifies this
      ensures Valid() && S() == Step(old(S()), Disconnect(p))
    {
      ghost var s := S();
      EmptyTable(p, None);
      LeavingStarts(s, S(), p);
      RemovePeerFromRoutes(p, s);
      LeavingEnds(s, S(), p, peers);
      StepKeepsInv(s, Disconnect(p));
      Unlink(p);
    }
  }

  /** What emptying the table of q does to request n. */
  function Cleared(s: State, n: nat, q: Peer, only: Option<Peer>): Request
    requires n < |s.requests|
  {
    var r := s.requests[n];
    if r.owner == q && InTable(s, n) && (only.None? || r.requester == only.value) then r.Finish(Shutdown) else r
  }

  /** t is s with some entries of the table of q taken out. */
  ghost predicate Emptying(s: State, t: State, q: Peer, only: Option<Peer>)
  {
    Inv(s) && Inv(t) && FewerEntries(s, t, q) && PartlyCleared(s, t, q, only)
  }

  ghost predicate FewerEntries(s: State, t: State, q: Peer)
  {
    && q in s.tables && q in t.tables && t.tables == s.tables[q := t.tables[q]]
    && forall id :: id in t.tables[q] ==> id in s.tables[q] && s.tables[q][id] == t.tables[q][id]
  }

  ghost predicate PartlyCleared(s: State, t: State, q: Peer, only: Option<Peer>)
  {
    |t.requests| == |s.requests| && forall n :: 0 <= n < |s.requests| ==>
      t.requests[n] == if InTable(t, n) then s.requests[n] else Cleared(s, n, q, only)
  }

  /** Taking one entry out of the table of q, and clearing its request where that applies. */
  function TakeOut(t: State, q: Peer, id: string, only: Option<Peer>): State
    requires q in t.tables && id in t.tables[q] && t.tables[q][id] < |t.requests|
  {
    var n := t.tables[q][id];
    var r := t.requests[n];
    State(t.requests[n := if only.None? || r.requester == only.value then r.Finish(Shutdown) else r],
          t.tables[q := t.tables[q] - {id}])
  }

  lemma TakeOutKeepsInv(t: State, q: Peer, id: string, only: Option<Peer>)
    requires Inv(t) && q in t.tables && id in t.tables[q]
    ensures Inv(TakeOut(t, q, id, only))
  {
    var n := t.tables[q][id];
    var u := TakeOut(t, q, id, only);
    forall o, i | o in u.tables && i in u.tables[o] ensures i in t.tables[o] && u.tables[o][i] == t.tables[o][i] != n {}
    assert Counted(t.requests[n]) && Counted(u.requests[n]);
  }

  lemma TakeOutInTable(t: State, q: Peer, id: string, only: Option<Peer>, m: nat)
    requires Inv(t) && q in t.tables && id in t.tables[q] && m < |t.requests|
    ensures var u := TakeOut(t, q, id, only);
            InTable(u, m) <==> m != t.tables[q][id] && InTable(t, m)
  {
  }

  lemma TakeOutRequest(s: State, t: State, q: Peer, id: string, only: Option<Peer>, m: nat)
    requires Emptying(s, t, q, only) && id in t.tables[q] && m < |s.requests|
    ensures var u := TakeOut(t, q, id, only);
            u.requests[m] == if InTable(u, m) then s.requests[m] else Cleared(s, m, q, only)
  {
    var n := t.tables[q][id];
    TakeOutInTable(t, q, id, only, m);
    if m == n { assert InTable(t, n) && InTable(s, n) && t.requests[n] == s.requests[n]; }
  }

  lemma TakeOutEntries(s: State, t: State, q: Peer, id: string, only: Option<Peer>)
    requires FewerEntries(s, t, q) && id in t.tables[q] && t.tables[q][id] < |t.requests|
    ensures FewerEntries(s, TakeOut(t, q, id, only), q)
  {
    var u := TakeOut(t, q, id, only);
    assert u.tables == s.tables[q := u.tables[q]];
  }

  lemma TakeOutStep(s: State, t: State, q: Peer, id: string, only: Option<Peer>)
    requires Emptying(s, t, q, only) && id in t.tables[q]
    ensures Emptying(s, TakeOut(t, q, id, only), q, only)
  {
    TakeOutKeepsInv(t, q, id, only);
    TakeOutEntries(s, t, q, id, only);
    forall m | 0 <= m < |s.requests|
      ensures var u := TakeOut(t, q, id, only);
              u.requests[m] == if InTable(u, m) then s.requests[m] else Cleared(s, m, q, only)
    {
      TakeOutRequest(s, t, q, id, only, m);
    }
  }

  lemma EmptyingStarts(s: State, q: Peer, only: Option<Peer>)
    requires Inv(s) && q in s.tables
    ensures Emptying(s, s, q, only)
  {
    assert s.tables == s.tables[q := s.tables[q]];
  }

  lemma EmptyingEnds(s: State, t: State, q: Peer, only: Option<Peer>)
    requires Emptying(s, t, q, only) && t.tables[q] == map[]
    ensures forall n :: 0 <= n < |s.requests| ==> t.requests[n] == Cleared(s, n, q, only)
  {
    forall n | 0 <= n < |s.requests| ensures t.requests[n] == Cleared(s, n, q, only) {
      if InTable(t, n) { assert s.requests[n].owner != q; }
    }
  }

  lemma LeavingStep(s: State, t: State, u: State, p: Peer, done: seq<Peer>, q: Peer)
    requires Inv(s) && Inv(t) && Leaving(s, t, p, done) && q in s.tables && |u.requests| == |t.requests|
    requires u.tables == t.tables[q := map[]]
    requires forall n :: 0 <= n < |t.requests| ==> u.requests[n] == Cleared(t, n, q, Some(p))
    ensures Leaving(s, u, p, done + [q])
  {
    forall n | 0 <= n < |s.requests|
      ensures var r := s.requests[n];
              u.requests[n] == if InTable(s, n) && (r.owner == p || (r.requester == p && r.owner in done + [q]))
                               then r.Finish(Shutdown) else r
    {
      var r := s.requests[n];
      assert r.owner in done + [q] <==> r.owner in done || r.owner == q;
      assert InTable(t, n) <==> InTable(s, n) && r.owner != p && r.owner !in done;
    }
  }

  /** The state after the tables of p and of the peers in `done` were emptied for the departure of p. */
  ghost predicate Leaving(s: State, t: State, p: Peer, done: seq<Peer>)
    requires Inv(s)
  {
    && |t.requests| == |s.requests| && t.tables.Keys == s.tables.Keys
    && (forall o :: o in s.tables ==> t.tables[o] == if o == p || o in done then map[] else s.tables[o])
    && forall n :: 0 <= n < |s.requests| ==>
         var r := s.requests[n];
         t.requests[n] == if InTable(s, n) && (r.owner == p || (r.requester == p && r.owner in done))
             then r.Finish(Shutdown) else r
  }

  lemma LeavingStarts(s: State, t: State, p: Peer)
    requires Inv(s) && p in s.tables && |t.requests| == |s.requests| && t.tables == s.tables[p := map[]]
    requires forall n :: 0 <= n < |s.requests| ==> t.requests[n] == Cleared(s, n, p, None)
    ensures Leaving(s, t, p, [])
  {
  }

  lemma LeavingEnds(s: State, t: State, p: Peer, done: seq<Peer>)
    requires Inv(s) && p in s.tables && Leaving(s, t, p, done) && forall q :: q in s.tables ==> q in done
    ensures t.(tables := t.tables - {p}) == Leave(s, p)
  {
    var u := Leave(s, p);
    forall n | 0 <= n < |s.requests| ensures t.requests[n] == u.requests[n] {
      if InTable(s, n) { assert s.requests[n].owner in done; }
    }
    assert t.requests == u.requests;
  }
}
