/** http_parser_execute of src/http-parser/http_parser.c as the loop over the buffer that it is, with its
    marks, its assertions and the places where it moves over many bytes at once. */
module HttpParser {
  import opened Options
  import opened HttpState
  import opened HttpSteps
  import opened HttpRuns
  import opened HttpBulk
  import opened HttpCounts
  import HttpBodies

  /** A callback: a piece of a string, or a note. */
  datatype Event = Data(kind: Kind, bytes: seq<Byte>) | Said(note: Note)

  /** What a callback returns, and whether it pauses the parser. */
  datatype Reply = Reply(code: int, pause: bool)

  type Client = (seq<Event>, Event) -> Reply

  function Flat(events: seq<Event>): seq<Item>
  {
    if events == [] then []
    else
      var e := events[|events| - 1];
      Flat(events[..|events| - 1]) + if e.Data? then Pieces(e.kind, e.bytes) else [Noted(e.note)]
  }

  lemma FlatNext(events: seq<Event>, e: Event)
    ensures Flat(events + [e]) == Flat(events) + if e.Data? then Pieces(e.kind, e.bytes) else [Noted(e.note)]
  {
    assert (events + [e])[..|events|] == events;
  }

  /** So far the callbacks neither failed nor paused, and headers_complete answered by what was given before. */
  ghost predicate Agreed(client: Client, choose: Choice, events: seq<Event>)
  {
    forall k :: 0 <= k < |events| ==> Agrees(client, choose, events[..k], events[k])
  }

  /** The same for all callbacks but the last one. */
  ghost predicate AgreedBefore(client: Client, choose: Choice, events: seq<Event>)
  {
    events == [] || Agreed(client, choose, events[..|events| - 1])
  }

  ghost predicate Agrees(client: Client, choose: Choice, h: seq<Event>, e: Event)
  {
    var r := client(h, e);
    !r.pause && if e == Said(HeadersComplete) then r.code == choose(Flat(h)) <= 2 else r.code == 0
  }

  lemma LastAgrees(client: Client, choose: Choice, h: seq<Event>, e: Event)
    ensures Agreed(client, choose, h + [e]) <==> Agreed(client, choose, h) && Agrees(client, choose, h, e)
    ensures AgreedBefore(client, choose, h + [e]) <==> Agreed(client, choose, h)
  {
    hide Agrees;
    var t := h + [e];
    assert t[..|h|] == h && t[|h|] == e;
    assert forall k :: 0 <= k < |h| ==> t[..k] == h[..k] && t[k] == h[k];
  }

  /** Callbacks before some others. */
  lemma EarlierAgreed(client: Client, choose: Choice, h: seq<Event>, t: seq<Event>)
    requires h <= t
    ensures Agreed(client, choose, t) ==> Agreed(client, choose, h) && AgreedBefore(client, choose, t)
    ensures AgreedBefore(client, choose, t) && h != t ==> Agreed(client, choose, h)
    ensures AgreedBefore(client, choose, t) ==> AgreedBefore(client, choose, h)
  {
    hide Agrees;
    assert forall k :: 0 <= k < |h| ==> t[..k] == h[..k] && t[k] == h[k];
    if t != [] {
      var u := t[..|t| - 1];
      assert forall k :: 0 <= k < |u| ==> t[..k] == u[..k] && t[k] == u[k];
      if h != t {
        assert h <= u;
        assert forall k :: 0 <= k < |h| ==> u[..k] == h[..k] && u[k] == h[k];
        if h != [] {
          var g := h[..|h| - 1];
          assert forall k :: 0 <= k < |g| ==> h[..k] == g[..k] && h[k] == g[k];
        }
      }
    }
  }

  /** The five marks. */
  datatype Marks = Marks(url: Option<nat>, status: Option<nat>, field: Option<nat>, value: Option<nat>,
      body: Option<nat>)

  const NO_MARKS := Marks(None, None, None, None, None)

  function MarkOf(m: Marks, k: Kind): Option<nat>
  {
    match k
    case Url => m.url
    case Status => m.status
    case Field => m.field
    case Value => m.value
    case Body => m.body
    case NoString => None
  }

  function WithMark(m: Marks, k: Kind, x: Option<nat>): Marks
  {
    match k
    case Url => m.(url := x)
    case Status => m.(status := x)
    case Field => m.(field := x)
    case Value => m.(value := x)
    case Body => m.(body := x)
    case NoString => m
  }

  function IsSet(x: Option<nat>): nat { if x.Some? then 1 else 0 }

  /** No mark but the one of the string that is being read, which lies at or before the position. */
  predicate OneMark(m: Marks, s: State, i: nat)
  {
    var k := KindOf(s);
    && (k != Url ==> m.url.None?) && (k != Status ==> m.status.None?) && (k != Field ==> m.field.None?)
    && (k != Value ==> m.value.None?) && (k != Body ==> m.body.None?)
    && (k != NoString && k != Body ==> MarkOf(m, k).Some?)
    && (MarkOf(m, k).Some? ==> MarkOf(m, k).value <= i)
  }

  /** The bytes from the mark on are those that wait. */
  predicate Fits(m: Marks, c: Config, data: seq<Byte>, i: nat)
  {
    i <= |data| &&
    match MarkOf(m, KindOf(c.p.state))
    case None => c.pending == []
    case Some(x) => x + |c.pending| == i && data[x..i] == c.pending
  }

  /** An error in a value leaves behind how much of it was recognised before the loop. */
  function Known(p: Parser): Parser
  {
    if p.errno.InvalidHeaderToken? && p.state.HeaderValue? then p.(headerState := General) else p
  }

  predicate RefusedInValue(p: Parser) { p.errno != NoError && p.state.HeaderValue? }

  /** The marks at the beginning of a call. */
  function FirstMarks(s: State): Marks
  {
    if KindOf(s) == Body then NO_MARKS else WithMark(NO_MARKS, KindOf(s), Some(0))
  }

  /** The bytes behind a mark. */
  function Marked(m: Marks, k: Kind, data: seq<Byte>, end: nat): seq<Byte>
    requires end <= |data| && (MarkOf(m, k).Some? ==> MarkOf(m, k).value <= end)
  {
    if MarkOf(m, k).Some? then data[MarkOf(m, k).value..end] else []
  }

  /** Where an action leaves the position. */
  function Position(a: Action, i: nat): nat { if a.next.Again? then i else i + 1 }

  /** MARK: set at the first byte of a string, and for an empty value. */
  function MarkedBy(m: Marks, s: State, a: Action, i: nat): Marks
  {
    var k := if a.emit.Deliver? then a.emit.kind else KindOf(a.p.state);
    if MarkOf(m, k).None? && (a.take || (a.emit.Deliver? && KindOf(s) == NoString)) then WithMark(m, k, Some(i)) else m
  }

  lemma MarksKept(m: Marks, s: State, a: Action, i: nat)
    requires OneMark(m, s, i) && StringsKept(s, a) && !a.next.Failed?
    ensures var n := MarkedBy(m, s, a, i);
            if a.emit.Deliver? then
              (MarkOf(n, a.emit.kind).Some? ==> MarkOf(n, a.emit.kind).value <= i)
              && OneMark(WithMark(n, a.emit.kind, None), a.p.state, Position(a, i))
            else OneMark(n, a.p.state, Position(a, i))
  {
    hide Ordinary;
  }

  class HttpParser {
    var p: Parser
    var nread: nat
    var events: seq<Event>
    const client: Client

    ghost predicate Sane()
      reads this
    {
      p.errno.NoError? || p.errno.Paused? ==>
        Valid(p) && nread <= MAX_HEADER_SIZE && (p.state.ChunkSizeStart? ==> nread == 0)
    }

    /** The fields and the marks are those of a configuration. */
    ghost predicate Mirrors(c: Config, data: seq<Byte>, i: nat, m: Marks)
      reads this
    {
      p == c.p && nread == c.nread && Flat(events) == c.items && Fits(m, c, data, i)
    }

    /** What an action has done, if the callbacks agree. */
    ghost predicate Performed(d: Config, a: Action, data: seq<Byte>, i: nat, m: Marks)
      requires i < |data|
      reads this
    {
      p == d.p && nread == d.nread && Flat(events) == d.items
      && (!a.next.Failed? ==> p.errno == NoError && Fits(m, d, data, Position(a, i)))
    }

    /** What has happened at one byte, if the callbacks agree. */
    ghost predicate Settled(d: Config, data: seq<Byte>, j: nat, m: Marks, stop: bool)
      reads this
    {
      p == d.p && nread == d.nread && Flat(events) == d.items && stop == d.halted && j == d.used
      && (!stop ==> Fits(m, d, data, j))
    }

    /** What holds behind one turn of the loop over the buffer. */
    ghost predicate Kept(data: seq<Byte>, i: nat, j: nat, m: Marks, stop: bool)
      reads this
    {
      && i <= j <= |data| && Sane()
      && (!stop ==> i < j && p.errno == NoError && OneMark(m, p.state, j))
      && (p.errno.HeaderOverflow? ==> stop && nread > MAX_HEADER_SIZE)
    }

    /** What one turn of the loop has done, if the callbacks agree: the same as its bytes one by one. */
    ghost predicate Advanced(c: Config, data: seq<Byte>, i: nat, j: nat, m: Marks, stop: bool, choose: Choice)
      requires Running(c) && i <= j <= |data|
      reads this
    {
      if !stop then GoesOnAs(Fold(c, data[i..j], choose), data, j, m) && Within(c, data[i..], j - i, choose)
      else if p.errno.HeaderOverflow? then Overflowed(c, data[i..], Flat(events), choose)
      else EndedAs(Fold(c, data[i..], choose), j)
           && (RefusedInValue(p) || Within(c, data[i..], |data| - i + 1, choose))
    }

    /** What the callbacks were given begins what the bytes one by one give, whatever the last callback did. */
    ghost predicate Gave(c: Config, data: seq<Byte>, i: nat, choose: Choice)
      requires Running(c) && i <= |data|
      reads this
    {
      Flat(events) <= Fold(c, data[i..], choose).items
    }

    /** What some turns of the loop have done, for every client. */
    ghost predicate Accounted(c: Config, data: seq<Byte>, i: nat, j: nat, m: Marks, stop: bool, choose: Choice)
      requires Running(c) && i <= j <= |data|
      reads this
    {
      && (Agreed(client, choose, events) ==> Advanced(c, data, i, j, m, stop, choose))
      && (AgreedBefore(client, choose, events) ==> Gave(c, data, i, choose))
    }

    ghost predicate EndedAs(d: Config, j: nat)
      reads this
    {
      d.halted && Known(p) == d.p && Flat(events) == d.items && j == d.used
          && (p.errno.NoError? || p.errno.Paused? ==> nread == d.nread)
    }

    ghost predicate GoesOnAs(d: Config, data: seq<Byte>, j: nat, m: Marks)
      reads this
    {
      && !d.halted && p == d.p && Flat(events) == d.items && Fits(m, d, data, j)
      && nread == d.nread + (if j == |data| && d.looping then 1 else 0) && (j < |data| ==> !d.skipping && !d.looping)
    }

    /** From what has happened at the last of some bytes to what has happened at all of them. */
    lemma AtLast(c: Config, f: Config, data: seq<Byte>, i: nat, end: nat, k: nat, m: Marks, stop: bool, choose: Choice)
      requires Running(c) && i <= end <= |data| && Settled(f, data, k, m, stop) && Known(p) == p && i <= k <= |data|
      requires Fold(c, data[i..end], choose) == f && (f.halted ==> Fold(c, data[i..], choose) == f)
      requires !f.halted ==> !f.looping && !f.skipping && f.used == end
      requires Within(c, data[i..], end - i, choose) && p.errno != HeaderOverflow
      ensures Advanced(c, data, i, k, m, stop, choose)
    {
      hide Fold, Fits, Flat, Within;
      assert data[i..][..end - i] == data[i..end];
      if f.halted { WithinEnded(c, data[i..], end - i, choose); }
    }

    /** http_parser_init. */
    constructor (kind: ParserType, lenient: bool, client: Client)
      ensures Sane() && p == Init(kind, lenient) && nread == 0 && events == [] && this.client == client
    {
      p, nread, events := Init(kind, lenient), 0, [];
      this.client := client;
    }

    /** COUNT_HEADER_SIZE. */
    method Count(n: nat) returns (over: bool)
      modifies this`nread, this`p
      ensures nread == old(nread) + n && over == (nread > MAX_HEADER_SIZE)
      ensures p == if over then old(p).(errno := HeaderOverflow) else old(p)
    {
      nread := nread + n;
      over := nread > MAX_HEADER_SIZE;
      if over { p := p.(errno := HeaderOverflow); }
    }

    /** CALLBACK_NOTIFY. */
    method Say(note: Note)
      modifies this`p, this`events
      ensures events == old(events) + [Said(note)]
      ensures p == old(p).(errno := p.errno)
          && (p.errno.HeaderOverflow? || p.errno.InvalidHeaderToken? ==> p.errno == old(p.errno))
      ensures var r := client(old(events), Said(note)); r.code == 0 && !r.pause ==> p == old(p)
      ensures var r := client(old(events), Said(note)); r.code != 0 || r.pause ==> p.errno != NoError
    {
      var r := client(events, Said(note));
      events := events + [Said(note)];
      if r.pause { p := p.(errno := Paused); }
      if r.code != 0 { p := p.(errno := NoteFailed(note)); }
    }

    /** CALLBACK_DATA with the bytes between the mark and the end. */
    method Give(kind: Kind, bytes: seq<Byte>)
      modifies this`p, this`events
      ensures events == old(events) + [Data(kind, bytes)]
      ensures p == old(p).(errno := p.errno)
          && (p.errno.HeaderOverflow? || p.errno.InvalidHeaderToken? ==> p.errno == old(p.errno))
      ensures var r := client(old(events), Data(kind, bytes)); r.code == 0 && !r.pause ==> p == old(p)
      ensures var r := client(old(events), Data(kind, bytes)); r.code != 0 || r.pause ==> p.errno != NoError
    {
      var r := client(events, Data(kind, bytes));
      events := events + [Data(kind, bytes)];
      if r.pause { p := p.(errno := Paused); }
      if r.code != 0 { p := p.(errno := DataFailed(kind)); }
    }

    /** The callback of headers_complete, whose answers 1 and 2 are not errors. */
    method AskHeadersComplete()
      modifies this`p, this`events
      ensures events == old(events) + [Said(HeadersComplete)]
      ensures p == old(p).(errno := p.errno, flags := p.flags, upgrade := p.upgrade)
      ensures p.flags == old(p.flags).(skipBody := p.flags.skipBody)
          && (p.errno.HeaderOverflow? || p.errno.InvalidHeaderToken? ==> p.errno == old(p.errno))
      ensures var r := client(old(events), Said(HeadersComplete));
              0 <= r.code <= 2 && !r.pause ==> p == Answered(old(p), r.code)
    {
      var r := client(events, Said(HeadersComplete));
      events := events + [Said(HeadersComplete)];
      if r.pause { p := p.(errno := Paused); }
      if r.code == 2 { p := p.(upgrade := true); }
      if r.code == 1 || r.code == 2 {
        p := p.(flags := p.flags.(skipBody := true));
      } else if r.code != 0 {
        p := p.(errno := NoteFailed(HeadersComplete));
      }
    }

    /** CALLBACK_DATA, which does nothing without a mark. */
    method Deliver(k: Kind, data: seq<Byte>, end: nat, m: Marks) returns (m': Marks)
      requires end <= |data| && (MarkOf(m, k).Some? ==> MarkOf(m, k).value <= end)
      modifies this`p, this`events
      ensures p == old(p).(errno := p.errno) && m' == WithMark(m, k, None) && old(events) <= events
      ensures p.errno.HeaderOverflow? || p.errno.InvalidHeaderToken? ==> p.errno == old(p.errno)
      ensures Flat(events) == old(Flat(events)) + Pieces(k, Marked(m, k, data, end))
      ensures events == if MarkOf(m, k).Some? then old(events) + [Data(k, Marked(m, k, data, end))] else old(events)
      ensures events == old(events) || client(old(events), Data(k, Marked(m, k, data, end))) == Reply(0, false) ==>
                p == old(p)
    {
      m' := WithMark(m, k, None);
      if MarkOf(m, k).Some? {
        ghost var was := events;
        Give(k, data[MarkOf(m, k).value..end]);
        FlatNext(was, Data(k, data[MarkOf(m, k).value..end]));
      } else {
        assert Flat(events) + Pieces(k, []) == Flat(events);
      }
    }

    /** The callback of an action. */
    method CallOut(emit: Emit, data: seq<Byte>, end: nat, m: Marks, ghost choose: Choice) returns (m': Marks)
      requires end <= |data| && (emit.Deliver? && MarkOf(m, emit.kind).Some? ==> MarkOf(m, emit.kind).value <= end)
      modifies this`p, this`events
      ensures p == old(p).(errno := p.errno, flags := p.flags, upgrade := p.upgrade) && old(events) <= events
      ensures p.flags == old(p.flags).(skipBody := p.flags.skipBody)
      ensures (emit.Nothing? ==> p == old(p))
          && (p.errno.HeaderOverflow? || p.errno.InvalidHeaderToken? ==> p.errno == old(p.errno))
      ensures m' == if emit.Deliver? then WithMark(m, emit.kind, None) else m
      ensures Flat(events)
              == match emit
                 case Nothing => old(Flat(events))
                 case Notify(n) => old(Flat(events)) + [Noted(n)]
                 case Deliver(k) => old(Flat(events)) + Pieces(k, Marked(m, k, data, end))
      ensures Agreed(client, choose, events) ==>
                p == if emit == Notify(HeadersComplete) then Answered(old(p), choose(old(Flat(events)))) else old(p)
    {
      hide Agreed, AgreedBefore;
      ghost var was := events;
      m' := m;
      match emit {
        case Nothing =>
        case Notify(note) =>
          LastAgrees(client, choose, was, Said(note));
          if note == HeadersComplete { AskHeadersComplete(); } else { Say(note); }
          FlatNext(was, Said(note));
        case Deliver(k) =>
          LastAgrees(client, choose, was, Data(k, Marked(m, k, data, end)));
          m' := Deliver(k, data, end, m);
      }
    }

    /** Perform an action on the byte at that position. */
    method Act(a: Action, data: seq<Byte>, i: nat, m: Marks, ghost c: Config, ghost choose: Choice) returns (m': Marks)
      requires i < |data| && Valid(p) && Sound(p, a) && OneMark(m, p.state, i) && p.errno == NoError
      modifies this`p, this`nread, this`events
      ensures Valid(p) && p.state == a.p.state && old(events) <= events
      ensures nread == if ResetsCount(old(p).state) && !a.next.Failed? then 0 else old(nread)
      ensures (a.next.Failed? ==> ParseError(p.errno) && p.errno == a.p.errno) && !p.errno.HeaderOverflow?
      ensures !a.next.Failed? ==> !p.errno.InvalidHeaderToken?
      ensures !a.next.Failed? ==> OneMark(m', p.state, Position(a, i))
      ensures Running(c) && old(Mirrors(c, data, i, m)) ==>
                Flat(events) == After(c, a, data[i], choose).items
                && (Agreed(client, choose, events) ==> Performed(After(c, a, data[i], choose), a, data, i, m'))
    {
      hide KindOf, StringsKept;
      var s := p.state;
      if ResetsCount(s) && !a.next.Failed? { nread := 0; }
      m' := MarkedBy(m, s, a, i);
      if !a.next.Failed? { MarksKept(m, s, a, i); }
      ghost var mirrored := Running(c) && Fits(m, c, data, i) && c.p == p;
      if mirrored { FitsAfter(c, a, data, i, m, choose); }
      hide Fits, Sound, OneMark, MarkedBy, Marked, Agreed;
      p := a.p;
      m' := CallOut(a.emit, data, if a.take then i + 1 else i, m', choose);
      StillValid(a.p, p);
    }

    /** The states in which one byte is handled after the other, from `reexecute` on. */
    method Reexecute(data: seq<Byte>, i: nat, m: Marks, ghost c: Config, ghost choose: Choice)
      returns (j: nat, m': Marks, stop: bool)
      requires i < |data| && Valid(p) && p.errno == NoError && OneMark(m, p.state, i)
      requires Ordinary(p.state) || (p.state.ChunkSizeStart? && nread == 1)
      modifies this`p, this`nread, this`events
      ensures Valid(p) && old(events) <= events && i <= j <= i + 1 && nread <= old(nread) && p.errno != HeaderOverflow
      ensures p.errno.NoError? || p.errno.Paused? ==> (p.state.ChunkSizeStart? ==> nread == 0)
      ensures Known(p) == p && (!stop ==> j == i + 1 && p.errno == NoError && OneMark(m', p.state, j))
      ensures Running(c) && !c.skipping && c.used == i && old(Mirrors(c, data, i, m)) ==>
                (Agreed(client, choose, events) ==> Settled(Settle(c, data[i], choose), data, j, m', stop))
                && (AgreedBefore(client, choose, events) ==> Flat(events) <= Settle(c, data[i], choose).items)
    {
      hide Transition, After, Settle, Rank, Fits, OneMark, Agreed, AgreedBefore, Flat;
      m' := m;
      ghost var mirrored := Running(c) && !c.skipping && c.used == i && Mirrors(c, data, i, m);
      ghost var d := c;
      if mirrored { SettleItems(c, data[i], choose); }
      while true
        invariant Valid(p) && p.errno == NoError && OneMark(m', p.state, i) && old(events) <= events
            && nread <= old(nread)
        invariant Ordinary(p.state) || (p.state.ChunkSizeStart? && nread == 1)
        invariant mirrored && Agreed(client, choose, events) ==>
                    && Running(d) && !d.skipping && d.used == i && Mirrors(d, data, i, m')
                    && Settle(c, data[i], choose) == Settle(d, data[i], choose)
        invariant mirrored && AgreedBefore(client, choose, events) ==> Flat(events) <= Settle(c, data[i], choose).items
        decreases Rank(p.state)
      {
        assert p.state.ChunkSizeStart? ==> nread == 1;
        assert InChunkSize(p.state) || p.state.ChunkDataAlmostDone? || p.state.ChunkDataDone? ==> p.flags.chunked;
        assert p.state.ChunkDataAlmostDone? ==> p.contentLength == 0;
        var a := Transition(p, false, data[i]);
        EveryStepSound(p, false, data[i]);
        ghost var was := events;
        if mirrored && Agreed(client, choose, was) {
          SettleOnce(d, a, data[i], choose);
          AfterKeeps(d, a, data[i], choose);
          ActionItems(d, a, data[i], choose);
        }
        m' := Act(a, data, i, m', d, choose);
        EarlierAgreed(client, choose, was, events);
        if p.errno != NoError {
          return if a.next.Consume? || a.next.Exit? then i + 1 else i, m', true;
        }
        if a.next.Exit? { return i + 1, m', true; }
        if a.next.Consume? { return i + 1, m', false; }
        d := After(d, a, data[i], choose);
      }
    }

    /** Another look at the last of some bytes. */
    method LookAgain(data: seq<Byte>, i: nat, at: nat, m: Marks, ghost c: Config, ghost e: Config, ghost choose: Choice)
      returns (j: nat, m': Marks, stop: bool)
      requires i <= at < |data| && Valid(p) && p.errno == NoError && OneMark(m, p.state, at) && nread <= MAX_HEADER_SIZE
      requires Ordinary(p.state) || (p.state.ChunkSizeStart? && nread == 1)
      modifies this`p, this`nread, this`events
      ensures Kept(data, at, j, m', stop) && old(events) <= events && nread <= old(nread) && !p.errno.HeaderOverflow?
      ensures old(Mirrors(e, data, at, m)) && FoldsTo(c, e, data, i, at, choose)
               && Within(c, data[i..], at + 1 - i, choose) ==>
                Accounted(c, data, i, j, m', stop, choose)
    {
      hide Fold, Settle, Agreed, AgreedBefore, Fits, Valid, Flat, Within;
      ghost var mirrored := Mirrors(e, data, at, m) && FoldsTo(c, e, data, i, at, choose)
                            && Within(c, data[i..], at + 1 - i, choose);
      j, m', stop := Reexecute(data, at, m, e, choose);
      if mirrored {
        assert data[i..][..at + 1 - i] == data[i..at + 1];
        FoldItems(c, data[i..], at + 1 - i, choose);
        if Agreed(client, choose, events) {
          AtLast(c, Settle(e, data[at], choose), data, i, at + 1, j, m', stop, choose);
        }
      }
    }

    // ---------- Names ----------

    /** The loop over the characters of a header name. */
    method LoopName(data: seq<Byte>, i: nat, ghost c: Config, ghost choose: Choice) returns (j: nat)
      requires i < |data| && Valid(p) && p.state.HeaderField?
      modifies this`p
      ensures i <= j <= |data| && (j < |data| ==> !IsToken(data[j]))
      ensures Valid(p) && p.state.HeaderField? && p.errno == old(p.errno)
      ensures Running(c) && c.p == old(p) ==> Fold(c, data[i..j], choose) == Looped(c, p, data[i..j], false)
    {
      hide Fold, Looped, IsToken, TokenOf, NameChar, Valid;
      j := i;
      if Running(c) && c.p == p {
        FoldNone(c, choose);
        LoopedNone(c);
        assert data[i..i] == [] && !c.skipping;
      }
      while j < |data| && IsToken(data[j])
        invariant i <= j <= |data| && Valid(p) && p.state.HeaderField? && p.errno == old(p.errno)
        invariant Running(c) && c.p == old(p) ==> Fold(c, data[i..j], choose) == Looped(c, p, data[i..j], false)
      {
        NameSound(p, TokenOf(data[j]));
        if Running(c) && c.p == old(p) { NameLoopStep(c, p, data[i..j], data[j], choose); }
        assert data[i..j] + [data[j]] == data[i..j + 1];
        p := NameChar(p, TokenOf(data[j]));
        j := j + 1;
      }
    }

    /** The byte behind a header name. */
    method EndName(data: seq<Byte>, j: nat, m: Marks, ghost d: Config, ghost choose: Choice)
      returns (k: nat, m': Marks, stop: bool)
      requires j < |data| && Valid(p) && p.errno == NoError && OneMark(m, p.state, j) && p.state.HeaderField?
          && !IsToken(data[j])
      modifies this`p, this`nread, this`events
      ensures Valid(p) && old(events) <= events && nread == old(nread) && j <= k <= j + 1
      ensures p.state.HeaderField? || p.state.ValueDiscardWs?
      ensures !p.errno.HeaderOverflow? && (!stop ==> k == j + 1 && p.errno == NoError && OneMark(m', p.state, k))
      ensures Running(d) && d.used == j && old(Mirrors(Counted(d), data, j, m)) ==>
                var f := After(Counted(d), ReadName(d.p, data[j]), data[j], choose);
                Flat(events) == f.items && (Agreed(client, choose, events) ==> Settled(f, data, k, m', stop))
    {
      hide After, Transition, ReadName, Fits, Sound, IsToken, Agreed;
      var a := ReadName(p, data[j]);
      ReadNameSound(p, data[j]);
      NameEndAction(p, data[j]);
      if Running(d) && d.p == p { NameEnds(d, data[j], choose); }
      m' := Act(a, data, j, m, Counted(d), choose);
      stop := p.errno != NoError;
      k := if a.next.Failed? then j else j + 1;
    }

    /** The end of a header name, with what its loop has done before. */
    method NameTail(data: seq<Byte>, i: nat, j: nat, m: Marks, ghost c: Config, ghost d: Config, ghost choose: Choice)
      returns (k: nat, m': Marks, stop: bool)
      requires i <= j < |data| && Valid(p) && p.errno == NoError && OneMark(m, p.state, j) && p.state.HeaderField?
      requires !IsToken(data[j]) && nread <= MAX_HEADER_SIZE
      modifies this`p, this`nread, this`events
      ensures Kept(data, j, k, m', stop) && old(events) <= events && nread == old(nread) && !p.errno.HeaderOverflow?
      ensures Running(c) && Running(d) && d.used == j && Fold(c, data[i..j], choose) == d
               && old(Mirrors(Counted(d), data, j, m)) && c.nread + (j - i) + 1 <= MAX_HEADER_SIZE ==>
                Accounted(c, data, i, k, m', stop, choose)
    {
      hide Fold, After, ReadName, Fits, Valid, Agreed, AgreedBefore, IsToken, Transition, Within, KindOf, OneMark;
      ghost var mirrored := Running(c) && Running(d) && d.used == j && Fold(c, data[i..j], choose) == d
                            && Mirrors(Counted(d), data, j, m) && c.nread + (j - i) + 1 <= MAX_HEADER_SIZE;
      ghost var a := ReadName(p, data[j]);
      if mirrored {
        NameEnds(d, data[j], choose);
        OneMore(c, data, i, j, d, a, choose);
        WithinGrowth(c, data[i..], j + 1 - i, choose);
        assert data[i..][..j + 1 - i] == data[i..j + 1];
        FoldItems(c, data[i..], j + 1 - i, choose);
      }
      k, m', stop := EndName(data, j, m, d, choose);
      if mirrored && Agreed(client, choose, events) {
        AtLast(c, After(Counted(d), a, data[j], choose), data, i, j + 1, k, m', stop, choose);
      }
    }

    /** A header name from that byte on. */
    method NameBytes(data: seq<Byte>, i: nat, m: Marks, ghost c: Config, ghost choose: Choice)
      returns (j: nat, m': Marks, stop: bool)
      requires i < |data| && Valid(p) && p.errno == NoError && OneMark(m, p.state, i) && p.state.HeaderField?
      requires nread <= MAX_HEADER_SIZE
      modifies this`p, this`nread, this`events
      ensures Kept(data, i, j, m', stop) && old(events) <= events && nread <= old(nread) + (j - i)
      ensures !stop && j < |data| ==> nread < old(nread) + (j - i)
      ensures Running(c) && c.used == i && old(Mirrors(Counted(c), data, i, m)) ==>
                Accounted(c, data, i, j, m', stop, choose)
    {
      hide Fold, Fits, IsToken, Agreed, AgreedBefore, Valid, Flat, Within, Overflowed;
      ghost var mirrored := Running(c) && c.used == i && Mirrors(Counted(c), data, i, m);
      j := LoopName(data, i, c, choose);
      ghost var d := Looped(c, p, data[i..j], false);
      if mirrored { LoopFits(c, p, data, i, j, false, m); }
      stop := Count(j - i);
      if mirrored {
        LoopCounted(c, d, data, i, j, nread, choose);
        GaveNothing(c, data, i, choose);
      }
      if stop || j == |data| { return j, m, stop; }
      j, m', stop := NameTail(data, i, j, m, c, d, choose);
    }

    // ---------- Values ----------

    /** The two memchr calls: the next line end, but not beyond the largest size of headers. */
    method SkipLine(data: seq<Byte>, i: nat) returns (j: nat)
      requires i < |data| && !LineEnd(data[i])
      ensures i < j <= |data| && (j < |data| ==> LineEnd(data[j]))
      ensures j - i <= MAX_HEADER_SIZE ==> forall x :: i <= x < j ==> !LineEnd(data[x])
      ensures j - i > MAX_HEADER_SIZE ==> j == |data| && forall x :: i <= x < i + MAX_HEADER_SIZE ==> !LineEnd(data[x])
    {
      var limit := if |data| - i < MAX_HEADER_SIZE then |data| - i else MAX_HEADER_SIZE;
      j := i;
      while j < i + limit && !LineEnd(data[j])
        invariant i <= j <= i + limit && forall x :: i <= x < j ==> !LineEnd(data[x])
      {
        j := j + 1;
      }
      if j == i + limit { j := |data|; }
    }

    /** What the loop over a value has done. */
    ghost predicate ValueLooped(c: Config, q: Parser, data: seq<Byte>, i: nat, j: nat, skips: bool, far: bool,
        choose: Choice)
      requires Running(c) && i <= j <= |data|
    {
      && (far ==> j == |data| && j - i > MAX_HEADER_SIZE && Overflowed(c, data[i..], c.items, choose))
      && (!far ==> Fold(c, data[i..j], choose) == Looped(c, q, data[i..j], skips))
      && (skips && j < |data| ==> LineEnd(data[j]))
    }

    /** The loop over the characters of a header value, with the state of the value in a local variable. */
    method LoopValue(data: seq<Byte>, i: nat, ghost c: Config, ghost choose: Choice)
      returns (j: nat, ok: bool, ghost skips: bool, ghost far: bool)
      requires i < |data| && Valid(p) && p.state.HeaderValue?
      modifies this`p
      ensures i <= j <= |data| && p.state.HeaderValue?
      ensures if ok then (j < |data| ==> LineEnd(data[j])) && p.errno == old(p.errno) && Valid(p)
          else ParseError(p.errno)
      ensures ok && far ==> j - i > MAX_HEADER_SIZE
      ensures Running(c) && c.p == old(p) && !c.skipping ==>
                if ok then ValueLooped(c, p, data, i, j, skips, far, choose)
                else
                  var d := Fold(c, data[i..], choose);
                  d.halted && Known(p) == d.p && d.items == c.items && d.used == c.used + (j - i)
    {
      hide Fold, Looped, ValueChar, IsHeaderChar, Valid, Overflowed;
      var h := p.headerState;
      j, skips, far := i, false, false;
      ghost var agreed := Running(c) && c.p == p && !c.skipping;
      if agreed {
        FoldNone(c, choose);
        LoopedNone(c);
        assert data[i..i] == [] && p.(headerState := h) == p;
      }
      while j < |data| && !LineEnd(data[j])
        invariant i <= j <= |data| && Valid(p.(headerState := h)) && p.state.HeaderValue? && p.errno == old(p.errno)
        invariant far ==> j == |data| && j - i > MAX_HEADER_SIZE
        invariant agreed ==> ValueLooped(c, p.(headerState := h), data, i, j, skips, far, choose)
      {
        ghost var q := p.(headerState := h);
        if !p.lenient && !IsHeaderChar(data[j]) {
          if agreed { ValueLoopFails(c, q, data, i, j, choose); }
          p := p.(errno := InvalidHeaderToken);
          return j, false, skips, far;
        }
        if h.General? {
          var k := SkipLine(data, j);
          far := k - j > MAX_HEADER_SIZE;
          if agreed { SkipsOn(c, q, data, i, j, if far then j + MAX_HEADER_SIZE else k, choose); }
          if agreed && far { FarOverflows(c, q, data, i, j, choose); }
          j, skips := k, true;
        } else {
          var a := ValueChar(p.(headerState := h), data[j]);
          ValueSound(q, data[j]);
          if a.next.Failed? {
            if agreed { ValueLoopFails(c, q, data, i, j, choose); }
            p := a.p;
            return j, false, skips, far;
          }
          if agreed {
            ValueLoopStep(c, q, data[i..j], data[j], a.p, choose);
            assert data[i..j] + [data[j]] == data[i..j + 1];
          }
          p := a.p.(headerState := p.headerState);
          h := a.p.headerState;
          j := j + 1;
        }
      }
      p := p.(headerState := h);
      return j, true, skips, far;
    }

    /** The line end behind a value. */
    method GiveValue(data: seq<Byte>, j: nat, m: Marks, ghost d: Config, ghost choose: Choice) returns (m': Marks)
      requires j < |data| && LineEnd(data[j])
      requires Valid(p) && p.errno == NoError && OneMark(m, p.state, j) && p.state.HeaderValue?
      modifies this`p, this`nread, this`events
      ensures Valid(p) && old(events) <= events && p.state.HeaderAlmostDone? && nread == old(nread)
      ensures !p.errno.HeaderOverflow? && !p.errno.InvalidHeaderToken?
      ensures p.errno == NoError ==> OneMark(m', p.state, if data[j] == '\r' then j + 1 else j)
      ensures Running(d) && old(p) == d.p && old(Flat(events)) == d.items && Fits(m, d, data, j) ==>
                var e := ValueGiven(d, data[j]);
                Flat(events) == e.items
                && (Agreed(client, choose, events) ==>
                      p == e.p && p.errno == NoError && Fits(m', e, data, if data[j] == '\r' then j + 1 else j))
    {
      hide After, Transition, Sound, Agreed, Fits;
      var a := EndAction(p, data[j]);
      ValueEndSound(p, true, data[j]);
      assert a == ReadValue(p, true, data[j]);
      ghost var e := d.(nread := nread);
      if Running(d) && d.p == p && Fits(m, d, data, j) {
        ValueEnds(e, data[j], choose);
        SameFits(m, d, e, data, j);
      }
      m' := Act(a, data, j, m, e, choose);
      if Running(d) && Fits(m', ValueGiven(e, data[j]), data, Position(a, j)) {
        SameFits(m', ValueGiven(e, data[j]), ValueGiven(d, data[j]), data, Position(a, j));
      }
    }

    /** The carriage return behind a value is counted when the value is delivered. */
    method CrTail(data: seq<Byte>, i: nat, j: nat, m: Marks, ghost c: Config, ghost d: Config, ghost choose: Choice)
      returns (k: nat, m': Marks, stop: bool)
      requires i <= j < |data| && data[j] == '\r' && nread <= MAX_HEADER_SIZE
      requires Valid(p) && p.errno == NoError && OneMark(m, p.state, j) && p.state.HeaderValue?
      modifies this`p, this`nread, this`events
      ensures Kept(data, j, k, m', stop) && old(events) <= events && nread <= old(nread) + (j - i)
      ensures ValueRead(c, d, data, i, j, choose) && old(p) == d.p && old(Flat(events)) == d.items
               && Fits(m, Counted(d), data, j) && old(nread) + (j - i) == Counted(d).nread == c.nread + (j - i) + 1 ==>
                Accounted(c, data, i, k, m', stop, choose)
    {
      hide Fold, Fits, Valid, Agreed, AgreedBefore, Flat, Pieces, IgnoresValue, Within, Overflowed, OneMark, KindOf;
      ghost var mirrored := ValueRead(c, d, data, i, j, choose) && p == d.p && Flat(events) == d.items
                            && Fits(m, Counted(d), data, j)
                            && nread + (j - i) == Counted(d).nread == c.nread + (j - i) + 1;
      if mirrored {
        ValueCrDone(c, d, data, i, j, choose);
        PartItems(c, data, i, j + 1, choose);
      }
      m' := GiveValue(data, j, m, Counted(d), choose);
      if p.errno != NoError { return j + 1, m', true; }
      stop := Count(j - i);
      k := if stop then j else j + 1;
      if mirrored {
        if stop {
          OverflowsHere(c, data, i, j, Flat(events), choose);
        } else {
          WithinGrowth(c, data[i..], j + 1 - i, choose);
          if Agreed(client, choose, events) {
            AtLast(c, ValueGiven(Counted(d), '\r'), data, i, j + 1, k, m', stop, choose);
          }
        }
      }
    }

    /** The line feed behind a value is counted first; it is looked at again when the value is delivered. */
    method LfTail(data: seq<Byte>, i: nat, j: nat, m: Marks, ghost c: Config, ghost d: Config, ghost choose: Choice)
      returns (k: nat, m': Marks, stop: bool)
      requires i <= j < |data| && data[j] == '\n' && nread <= MAX_HEADER_SIZE
      requires Valid(p) && p.errno == NoError && OneMark(m, p.state, j) && p.state.HeaderValue?
      modifies this`p, this`nread, this`events
      ensures Kept(data, j, k, m', stop) && old(events) <= events && nread <= old(nread) + (j - i)
      ensures ValueRead(c, d, data, i, j, choose) && old(p) == d.p && old(Flat(events)) == d.items
               && Fits(m, Counted(d), data, j) && old(nread) + (j - i) == Counted(d).nread == c.nread + (j - i) + 1 ==>
                Accounted(c, data, i, k, m', stop, choose)
    {
      hide Fold, Fits, Valid, Agreed, AgreedBefore, Settle, FoldsTo, Within, Overflowed, Flat, Pieces, IgnoresValue,
          OneMark;
      ghost var mirrored := ValueRead(c, d, data, i, j, choose) && p == d.p && Flat(events) == d.items
                            && Fits(m, Counted(d), data, j)
                            && nread + (j - i) == Counted(d).nread == c.nread + (j - i) + 1;
      if mirrored {
        ValueLfDone(c, d, data, i, j, choose);
        FoldsToItems(c, ValueGiven(Counted(d), '\n'), data, i, j, choose);
      }
      stop := Count(j - i);
      if stop {
        if mirrored { OverflowsHere(c, data, i, j, Flat(events), choose); }
        return j, m, true;
      }
      if mirrored { WithinGrowth(c, data[i..], j + 1 - i, choose); }
      m' := GiveValue(data, j, m, Counted(d), choose);
      ghost var was := events;
      if p.errno != NoError { return j, m', true; }
      k, m', stop := LookAgain(data, i, j, m', c, ValueGiven(Counted(d), '\n'), choose);
      EarlierAgreed(client, choose, was, events);
    }

    /** A header value from that byte on. */
    method ValueBytes(data: seq<Byte>, i: nat, m: Marks, ghost c: Config, ghost choose: Choice)
      returns (j: nat, m': Marks, stop: bool)
      requires i < |data| && Valid(p) && p.errno == NoError && OneMark(m, p.state, i) && p.state.HeaderValue?
      requires nread <= MAX_HEADER_SIZE
      modifies this`p, this`nread, this`events
      ensures Kept(data, i, j, m', stop) && old(events) <= events && nread <= old(nread) + (j - i)
      ensures !stop && j < |data| ==> nread < old(nread) + (j - i)
      ensures Running(c) && c.used == i && !c.skipping && old(Mirrors(Counted(c), data, i, m)) ==>
                Accounted(c, data, i, j, m', stop, choose)
    {
      hide Fold, Fits, Agreed, AgreedBefore, Valid, Flat, Within, Overflowed;
      ghost var mirrored := Running(c) && c.used == i && !c.skipping && Mirrors(Counted(c), data, i, m);
      var ok;
      ghost var skips, far;
      j, ok, skips, far := LoopValue(data, i, c, choose);
      m' := m;
      if mirrored { GaveNothing(c, data, i, choose); }
      if !ok { return j, m, true; }
      ghost var d := Looped(c, p, data[i..j], skips);
      if mirrored { LoopFits(c, p, data, i, j, skips, m); }
      if j == |data| {
        stop := Count(j - i);
        if mirrored && !far { LoopCounted(c, d, data, i, j, nread, choose); }
      } else {
        if data[j] == '\r' {
          j, m', stop := CrTail(data, i, j, m, c, d, choose);
        } else {
          j, m', stop := LfTail(data, i, j, m, c, d, choose);
        }
      }
    }

    // ---------- Bodies ----------

    /** The callback at the end of a body with a length. */
    method GiveBody(data: seq<Byte>, end: nat, m: Marks, ghost choose: Choice) returns (m': Marks)
      requires 0 < end <= |data| && Valid(p) && p.errno == NoError && p.state.MessageDone?
          && OneMark(m, BodyIdentity, end - 1)
      modifies this`p, this`events
      ensures Valid(p) && p == old(p).(errno := p.errno) && old(events) <= events
      ensures !p.errno.HeaderOverflow? && !p.errno.InvalidHeaderToken? && OneMark(m', p.state, end - 1)
      ensures Flat(events) == old(Flat(events)) + Pieces(Body, Marked(m, Body, data, end))
      ensures Agreed(client, choose, events) ==> p == old(p)
    {
      hide Agreed, AgreedBefore;
      LastAgrees(client, choose, events, Data(Body, Marked(m, Body, data, end)));
      ghost var was := p;
      m' := Deliver(Body, data, end, m);
      StillValid(was, p);
    }

    /** The bytes up to the end of a body with a length. */
    method FinishBody(data: seq<Byte>, i: nat, end: nat, ghost m: Marks, marked: Marks, ghost c: Config,
        ghost choose: Choice)
      returns (j: nat, m': Marks, stop: bool)
      requires i < end <= |data| && p.errno == NoError && nread <= MAX_HEADER_SIZE && p.state.BodyIdentity?
          && p.contentLength == 0
      requires OneMark(m, BodyIdentity, i) && marked == BodyMark(m, i)
      modifies this`p, this`nread, this`events
      ensures Kept(data, i, j, m', stop) && old(events) <= events && nread <= old(nread) && !p.errno.HeaderOverflow?
      ensures Running(c) && c.used == i && c.nread == old(nread) && Flat(old(events)) == c.items && Fits(m, c, data, i)
               && old(p) == c.p.(contentLength := 0) && c.p.contentLength == end - i ==>
                Accounted(c, data, i, j, m', stop, choose)
    {
      hide Fold, Settle, Agreed, AgreedBefore, Fits, FoldsTo, Flat, Pieces, Running, Within, Advanced, Marked, KindOf,
          OneMark;
      ghost var mirrored := Running(c) && c.used == i && c.nread == nread && Flat(events) == c.items
                            && Fits(m, c, data, i) && p == c.p.(contentLength := 0) && c.p.contentLength == end - i;
      BodyMarkStays(m, i, end - 1);
      if mirrored {
        DoneMirrored(c, data, i, end, m, choose);
        FoldsToItems(c, DoneBody(c, data[i..end]), data, i, end - 1, choose);
        BodyWithin(c, data[i..], end - i, choose);
      }
      p := p.(state := MessageDone);
      ghost var e := DoneBody(c, data[i..end]);
      m' := GiveBody(data, end, marked, choose);
      ghost var was := events;
      if p.errno != NoError { return end - 1, m', true; }
      EmptyFits(m', e, data, end - 1);
      j, m', stop := LookAgain(data, i, end - 1, m', c, e, choose);
      EarlierAgreed(client, choose, was, events);
    }

    /** The bytes of a body from that byte on: as many as there are and as the length allows. */
    method BodyBytes(data: seq<Byte>, i: nat, m: Marks, ghost c: Config, ghost choose: Choice)
      returns (j: nat, m': Marks, stop: bool)
      requires i < |data| && Valid(p) && p.errno == NoError && OneMark(m, p.state, i) && nread <= MAX_HEADER_SIZE
      requires p.state.BodyIdentity? || p.state.ChunkData?
      modifies this`p, this`nread, this`events
      ensures Kept(data, i, j, m', stop) && old(events) <= events && nread <= old(nread) && !p.errno.HeaderOverflow?
      ensures Running(c) && c.used == i && !c.looping && old(Mirrors(c, data, i, m)) ==>
                Accounted(c, data, i, j, m', stop, choose)
    {
      hide Fold, Settle, Agreed, AgreedBefore, Fits, Flat, Within, Valid;
      ghost var mirrored := Running(c) && c.used == i && !c.looping && Mirrors(c, data, i, m);
      BodyLeft(p);
      assert p.contentLength != 0 && p.contentLength != ULLONG_MAX;
      assert p.state.ChunkData? ==> p.flags.chunked;
      var toRead := if p.contentLength < |data| - i then p.contentLength else |data| - i;
      m' := BodyMark(m, i);
      p := p.(contentLength := p.contentLength - toRead);
      var end := i + toRead;
      if p.contentLength == 0 && p.state.BodyIdentity? {
        j, m', stop := FinishBody(data, i, end, m, m', c, choose);
        return;
      }
      if mirrored {
        PartMirrored(c, data, i, end, m, choose);
        BodyWithin(c, data[i..], end - i, choose);
        GaveNothing(c, data, i, choose);
      }
      if p.contentLength == 0 { p := p.(state := ChunkDataAlmostDone); }
      j, stop := end, false;
    }

    // ---------- The loop over the buffer ----------

    /** One turn of the loop: one byte, or as many as belong together. */
    method Turn(data: seq<Byte>, i: nat, m: Marks, ghost c: Config, ghost choose: Choice)
      returns (j: nat, m': Marks, stop: bool)
      requires i < |data| && Sane() && p.errno == NoError && OneMark(m, p.state, i)
      modifies this`p, this`nread, this`events
      ensures Kept(data, i, j, m', stop) && old(events) <= events
      ensures nread <= old(nread) + (j - i) + 1 && (!stop && j < |data| ==> nread <= old(nread) + (j - i))
      ensures Running(c) && c.used == i && !c.looping && !c.skipping && old(Mirrors(c, data, i, m)) ==>
                Accounted(c, data, i, j, m', stop, choose)
    {
      hide Fold, Settle, Agreed, AgreedBefore, Fits, Valid, FoldsTo, Flat, Within, Overflowed;
      ghost var mirrored := Running(c) && c.used == i && !c.looping && !c.skipping && Mirrors(c, data, i, m);
      if mirrored {
        SameFits(m, c, Counted(c), data, i);
        GaveNothing(c, data, i, choose);
      }
      if ParsingHeader(p.state) {
        stop := Count(1);
        if stop {
          if mirrored { FirstOverflows(c, data, i, choose); }
          return i, m, true;
        }
      }
      if p.state.HeaderField? {
        j, m', stop := NameBytes(data, i, m, c, choose);
      } else if p.state.HeaderValue? {
        j, m', stop := ValueBytes(data, i, m, c, choose);
      } else if p.state.BodyIdentityEof? {
        if mirrored { EofMirrored(c, data, i, m, choose); }
        j, m', stop := |data|, BodyMark(m, i), false;
      } else if p.state.BodyIdentity? || p.state.ChunkData? {
        j, m', stop := BodyBytes(data, i, m, c, choose);
      } else {
        if mirrored { OneByteCounted(c, data, i, choose); }
        j, m', stop := LookAgain(data, i, i, m, c, Counted(c), choose);
      }
    }

    /** CALLBACK_DATA_NOADVANCE behind the last byte. */
    method GiveOne(k: Kind, data: seq<Byte>, m: Marks, ghost choose: Choice) returns (stop: bool)
      requires p.errno == NoError && OneMark(m, p.state, |data|) && k != NoString
      modifies this`p, this`events
      ensures p == old(p).(errno := p.errno) && old(events) <= events && stop == (p.errno != NoError)
      ensures !p.errno.HeaderOverflow? && !p.errno.InvalidHeaderToken?
      ensures KindOf(p.state) != k ==> !stop && events == old(events)
      ensures Flat(events) == old(Flat(events))
                              + if KindOf(p.state) == k then Pieces(k, Marked(m, k, data, |data|)) else []
      ensures Agreed(client, choose, events) ==> !stop
    {
      hide Agreed, AgreedBefore;
      if MarkOf(m, k).Some? {
        ghost var was := events;
        var bytes := data[MarkOf(m, k).value..];
        assert bytes == Marked(m, k, data, |data|);
        LastAgrees(client, choose, was, Data(k, bytes));
        Give(k, bytes);
        FlatNext(was, Data(k, bytes));
      }
      stop := p.errno != NoError;
    }

    /** The callbacks for the marks that are left over: there is at most one. */
    method GiveRest(data: seq<Byte>, m: Marks, ghost choose: Choice)
      requires Valid(p) && p.errno == NoError && OneMark(m, p.state, |data|)
      modifies this`p, this`events
      ensures p == old(p).(errno := p.errno) && old(events) <= events && !p.errno.HeaderOverflow?
          && !p.errno.InvalidHeaderToken?
      ensures Flat(events) == old(Flat(events)) + Pieces(KindOf(p.state), Marked(m, KindOf(p.state), data, |data|))
      ensures Agreed(client, choose, events) ==> p == old(p)
    {
      assert IsSet(m.field) + IsSet(m.value) + IsSet(m.url) + IsSet(m.body) + IsSet(m.status) <= 1;
      hide Agreed, Flat, OneMark;
      var stop := GiveOne(Field, data, m, choose);
      if stop { return; }
      stop := GiveOne(Value, data, m, choose);
      if stop { return; }
      stop := GiveOne(Url, data, m, choose);
      if stop { return; }
      stop := GiveOne(Body, data, m, choose);
      if stop { return; }
      stop := GiveOne(Status, data, m, choose);
    }

    /** What a call has done. */
    ghost predicate Returns(c: Config, n: nat)
      reads this
    {
      Known(p) == c.p && Flat(events) == c.items && n == c.used
          && (p.errno.NoError? || p.errno.Paused? ==> nread == c.nread)
    }

    /** What some calls have done. */
    ghost predicate Did(c: Config)
      reads this
    {
      Known(p) == c.p && Flat(events) == c.items && (p.errno.NoError? || p.errno.Paused? ==> nread == c.nread)
    }

    /** The end of the stream. */
    method EndOfStream(ghost choose: Choice) returns (n: nat)
      requires Sane() && p.errno == NoError
      modifies this`p, this`events
      ensures Sane() && old(events) <= events && !p.errno.HeaderOverflow?
      ensures Flat(events) <= AtEof(old(p), nread, Flat(old(events))).items
      ensures Agreed(client, choose, events) ==> Returns(AtEof(old(p), nread, Flat(old(events))), n)
    {
      hide Agreed, AgreedBefore, Flat, Valid;
      LastAgrees(client, choose, events, Said(MessageComplete));
      FlatNext(events, Said(MessageComplete));
      n := 0;
      ghost var was := p;
      if p.state.BodyIdentityEof? {
        Say(MessageComplete);
        StillValid(was, p);
      } else if !(p.state.Dead? || p.state.StartReqOrRes? || p.state.StartRes? || p.state.StartReq?) {
        p := p.(errno := InvalidEofState);
        n := 1;
      }
    }

    /** What the loop over the buffer has done, if the callbacks agree. */
    ghost predicate Scanned(o: Config, data: seq<Byte>, n: nat, m: Marks, stop: bool, choose: Choice)
      requires Running(o)
      reads this
    {
      var d := Fold(o, data, choose);
      if !stop then GoesOnAs(d, data, n, m) && Within(o, data, |data|, choose)
      else if p.errno.HeaderOverflow? then Overflowed(o, data, Flat(events), choose)
      else EndedAs(d, n) && (RefusedInValue(p) || !Exceeds(o, data, MAX_HEADER_SIZE, choose))
    }

    /** The loop over the buffer. */
    method Scan(data: seq<Byte>, ghost o: Config, ghost choose: Choice) returns (n: nat, m: Marks, stop: bool)
      requires Sane() && p.errno == NoError && o == Begin(p, nread, Flat(events))
      modifies this`p, this`nread, this`events
      ensures Sane() && old(events) <= events && n <= |data| && nread <= old(nread) + |data| + 1
      ensures (p.errno.HeaderOverflow? ==> stop && nread > MAX_HEADER_SIZE)
      ensures !stop ==> n == |data| && p.errno == NoError && OneMark(m, p.state, n)
      ensures Running(o) && (Agreed(client, choose, events) ==> Scanned(o, data, n, m, stop, choose))
      ensures AgreedBefore(client, choose, events) ==> Flat(events) <= Fold(o, data, choose).items
    {
      Beginning(p, nread, Flat(events), data, FirstMarks(p.state), choose);
      hide Fold, Fits, Valid, OneMark, Agreed, AgreedBefore, Flat, Within, Overflowed, Exceeds;
      m, n, stop := FirstMarks(p.state), 0, false;
      FoldItems(o, data, 0, choose);
      WithinGrowth(o, data, 0, choose);
      while n < |data|
        invariant n <= |data| && Sane() && p.errno == NoError && OneMark(m, p.state, n) && old(events) <= events
        invariant nread <= old(nread) + n + (if n == |data| then 1 else 0)
        invariant Agreed(client, choose, events) ==> GoesOnAs(Fold(o, data[..n], choose), data, n, m)
        invariant Agreed(client, choose, events) ==> Within(o, data, n, choose)
        invariant AgreedBefore(client, choose, events) ==> Flat(events) <= Fold(o, data, choose).items
        decreases |data| - n
      {
        ghost var i, c, was := n, Fold(o, data[..n], choose), events;
        n, m, stop := Turn(data, n, m, c, choose);
        EarlierAgreed(client, choose, was, events);
        if Running(c) && Agreed(client, choose, was) {
          Onwards(o, data, i, n, choose);
          if Agreed(client, choose, events) { OnwardsWithin(o, data, i, n, m, stop, choose); }
        }
        if stop { return; }
      }
      assert data[..|data|] == data;
    }

    /** From what one turn has done to what all turns have done. */
    lemma OnwardsWithin(o: Config, data: seq<Byte>, i: nat, j: nat, m: Marks, stop: bool, choose: Choice)
      requires Running(o) && i <= j <= |data| && Running(Fold(o, data[..i], choose)) && Within(o, data, i, choose)
      requires Advanced(Fold(o, data[..i], choose), data, i, j, m, stop, choose)
      ensures !stop ==> Within(o, data, j, choose)
      ensures stop && p.errno.HeaderOverflow? ==> Overflowed(o, data, Flat(events), choose)
      ensures stop && !p.errno.HeaderOverflow? ==> RefusedInValue(p) || !Exceeds(o, data, MAX_HEADER_SIZE, choose)
    {
      hide Fold, Overflowed, OverAt, Flat, Fits;
      if !stop {
        WithinShifts(o, data, i, j - i, choose);
      } else if p.errno.HeaderOverflow? {
        OverflowShifts(o, data, i, Flat(events), choose);
      } else if !RefusedInValue(p) {
        WithinShifts(o, data, i, |data| - i + 1, choose);
      }
    }

    /** The loop over the buffer and the callbacks behind it. */
    method Consume(data: seq<Byte>, ghost o: Config, ghost choose: Choice) returns (n: nat)
      requires Sane() && p.errno == NoError && data != [] && o == Begin(p, nread, Flat(events))
      modifies this`p, this`nread, this`events
      ensures Sane() && old(events) <= events && Running(o)
      ensures p.errno.HeaderOverflow? ==> MAX_HEADER_SIZE < nread <= old(nread) + |data| + 1
      ensures Agreed(client, choose, events) ==>
                if p.errno.HeaderOverflow? then Overflowed(o, data, Flat(events), choose)
                else
                  && Returns(Flush(Fold(o, data, choose)), n)
                  && (RefusedInValue(p) || !Exceeds(o, data, MAX_HEADER_SIZE, choose))
      ensures AgreedBefore(client, choose, events) ==> Flat(events) <= Flush(Fold(o, data, choose)).items
    {
      hide Fold, Fits, Agreed, AgreedBefore, OneMark, Flat, Within, Overflowed, Valid, Exceeds;
      var m, stop;
      n, m, stop := Scan(data, o, choose);
      if stop { return; }
      ghost var was, d := events, Fold(o, data, choose);
      if Agreed(client, choose, was) {
        RestFits(m, d, data);
        AllWithin(o, data, choose);
      }
      ghost var q := p;
      GiveRest(data, m, choose);
      StillValid(q, p);
      EarlierAgreed(client, choose, was, events);
    }

    /** http_parser_execute. What it does is what its bytes do one by one, if the callbacks agree; it ends with an
        error exactly if too many header bytes are counted, unless it has met a wrong character of a value before it
        has counted them. The last callback may fail or pause, or answer differently. */
    method Execute(data: seq<Byte>, ghost choose: Choice) returns (n: nat)
      requires Sane()
      modifies this`p, this`nread, this`events
      ensures Sane() && old(events) <= events
      ensures old(p.errno) != NoError ==> n == 0 && p == old(p) && nread == old(nread) && events == old(events)
      ensures old(p.errno) == NoError && p.errno.HeaderOverflow? ==> MAX_HEADER_SIZE < nread <= old(nread) + |data| + 1
      ensures old(p.errno) == NoError && Agreed(client, choose, events) ==>
                var o := Begin(old(p), old(nread), Flat(old(events)));
                if p.errno.HeaderOverflow? then data != [] && Overflowed(o, data, Flat(events), choose)
                else
                  && Returns(Call(old(p), old(nread), Flat(old(events)), data, choose), n)
                  && (RefusedInValue(p)
                      || !CallExceeds(old(p), old(nread), Flat(old(events)), data, MAX_HEADER_SIZE, choose))
      ensures old(p.errno) == NoError && AgreedBefore(client, choose, events) ==>
                Flat(events) <= Call(old(p), old(nread), Flat(old(events)), data, choose).items
    {
      if p.errno != NoError { return 0; }
      hide Fold, Agreed, AgreedBefore, Flat, Overflowed, Valid, Exceeds, Flush, AtEof;
      if data == [] {
        n := EndOfStream(choose);
      } else {
        n := Consume(data, Begin(p, nread, Flat(events)), choose);
      }
    }

    /** http_parser_pause, which must not be called after an error. */
    method Pause(paused: bool)
      requires Sane() && (p.errno.NoError? || p.errno.Paused?)
      modifies this`p
      ensures Sane() && p == old(p).(errno := if paused then Paused else NoError)
    {
      p := p.(errno := if paused then Paused else NoError);
    }
  }

  /** What a program does with a parser: give it bytes, or none at the end of the stream, or let it go on. */
  datatype Input = Bytes(data: seq<Byte>) | Resume

  /** The calls one after the other. */
  function Calls(p: Parser, nread: nat, items: seq<Item>, inputs: seq<Input>, choose: Choice): (c: Config)
    requires Valid(p)
    ensures Valid(c.p)
  {
    if inputs == [] then Begin(p, nread, items)
    else
      var c := Calls(p, nread, items, inputs[..|inputs| - 1], choose);
      var x := inputs[|inputs| - 1];
      if x.Bytes? then Call(c.p, c.nread, c.items, x.data, choose)
      else if c.p.errno.Paused? then c.(p := c.p.(errno := NoError)) else c
  }

  /** Every sequence of calls from http_parser_init on, with any client: no assertion fails, as each call leaves
      behind what the next one needs; and with a client that agrees the calls do what their bytes do. */
  method Program(kind: ParserType, lenient: bool, client: Client, inputs: seq<Input>,
      ghost choose: Choice) returns (h: HttpParser)
    ensures fresh(h) && h.client == client && h.Sane()
    ensures Agreed(client, choose, h.events) && !h.p.errno.HeaderOverflow? ==>
              h.Did(Calls(Init(kind, lenient), 0, [], inputs, choose))
    ensures AgreedBefore(client, choose, h.events) ==>
              Flat(h.events) <= Calls(Init(kind, lenient), 0, [], inputs, choose).items
  {
    hide Call, Flat, Agreed, AgreedBefore, Valid, Overflowed;
    h := new HttpParser(kind, lenient, client);
    EmptyFlat();
    for k := 0 to |inputs|
      invariant fresh(h) && h.client == client && h.Sane()
      invariant Agreed(client, choose, h.events) && !h.p.errno.HeaderOverflow? ==>
                  h.Did(Calls(Init(kind, lenient), 0, [], inputs[..k], choose))
      invariant AgreedBefore(client, choose, h.events) ==>
                  Flat(h.events) <= Calls(Init(kind, lenient), 0, [], inputs[..k], choose).items
    {
      assert inputs[..k + 1][..k] == inputs[..k];
      ghost var was := h.events;
      match inputs[k] {
        case Bytes(data) =>
          RefusedCall(data, choose);
          CallItems(Calls(Init(kind, lenient), 0, [], inputs[..k], choose), data, choose);
          var _ := h.Execute(data, choose);
          EarlierAgreed(client, choose, was, h.events);
        case Resume =>
          if h.p.errno.Paused? { h.Pause(false); }
      }
    }
    assert inputs[..|inputs|] == inputs;
  }

  lemma EmptyFlat()
    ensures Flat([]) == []
  {
  }

  lemma RefusedCall(data: seq<Byte>, choose: Choice)
    ensures forall p: Parser, n: nat, items: seq<Item> :: Valid(p) && p.errno != NoError ==>
              Call(p, n, items, data, choose) == Begin(p, n, items).(halted := true)
  {
  }

  lemma Beginning(p: Parser, nread: nat, items: seq<Item>, data: seq<Byte>, m: Marks, choose: Choice)
    requires Valid(p) && m == FirstMarks(p.state)
    ensures var c := Begin(p, nread, items);
            Running(c) && Fold(c, data[..0], choose) == c && OneMark(m, p.state, 0) && Fits(m, c, data, 0)
  {
    FoldNone(Begin(p, nread, items), choose);
    hide Fold;
    assert data[..0] == [];
  }

  /** Nothing was given yet. */
  lemma GaveNothing(c: Config, data: seq<Byte>, i: nat, choose: Choice)
    requires Running(c) && i <= |data|
    ensures c.items <= Fold(c, data[i..], choose).items
  {
    FoldNone(c, choose);
    hide Fold;
    assert data[i..][..0] == [];
    FoldItems(c, data[i..], 0, choose);
  }

  lemma PrefixItems(c: Config, s: seq<Byte>, t: seq<Byte>, choose: Choice)
    requires Running(c) && t <= s
    ensures Fold(c, t, choose).items <= Fold(c, s, choose).items
  {
    hide Fold, Running;
    FoldItems(c, s, |t|, choose);
    assert s[..|t|] == t;
  }

  lemma PartItems(c: Config, data: seq<Byte>, i: nat, j: nat, choose: Choice)
    requires Running(c) && i <= j <= |data|
    ensures Fold(c, data[i..j], choose).items <= Fold(c, data[i..], choose).items
  {
    hide Fold, Running;
    assert data[i..j] <= data[i..];
    PrefixItems(c, data[i..], data[i..j], choose);
  }

  lemma FoldsToItems(c: Config, e: Config, data: seq<Byte>, i: nat, at: nat, choose: Choice)
    requires FoldsTo(c, e, data, i, at, choose)
    ensures e.items <= Fold(c, data[i..], choose).items
  {
    hide Fold, Settle;
    SettleItems(e, data[at], choose);
    PartItems(c, data, i, at + 1, choose);
  }

  lemma CallItems(c: Config, data: seq<Byte>, choose: Choice)
    requires Valid(c.p)
    ensures c.items <= Call(c.p, c.nread, c.items, data, choose).items
  {
    hide Fold, Pieces;
    if c.p.errno == NoError && data != [] {
      GaveNothing(Begin(c.p, c.nread, c.items), data, 0, choose);
      assert data[0..] == data;
    }
  }

  /** The count of the first byte is too large already. */
  lemma FirstOverflows(c: Config, data: seq<Byte>, i: nat, choose: Choice)
    requires Running(c) && i < |data| && Counted(c).nread > MAX_HEADER_SIZE
    ensures Overflowed(c, data[i..], c.items, choose)
  {
    FoldNone(c, choose);
    hide Fold;
    var s := data[i..];
    assert s[..0] == [];
    assert OverAt(c, s, 0, MAX_HEADER_SIZE, choose) && GivenAt(c, s, 0, c.items, choose);
  }

  lemma OneByteCounted(c: Config, data: seq<Byte>, i: nat, choose: Choice)
    requires Running(c) && i < |data| && !c.p.state.HeaderField? && !c.p.state.HeaderValue? && !c.skipping
        && c.used == i
    requires Counted(c).nread <= MAX_HEADER_SIZE
    ensures FoldsTo(c, Counted(c), data, i, i, choose) && Within(c, data[i..], 1, choose)
  {
    hide Settle;
    OneByte(c, data, i, choose);
    assert data[i..][..0] == [];
  }

  /** The count behind the loop over a name or a value is checked. */
  lemma LoopCounted(c: Config, d: Config, data: seq<Byte>, i: nat, j: nat, nread: nat, choose: Choice)
    requires Running(c) && i <= j <= |data| && i < |data| && (c.p.state.HeaderField? || c.p.state.HeaderValue?)
    requires Fold(c, data[i..j], choose) == d && !d.halted && d.nread == c.nread + (j - i) && d.items == c.items
    requires (d.p.state.HeaderField? || d.p.state.HeaderValue?) && (i < j ==> d.looping)
    requires nread == c.nread + 1 + (j - i)
    ensures if nread > MAX_HEADER_SIZE then Overflowed(c, data[i..], c.items, choose)
            else Within(c, data[i..], j - i, choose)
  {
    hide Fold;
    var s := data[i..];
    assert s[..j - i] == data[i..j];
    if nread > MAX_HEADER_SIZE {
      assert OverAt(c, s, j - i, MAX_HEADER_SIZE, choose) && GivenAt(c, s, j - i, c.items, choose);
    } else {
      WithinGrowth(c, s, j - i, choose);
    }
  }

  /** The count of the line end behind a value is too large. */
  lemma OverflowsHere(c: Config, data: seq<Byte>, i: nat, j: nat, given: seq<Item>, choose: Choice)
    requires Running(c) && i <= j < |data| && !Fold(c, data[i..j], choose).halted
    requires Counted(Fold(c, data[i..j], choose)).nread > MAX_HEADER_SIZE
    requires given == Fold(c, data[i..j], choose).items || given == Fold(c, data[i..j + 1], choose).items
    ensures Overflowed(c, data[i..], given, choose) && given <= Fold(c, data[i..], choose).items
  {
    hide Fold;
    var s := data[i..];
    assert s[..j - i] == data[i..j] && s[..j + 1 - i] == data[i..j + 1];
    assert OverAt(c, s, j - i, MAX_HEADER_SIZE, choose) && GivenAt(c, s, j - i, given, choose);
    FoldItems(c, s, j - i, choose);
    FoldItems(c, s, j + 1 - i, choose);
  }

  /** The bytes of a value up to a place before its line end are skipped. */
  lemma SkipsOn(c: Config, q: Parser, data: seq<Byte>, i: nat, j: nat, k: nat, choose: Choice)
    requires Running(c) && c.p.state.HeaderValue? && IgnoresValue(q) && i <= j < k <= |data|
    requires q.lenient || IsHeaderChar(data[j])
    requires forall x :: j <= x < k ==> !LineEnd(data[x])
    requires Fold(c, data[i..j], choose) == Looped(c, q, data[i..j], false)
    ensures Fold(c, data[i..k], choose) == Looped(c, q, data[i..k], true)
  {
    hide Fold, IsHeaderChar, LineEnd, IgnoresValue, Looped;
    var t := data[j..k];
    assert forall x :: 0 <= x < |t| ==> t[x] == data[j + x];
    ValueLoopSkips(c, q, data[i..j], t, choose);
    assert data[i..j] + t == data[i..k];
  }

  /** A value that goes on beyond the largest size of headers has too many bytes. */
  lemma FarOverflows(c: Config, q: Parser, data: seq<Byte>, i: nat, j: nat, choose: Choice)
    requires Running(c) && i <= j && j + MAX_HEADER_SIZE < |data| && IgnoresValue(q)
    requires var k := j + MAX_HEADER_SIZE; Fold(c, data[i..k], choose) == Looped(c, q, data[i..k], true)
    ensures Overflowed(c, data[i..], c.items, choose)
  {
    hide Fold, Valid, Overflowed;
    OverflowsHere(c, data, i, j + MAX_HEADER_SIZE, c.items, choose);
  }

  /** The bytes of a body are not counted. */
  lemma BodyWithin(c: Config, s: seq<Byte>, n: nat, choose: Choice)
    requires Running(c) && (c.p.state.BodyIdentity? || c.p.state.ChunkData?) && n <= |s| && n <= c.p.contentLength
    requires c.nread <= MAX_HEADER_SIZE
    ensures Within(c, s, n, choose)
  {
    hide Fold, Valid;
    forall k | 0 <= k < n ensures !OverAt(c, s, k, MAX_HEADER_SIZE, choose) {
      if c.p.state.ChunkData? {
        HttpBodies.ChunkBytes(c, s[..k], choose);
      } else {
        HttpBodies.IdentityPart(c, s[..k], choose);
      }
    }
  }

  lemma AllWithin(o: Config, data: seq<Byte>, choose: Choice)
    requires Running(o) && Within(o, data, |data|, choose)
    requires Flush(Fold(o, data, choose)).nread <= MAX_HEADER_SIZE
    ensures !Exceeds(o, data, MAX_HEADER_SIZE, choose)
  {
    hide Fold;
    assert data[..|data|] == data;
  }

  lemma Onwards(o: Config, data: seq<Byte>, i: nat, j: nat, choose: Choice)
    requires Running(o) && i <= j <= |data| && Running(Fold(o, data[..i], choose))
    ensures Fold(o, data[..j], choose) == Fold(Fold(o, data[..i], choose), data[i..j], choose)
    ensures Fold(o, data, choose) == Fold(Fold(o, data[..i], choose), data[i..], choose)
  {
    hide Fold;
    FoldSplit(o, data[..i], data[i..j], choose);
    FoldSplit(o, data[..i], data[i..], choose);
    assert data[..i] + data[i..j] == data[..j] && data[..i] + data[i..] == data;
  }

  lemma RestFits(m: Marks, c: Config, data: seq<Byte>)
    requires Fits(m, c, data, |data|) && OneMark(m, c.p.state, |data|)
    ensures Marked(m, KindOf(c.p.state), data, |data|) == c.pending
  {
  }

  /** MARK(body). */
  function BodyMark(m: Marks, i: nat): Marks { if m.body.None? then m.(body := Some(i)) else m }

  lemma BodyLeft(p: Parser)
    requires Valid(p) && (p.state.BodyIdentity? || p.state.ChunkData?)
    ensures 0 < p.contentLength < ULLONG_MAX && (p.state.ChunkData? ==> p.flags.chunked)
    ensures forall k :: 0 < k < p.contentLength ==> Valid(p.(contentLength := k))
    ensures p.state.ChunkData? ==> Valid(p.(contentLength := 0, state := ChunkDataAlmostDone))
  {
  }

  lemma BodyMarkStays(m: Marks, i: nat, j: nat)
    requires OneMark(m, BodyIdentity, i) && i <= j
    ensures OneMark(BodyMark(m, i), BodyIdentity, j) && KindOf(MessageDone) == NoString
    ensures m.body.Some? ==> m.body.value <= i
  {
  }

  /** The configuration at the last byte of a body with a length. */
  function DoneBody(c: Config, s: seq<Byte>): Config
    requires s != []
  {
    Config(c.p.(contentLength := 0, state := MessageDone), c.nread, false, false, c.items
        + Pieces(Body, c.pending + s), [],
           false, c.used + |s| - 1)
  }

  lemma EmptyFits(m: Marks, c: Config, data: seq<Byte>, i: nat)
    requires KindOf(c.p.state) == NoString && c.pending == [] && i <= |data|
    ensures Fits(m, c, data, i)
  {
  }

  lemma EofMirrored(c: Config, data: seq<Byte>, i: nat, m: Marks, choose: Choice)
    requires Running(c) && i <= |data| && c.p.state.BodyIdentityEof? && Fits(m, c, data, i)
    ensures var d := c.(pending := c.pending + data[i..], used := c.used + (|data| - i));
            Fold(c, data[i..|data|], choose) == d && Fits(BodyMark(m, i), d, data, |data|)
    ensures c.nread <= MAX_HEADER_SIZE ==> Within(c, data[i..], |data| - i, choose)
  {
    hide Fold;
    forall k | 0 <= k < |data| - i && c.nread <= MAX_HEADER_SIZE
      ensures !OverAt(c, data[i..], k, MAX_HEADER_SIZE, choose)
    {
      EofRun(c, data[i..][..k], choose);
    }
    assert data[i..|data|] == data[i..];
    EofRun(c, data[i..], choose);
    if m.body.Some? { assert data[m.body.value..|data|] == data[m.body.value..i] + data[i..]; }
  }

  lemma MarkedBody(c: Config, data: seq<Byte>, i: nat, j: nat, m: Marks)
    requires i <= j <= |data| && KindOf(c.p.state) == Body && Fits(m, c, data, i)
        && (m.body.Some? ==> m.body.value <= i)
    ensures var x := BodyMark(m, i).body.value; x <= i && data[x..j] == c.pending + data[i..j]
  {
    if m.body.Some? { assert data[m.body.value..j] == data[m.body.value..i] + data[i..j]; }
  }

  /** Some bytes of a body, behind which it goes on or its chunk ends. */
  function SomeBody(c: Config, s: seq<Byte>): Config
    requires |s| <= c.p.contentLength
  {
    var d := HttpBodies.InChunk(c, s);
    if c.p.state.ChunkData? then d else d.(p := d.p.(state := BodyIdentity))
  }

  lemma PartMirrored(c: Config, data: seq<Byte>, i: nat, j: nat, m: Marks, choose: Choice)
    requires Running(c) && i < j <= |data| && (m.body.Some? ==> m.body.value <= i) && Fits(m, c, data, i)
    requires (c.p.state.BodyIdentity? && j - i < c.p.contentLength)
        || (c.p.state.ChunkData? && j - i <= c.p.contentLength)
    ensures var d := SomeBody(c, data[i..j]); Fold(c, data[i..j], choose) == d && Fits(BodyMark(m, i), d, data, j)
  {
    hide Fold, Valid;
    MarkedBody(c, data, i, j, m);
    if c.p.state.ChunkData? {
      HttpBodies.ChunkBytes(c, data[i..j], choose);
    } else {
      HttpBodies.IdentityPart(c, data[i..j], choose);
    }
  }

  lemma DoneMirrored(c: Config, data: seq<Byte>, i: nat, j: nat, m: Marks, choose: Choice)
    requires Running(c) && i < j <= |data| && (m.body.Some? ==> m.body.value <= i) && Fits(m, c, data, i)
    requires c.p.state.BodyIdentity? && j - i == c.p.contentLength && c.used == i
    ensures BodyMark(m, i).body.value <= i && Marked(BodyMark(m, i), Body, data, j) == c.pending + data[i..j]
    ensures FoldsTo(c, DoneBody(c, data[i..j]), data, i, j - 1, choose)
  {
    hide Fold, Settle, Valid, Fits;
    MarkedBody(c, data, i, j, m);
    BodyEnds(c, data, i, j - 1, choose);
  }

  /** The loop over a value has led to configuration d. */
  ghost predicate ValueRead(c: Config, d: Config, data: seq<Byte>, i: nat, j: nat, choose: Choice)
    requires i <= j < |data|
  {
    Running(c) && Running(d) && c.used == i && d.used == j && d.p.state.HeaderValue? && Fold(c, data[i..j], choose) == d
  }

  lemma ValueCrDone(c: Config, d: Config, data: seq<Byte>, i: nat, j: nat, choose: Choice)
    requires i <= j < |data| && data[j] == '\r' && ValueRead(c, d, data, i, j, choose)
    ensures Running(c) && Fold(c, data[i..j + 1], choose) == ValueGiven(Counted(d), '\r')
        && !ValueGiven(Counted(d), '\r').halted
  {
    hide Fold, After, Transition, Valid;
    ValueEnds(Counted(d), '\r', choose);
    OneMore(c, data, i, j, d, EndAction(d.p, '\r'), choose);
  }

  lemma ValueLfDone(c: Config, d: Config, data: seq<Byte>, i: nat, j: nat, choose: Choice)
    requires i <= j < |data| && data[j] == '\n' && ValueRead(c, d, data, i, j, choose)
    ensures Running(d) && FoldsTo(c, ValueGiven(Counted(d), '\n'), data, i, j, choose)
  {
    hide Fold, After, Transition, Valid, Settle;
    ValueEnds(Counted(d), '\n', choose);
    OneMoreAgain(c, data, i, j, d, EndAction(d.p, '\n'), choose);
    if Fold(c, data[i..j + 1], choose).halted { EndsHere(c, data, i, j + 1, choose); }
    LineFeedSettles(ValueGiven(Counted(d), '\n'), choose);
  }

  lemma LineFeedSettles(c: Config, choose: Choice)
    requires Running(c) && c.p.state.HeaderAlmostDone?
    ensures !Settle(c, '\n', choose).looping && !Settle(c, '\n', choose).skipping
  {
    assert Transition(c.p, c.skipping, '\n') == Go(c.p, ValueLws);
    hide Transition;
  }

  lemma SameFits(m: Marks, c: Config, d: Config, data: seq<Byte>, i: nat)
    requires Fits(m, c, data, i) && d.p.state == c.p.state && d.pending == c.pending
    ensures Fits(m, d, data, i)
  {
  }

  /** The mark fits after some more bytes of a name or a value. */
  lemma LoopFits(c: Config, q: Parser, data: seq<Byte>, i: nat, j: nat, skips: bool, m: Marks)
    requires i <= j <= |data| && KindOf(c.p.state) == KindOf(q.state) && Fits(m, Counted(c), data, i)
    requires MarkOf(m, KindOf(q.state)).Some?
    ensures var d := Looped(c, q, data[i..j], skips); Fits(m, d, data, j) && Fits(m, Counted(d), data, j)
  {
    var x := MarkOf(m, KindOf(q.state)).value;
    assert data[x..j] == data[x..i] + data[i..j];
  }

  lemma AfterKeeps(c: Config, a: Action, ch: Byte, choose: Choice)
    requires Running(c) && Sound(c.p, a) && !c.p.state.HeaderValue?
    ensures var d := After(c, a, ch, choose);
            !d.skipping && d.used == (if a.next.Consume? || a.next.Exit? then c.used + 1 else c.used)
            && d.halted == (a.next.Exit? || a.next.Failed?)
  {
  }

  lemma StillValid(p: Parser, q: Parser)
    requires Valid(p) && q == p.(errno := q.errno, flags := q.flags, upgrade := q.upgrade)
    requires q.flags == p.flags.(skipBody := q.flags.skipBody)
    ensures Valid(q)
  {
  }

  /** The bytes behind the mark are those that an action delivers, and afterwards those that still wait. */
  lemma FitsAfter(c: Config, a: Action, data: seq<Byte>, i: nat, m: Marks, choose: Choice)
    requires i < |data| && Running(c) && Sound(c.p, a) && OneMark(m, c.p.state, i) && Fits(m, c, data, i)
    ensures var n, d := MarkedBy(m, c.p.state, a, i), After(c, a, data[i], choose);
            && (a.emit.Deliver? ==>
                  && (MarkOf(n, a.emit.kind).Some? ==> MarkOf(n, a.emit.kind).value <= i)
                  && Marked(n, a.emit.kind, data, if a.take then i + 1 else i) == if a.take then c.pending
                      + [data[i]] else c.pending)
            && (!a.next.Failed? ==>
                  Fits(if a.emit.Deliver? then WithMark(n, a.emit.kind, None) else n, d, data, Position(a, i)))
  {
    hide Valid, Rank, Ordinary, ResetsCount, ItemsAfter;
    var k := KindOf(c.p.state);
    assert data[i..i + 1] == [data[i]];
    if MarkOf(m, k).Some? {
      var x := MarkOf(m, k).value;
      assert data[x..i + 1] == data[x..i] + [data[i]];
    }
    if !a.take || a.emit.Deliver? {
      assert KindOf(a.p.state) == NoString || c.pending == [] || a.next.Failed?;
    } else if MarkOf(m, k).None? {
      assert c.pending + [data[i]] == [data[i]];
    }
  }
}
