/** ws_handle_frame of src/websocket.c without an extension, all callbacks set and answering WS_OK
    and every pong sent: message assembly against section 5.4 of RFC 6455. */
module WebsocketMessages {
  import opened Words
  import opened WebsocketFrame
  import opened WebsocketMask
  import Utf8

  const CONTINUATION: Byte := 0
  const TEXT: Byte := 1
  const BINARY: Byte := 2
  const CLOSE: Byte := 8
  const PING: Byte := 9
  const PONG: Byte := 10

  const SMALL_FRAME: nat := 125

  /** is_fragmented and frag_opcode. */
  datatype State = State(open: bool, opcode: Byte)

  const IDLE := State(false, CONTINUATION)

  datatype Event =
    | Whole(opcode: Byte, payload: seq<Byte>)
    | Piece(opcode: Byte, payload: seq<Byte>, last: bool)
    | PingReceived(payload: seq<Byte>)
    | PongReceived(payload: seq<Byte>)

  /** Failed carries the status code given to handle_error. */
  datatype Result = Ok(event: Event) | CloseReceived(status: bv64) | Failed(code: nat)

  const PROTOCOL_ERROR := Failed(1002)
  const UNSUPPORTED_DATA := Failed(1007)

  /** is_status_code_invalid, negated. */
  predicate StatusAllowed(code: bv64)
  {
    1000 <= code <= 1003 || 1007 <= code <= 1011 || 3000 <= code <= 4999
  }

  function HandleClose(f: Frame): Result
  {
    var status := if |f.payload| >= 2 then FromBe16(f.payload[..2]) else 1000;
    if |f.payload| > 2 && !Utf8.Verdict(Utf8.Run(Utf8.INIT, f.payload[2..]), true).0 then UNSUPPORTED_DATA
    else if |f.payload| == 1 || |f.payload| > SMALL_FRAME || !StatusAllowed(status) then PROTOCOL_ERROR
    else CloseReceived(status)
  }

  /** One frame: the state after it and what the callbacks of a server see. */
  function Handle(s: State, f: Frame): (State, Result)
  {
    if f.rsv != 0 || (!f.fin && f.opcode >= CLOSE) then (s, PROTOCOL_ERROR)
    else if !f.fin && f.opcode != 0 && s.open then (s, PROTOCOL_ERROR)
    else if !f.fin && f.opcode == 0 && !s.open then (s, PROTOCOL_ERROR)
    else
      var starts := !f.fin && f.opcode != 0;
      var s1 := if starts then State(true, f.opcode) else s;
      var opcode := if starts then CONTINUATION else f.opcode;
      if s1.open && 0 < opcode < CLOSE then (s1, PROTOCOL_ERROR)
      else if opcode == CONTINUATION then
        if s1.opcode != BINARY && s1.opcode != TEXT then (s1, PROTOCOL_ERROR)
        else (if f.fin then IDLE else s1, Ok(Piece(s1.opcode, f.payload, f.fin)))
      else if opcode == BINARY || opcode == TEXT then (s1, Ok(Whole(opcode, f.payload)))
      else if opcode == PING then
        (s1, if |f.payload| > SMALL_FRAME then PROTOCOL_ERROR else Ok(PingReceived(f.payload)))
      else if opcode == PONG then
        (s1, if |f.payload| > SMALL_FRAME then PROTOCOL_ERROR else Ok(PongReceived(f.payload)))
      else if opcode == CLOSE then (s1, HandleClose(f))
      else (s1, PROTOCOL_ERROR)
  }

  /** What the callbacks see: a client masks the payload of a ping in place when it sends the pong, before the
      callback is given the same buffer. */
  function Seen(r: Result, isServer: bool, key: seq<Byte>): Result
    requires |key| == 4
  {
    if r.Ok? && r.event.PingReceived? && !isServer then Ok(PingReceived(Masked(r.event.payload, key))) else r
  }

  /** The pong that answers an accepted ping, and nothing for other frames; the length is that of the payload. */
  function Answer(r: Result, isServer: bool, key: seq<Byte>, length: bv64): seq<Byte>
    requires |key| == 4
  {
    if r.Ok? && r.event.PingReceived? then FrameBytes(isServer, Message(PONG, key, r.event.payload, length)) else []
  }

  /** The other side receives an accepted ping's payload in a pong (section 5.5.3 of RFC 6455). */
  lemma PongEchoes(payload: seq<Byte>, length: bv64, r: Reader, key: seq<Byte>)
    requires AtHeader(r, r.isServer) && |key| == 4 && |payload| == length as nat
    ensures Decode(r, Answer(Ok(PingReceived(payload)), !r.isServer, key, length)) == [Frame(true, 0, PONG, payload)]
  {
    hide Decode, FrameBytes;
    var m := Message(PONG, key, payload, length);
    var r' := FrameDecodes(r, m, []);
    assert FrameBytes(!r.isServer, m) + [] == FrameBytes(!r.isServer, m);
    DecodeNothing(r');
  }

  lemma DecodeNothing(r: Reader)
    requires AtHeader(r, r.isServer) && r.Valid()
    ensures Decode(r, []) == []
  {
  }

  /** The struct websocket fields that ws_handle_frame stores into. */
  class Assembler {
    var isFragmented: bool
    var fragOpcode: Byte

    ghost function S(): State reads this { State(isFragmented, fragOpcode) }

    constructor ()
      ensures S() == IDLE
    {
      isFragmented, fragOpcode := false, CONTINUATION;
    }

    /** The payload lies in a buffer, which a client masks if it answers a ping; `wire` is what is sent. */
    method HandleFrame(f: Frame, frame: array<Byte>, length: bv64, isServer: bool, key: seq<Byte>, address: nat,
        width: nat)
      returns (ret: Result, wire: seq<Byte>)
      requires f.payload == frame[..] && frame.Length == length as nat && |key| == 4 && (width == 4 || width == 8)
      modifies this, frame
      ensures var (s, r) := Handle(old(S()), f);
              && S() == s && ret == Seen(r, isServer, key) && wire == Answer(r, isServer, key, length)
              && frame[..] == if wire != [] && !isServer then Masked(f.payload, key) else f.payload
    {
      wire := [];
      var opcode := f.opcode;
      if f.rsv != 0 { return PROTOCOL_ERROR, []; }
      if !f.fin && opcode >= CLOSE { return PROTOCOL_ERROR, []; }
      if !f.fin {
        if opcode != 0 {
          if isFragmented { return PROTOCOL_ERROR, []; }
          isFragmented := true;
          fragOpcode := opcode;
          opcode := CONTINUATION;
        } else if !isFragmented {
          return PROTOCOL_ERROR, [];
        }
      }
      if isFragmented && opcode < CLOSE && opcode > 0 { return PROTOCOL_ERROR, []; }
      if opcode == CONTINUATION {
        if fragOpcode != BINARY && fragOpcode != TEXT { return PROTOCOL_ERROR, []; }
        ret := Ok(Piece(fragOpcode, f.payload, f.fin));
        if f.fin {
          isFragmented := false;
          fragOpcode := CONTINUATION;
        }
      } else if opcode == BINARY || opcode == TEXT {
        ret := Ok(Whole(opcode, f.payload));
      } else if opcode == PING {
        if |f.payload| > SMALL_FRAME {
          ret := PROTOCOL_ERROR;
        } else {
          wire := SendFrame(isServer, PONG, key, frame, length, address, width);
          ret := Ok(PingReceived(frame[..]));
        }
      } else if opcode == PONG {
        if |f.payload| > SMALL_FRAME {
          ret := PROTOCOL_ERROR;
        } else {
          ret := Ok(PongReceived(frame[..]));
        }
      } else if opcode == CLOSE {
        ret := HandleClose(f);
      } else {
        ret := PROTOCOL_ERROR;
      }
    }
  }

  // ---------- Runs ----------

  /** The events of a run of frames from state s, and None once a frame is refused. */
  datatype Run = Accepted(state: State, events: seq<Event>) | Refused

  function RunFrames(s: State, fs: seq<Frame>): Run
    decreases fs
  {
    if fs == [] then Accepted(s, [])
    else
      var (s', r) := Handle(s, fs[0]);
      if !r.Ok? then Refused
      else
        var rest := RunFrames(s', fs[1..]);
        if rest.Refused? then Refused else Accepted(rest.state, [r.event] + rest.events)
  }

  // ---------- Section 5.4 of RFC 6455 ----------

  /** A frame that may stand between the fragments of a message (section 5.5). */
  predicate GoodControl(f: Frame)
  {
    f.fin && f.rsv == 0 && (f.opcode == PING || f.opcode == PONG) && |f.payload| <= SMALL_FRAME
  }

  /** The remaining fragments of a message. */
  ghost predicate Tail(fs: seq<Frame>)
  {
    fs != [] && fs[0].rsv == 0 && fs[0].opcode == CONTINUATION
    && if fs[0].fin then |fs| == 1 else Tail(fs[1..])
  }

  /** A message: one final frame, or a first fragment, further fragments and a final one. */
  ghost predicate IsMessage(fs: seq<Frame>)
  {
    fs != [] && fs[0].rsv == 0 && (fs[0].opcode == TEXT || fs[0].opcode == BINARY)
    && if fs[0].fin then |fs| == 1 else Tail(fs[1..])
  }

  function Payload(fs: seq<Frame>): seq<Byte>
  {
    if fs == [] then [] else fs[0].payload + Payload(fs[1..])
  }

  datatype Text = Text(opcode: Byte, payload: seq<Byte>)

  /** ds is exactly the messages ms, one after the other. */
  ghost predicate Messages(ds: seq<Frame>, ms: seq<Text>)
    decreases ds
  {
    if ds == [] then ms == []
    else ms != [] && exists n :: 1 <= n <= |ds| && IsMessage(ds[..n])
                                 && ms[0] == Text(ds[0].opcode, Payload(ds[..n])) && Messages(ds[n..], ms[1..])
  }

  /** The same with a message already begun: its opcode and the payload of its fragments so far. */
  ghost predicate Rest(begun: Text, ds: seq<Frame>, ms: seq<Text>)
  {
    ms != [] && exists n :: 1 <= n <= |ds| && Tail(ds[..n])
                            && ms[0] == Text(begun.opcode, begun.payload + Payload(ds[..n]))
                                && Messages(ds[n..], ms[1..])
  }

  function DataFrames(fs: seq<Frame>): seq<Frame>
  {
    if fs == [] then [] else (if fs[0].opcode < CLOSE then [fs[0]] else []) + DataFrames(fs[1..])
  }

  /** A prefix of the message grammar, with control frames interleaved. */
  ghost predicate Conforming(fs: seq<Frame>)
  {
    (forall f :: f in fs && f.opcode >= CLOSE ==> GoodControl(f))
    && exists ext, ms :: Messages(DataFrames(fs) + ext, ms)
  }

  // ---------- Acceptance is conformance ----------

  lemma Slices(f: Frame, ds: seq<Frame>, n: nat)
    requires 1 <= n <= |ds| + 1
    ensures var s := [f] + ds; s[..n][1..] == ds[..n - 1] && s[n..] == ds[n - 1..] && s[..n][0] == f
  {
  }

  lemma FirstTail(f: Frame, ds: seq<Frame>, begun: Text, ms: seq<Text>)
    requires f.opcode < CLOSE
    ensures Rest(begun, [f] + ds, ms) <==>
            f.rsv == 0 && f.opcode == CONTINUATION &&
            if f.fin then ms != [] && ms[0] == Text(begun.opcode, begun.payload + f.payload) && Messages(ds, ms[1..])
            else Rest(Text(begun.opcode, begun.payload + f.payload), ds, ms)
  {
    var s := [f] + ds;
    var begun' := Text(begun.opcode, begun.payload + f.payload);
    forall n | 1 <= n <= |s|
      ensures Tail(s[..n]) <==> f.rsv == 0 && f.opcode == CONTINUATION && if f.fin then n == 1 else Tail(ds[..n - 1])
      ensures begun.payload + Payload(s[..n]) == begun'.payload + Payload(ds[..n - 1]) && s[n..] == ds[n - 1..]
    {
      Slices(f, ds, n);
    }
    if f.fin && Rest(begun, s, ms) { assert ds[..0] == [] && ds[0..] == ds; }
    if f.fin && f.rsv == 0 && f.opcode == CONTINUATION { assert s[1..] == ds && Tail(s[..1]) && ds[..0] == []; }
    if !f.fin && f.rsv == 0 && f.opcode == CONTINUATION && Rest(begun', ds, ms) {
      var n :| 1 <= n <= |ds| && Tail(ds[..n])
               && ms[0] == Text(begun'.opcode, begun'.payload + Payload(ds[..n])) && Messages(ds[n..], ms[1..]);
      assert Tail(s[..n + 1]) && s[n + 1..] == ds[n..];
    }
  }

  lemma FirstMessage(f: Frame, ds: seq<Frame>, ms: seq<Text>)
    requires f.opcode < CLOSE
    ensures Messages([f] + ds, ms) <==>
            f.rsv == 0 && (f.opcode == TEXT || f.opcode == BINARY) &&
            if f.fin then ms != [] && ms[0] == Text(f.opcode, f.payload) && Messages(ds, ms[1..])
            else Rest(Text(f.opcode, f.payload), ds, ms)
  {
    var s := [f] + ds;
    var begun := Text(f.opcode, f.payload);
    var good := f.rsv == 0 && (f.opcode == TEXT || f.opcode == BINARY);
    forall n | 1 <= n <= |s|
      ensures IsMessage(s[..n]) <==> good && if f.fin then n == 1 else Tail(ds[..n - 1])
      ensures Payload(s[..n]) == f.payload + Payload(ds[..n - 1]) && s[n..] == ds[n - 1..]
    {
      Slices(f, ds, n);
    }
    if f.fin && good { assert s[1..] == ds && IsMessage(s[..1]) && ds[..0] == []; }
    if !f.fin && good && Rest(begun, ds, ms) {
      var n :| 1 <= n <= |ds| && Tail(ds[..n])
               && ms[0] == Text(begun.opcode, begun.payload + Payload(ds[..n])) && Messages(ds[n..], ms[1..]);
      assert IsMessage(s[..n + 1]) && s[n + 1..] == ds[n..];
    }
  }

  /** A message is open exactly when frag_opcode is text or binary. */
  predicate Good(s: State)
  {
    if s.open then s.opcode == TEXT || s.opcode == BINARY else s.opcode == CONTINUATION
  }

  /** The messages that an event completes, given the payload received so far of an open message,
      and that payload after the event. */
  function Done(begun: seq<Byte>, e: Event): seq<Text>
  {
    match e
    case Whole(opcode, payload) => [Text(opcode, payload)]
    case Piece(opcode, payload, last) => if last then [Text(opcode, begun + payload)] else []
    case _ => []
  }

  function Begun(begun: seq<Byte>, e: Event): seq<Byte>
  {
    if e.Piece? then (if e.last then [] else begun + e.payload) else begun
  }

  /** What the callbacks make of their events. */
  function Collect(begun: seq<Byte>, es: seq<Event>): seq<Text>
    decreases es
  {
    if es == [] then [] else Done(begun, es[0]) + Collect(Begun(begun, es[0]), es[1..])
  }

  /** The data frames ds complete what state s leaves open and make up the messages ms. */
  ghost predicate Completes(s: State, begun: seq<Byte>, ds: seq<Frame>, ms: seq<Text>)
  {
    if s.open then Rest(Text(s.opcode, begun), ds, ms) else begun == [] && Messages(ds, ms)
  }

  predicate GoodControls(fs: seq<Frame>)
  {
    forall f :: f in fs && f.opcode >= CLOSE ==> GoodControl(f)
  }

  /** One frame against the grammar. */
  lemma StepCompletes(s: State, begun: seq<Byte>, f: Frame, ds: seq<Frame>, ms: seq<Text>)
    requires Good(s) && f.opcode < CLOSE && (!s.open ==> begun == [])
    ensures Completes(s, begun, [f] + ds, ms) <==> Left(s, begun, f, ds, ms)
  {
    var (s', r) := Handle(s, f);
    assert ms[0..] == ms;
    if s.open { FirstTail(f, ds, Text(s.opcode, begun), ms); } else { FirstMessage(f, ds, ms); }
    assert [] + f.payload == f.payload;
    if r.Ok? && ms != [] { assert [ms[0]] == ms[..1]; }
  }

  lemma StepControl(s: State, begun: seq<Byte>, f: Frame)
    requires Good(s) && f.opcode >= CLOSE
    ensures var (s', r) := Handle(s, f);
            (r.Ok? <==> GoodControl(f)) && (r.Ok? ==> s' == s && Done(begun, r.event) == []
                                                      && Begun(begun, r.event) == begun)
  {
  }

  /** What is left to complete after a frame was handled. */
  ghost predicate Left(s: State, begun: seq<Byte>, f: Frame, ds: seq<Frame>, ms: seq<Text>)
  {
    var (s', r) := Handle(s, f);
    r.Ok? && Good(s') && Done(begun, r.event) <= ms &&
    Completes(s', Begun(begun, r.event), ds, ms[|Done(begun, r.event)|..])
  }

  lemma ControlLeft(s: State, begun: seq<Byte>, f: Frame, ds: seq<Frame>, ms: seq<Text>)
    requires Good(s) && GoodControl(f)
    ensures Left(s, begun, f, ds, ms) <==> Completes(s, begun, ds, ms)
  {
    StepControl(s, begun, f);
    assert ms[0..] == ms;
  }

  lemma DataFramesCons(fs: seq<Frame>, ext: seq<Frame>)
    requires fs != []
    ensures DataFrames(fs) + ext
            == if fs[0].opcode < CLOSE then [fs[0]] + (DataFrames(fs[1..]) + ext) else DataFrames(fs[1..]) + ext
  {
  }

  lemma FirstFrame(s: State, begun: seq<Byte>, fs: seq<Frame>, ext: seq<Frame>, ms: seq<Text>)
    requires Good(s) && fs != [] && (!s.open ==> begun == [])
    requires fs[0].opcode >= CLOSE ==> GoodControl(fs[0])
    ensures Completes(s, begun, DataFrames(fs) + ext, ms) <==> Left(s, begun, fs[0], DataFrames(fs[1..]) + ext, ms)
  {
    DataFramesCons(fs, ext);
    var ds := DataFrames(fs[1..]) + ext;
    if fs[0].opcode >= CLOSE { ControlLeft(s, begun, fs[0], ds, ms); } else { StepCompletes(s, begun, fs[0], ds, ms); }
  }

  /** Whatever completes the grammar is accepted, and delivered as the messages it is. */
  lemma {:induction false} ConformingAccepted(s: State, begun: seq<Byte>, fs: seq<Frame>, ext: seq<Frame>,
      ms: seq<Text>)
    requires Good(s) && GoodControls(fs) && Completes(s, begun, DataFrames(fs) + ext, ms)
    requires !s.open ==> begun == []
    ensures var r := RunFrames(s, fs);
            r.Accepted? && Good(r.state) && (ext == [] ==> !r.state.open && Collect(begun, r.events) == ms)
    decreases fs
  {
    if fs == [] {
      assert DataFrames(fs) + ext == ext;
    } else {
      var (s', r) := Handle(s, fs[0]);
      assert fs[0] in fs;
      FirstFrame(s, begun, fs, ext, ms);
      var done := Done(begun, r.event);
      assert done + ms[|done|..] == ms;
      ConformingAccepted(s', Begun(begun, r.event), fs[1..], ext, ms[|done|..]);
      CollectCons(begun, r.event, RunFrames(s', fs[1..]));
    }
  }

  lemma CollectCons(begun: seq<Byte>, e: Event, rest: Run)
    requires rest.Accepted?
    ensures Collect(begun, [e] + rest.events) == Done(begun, e) + Collect(Begun(begun, e), rest.events)
  {
    assert ([e] + rest.events)[1..] == rest.events;
  }

  /** Whatever is accepted and leaves no message open is messages, delivered as they are. */
  lemma {:induction false} AcceptedConforms(s: State, begun: seq<Byte>, fs: seq<Frame>)
    requires Good(s) && (!s.open ==> begun == [])
    requires RunFrames(s, fs).Accepted? && !RunFrames(s, fs).state.open
    ensures Completes(s, begun, DataFrames(fs), Collect(begun, RunFrames(s, fs).events))
    decreases fs
  {
    if fs != [] {
      var f, t := fs[0], fs[1..];
      var (s', r) := Handle(s, f);
      GoodAfter(s, f);
      CollectCons(begun, r.event, RunFrames(s', t));
      AcceptedConforms(s', Begun(begun, r.event), t);
      var ms := Collect(begun, RunFrames(s, fs).events);
      var done := Done(begun, r.event);
      assert ms[|done|..] == Collect(Begun(begun, r.event), RunFrames(s', t).events);
      assert DataFrames(fs) + [] == DataFrames(fs) && DataFrames(t) + [] == DataFrames(t);
      if f.opcode >= CLOSE { StepControl(s, begun, f); }
      assert Left(s, begun, f, DataFrames(t), ms);
      FirstFrame(s, begun, fs, [], ms);
    }
  }

  lemma {:induction false} AcceptedControls(s: State, fs: seq<Frame>)
    requires Good(s) && RunFrames(s, fs).Accepted?
    ensures GoodControls(fs)
    decreases fs
  {
    if fs != [] {
      GoodAfter(s, fs[0]);
      if fs[0].opcode >= CLOSE { StepControl(s, [], fs[0]); }
      AcceptedControls(Handle(s, fs[0]).0, fs[1..]);
      assert fs == [fs[0]] + fs[1..];
    }
  }

  lemma GoodAfter(s: State, f: Frame)
    requires Good(s) && Handle(s, f).1.Ok?
    ensures var (s', r) := Handle(s, f);
            Good(s') && forall begun :: (!s.open ==> begun == []) && !s'.open ==> Begun(begun, r.event) == []
  {
  }

  lemma {:induction false} RunSnoc(s: State, fs: seq<Frame>, f: Frame)
    requires RunFrames(s, fs).Accepted?
    ensures RunFrames(s, fs + [f]).Accepted? <==> Handle(RunFrames(s, fs).state, f).1.Ok?
    ensures RunFrames(s, fs + [f]).Accepted? ==> RunFrames(s, fs + [f]).state == Handle(RunFrames(s, fs).state, f).0
    ensures DataFrames(fs + [f]) == DataFrames(fs) + (if f.opcode < CLOSE then [f] else [])
    decreases fs
  {
    if fs == [] {
      assert fs + [f] == [f];
      assert [f][1..] == [];
    } else {
      assert (fs + [f])[1..] == fs[1..] + [f];
      RunSnoc(Handle(s, fs[0]).0, fs[1..], f);
    }
  }

  lemma {:induction false} GoodRun(s: State, fs: seq<Frame>)
    requires Good(s) && RunFrames(s, fs).Accepted?
    ensures Good(RunFrames(s, fs).state)
    decreases fs
  {
    if fs != [] {
      GoodAfter(s, fs[0]);
      GoodRun(Handle(s, fs[0]).0, fs[1..]);
    }
  }

  /** A sequence of frames is accepted exactly when it is a prefix of the message grammar with
      control frames interleaved, and then the state records exactly whether a message is open. */
  lemma AcceptsExactlyConforming(fs: seq<Frame>)
    ensures RunFrames(IDLE, fs).Accepted? <==> Conforming(fs)
    ensures RunFrames(IDLE, fs).Accepted? ==> Good(RunFrames(IDLE, fs).state)
  {
    var r := RunFrames(IDLE, fs);
    if r.Accepted? {
      GoodRun(IDLE, fs);
      AcceptedControls(IDLE, fs);
      if r.state.open {
        var last := Frame(true, 0, CONTINUATION, []);
        RunSnoc(IDLE, fs, last);
        AcceptedConforms(IDLE, [], fs + [last]);
        assert Messages(DataFrames(fs) + [last], Collect([], RunFrames(IDLE, fs + [last]).events));
      } else {
        AcceptedConforms(IDLE, [], fs);
        assert DataFrames(fs) + [] == DataFrames(fs);
      }
    }
    if Conforming(fs) {
      var ext, ms :| Messages(DataFrames(fs) + ext, ms);
      ConformingAccepted(IDLE, [], fs, ext, ms);
    }
  }

  /** Complete messages, however they are fragmented and interleaved with control frames, reach the
      callbacks as the same messages, the last flag exactly at their ends. */
  lemma DeliversMessages(fs: seq<Frame>, ms: seq<Text>)
    requires GoodControls(fs) && Messages(DataFrames(fs), ms)
    ensures var r := RunFrames(IDLE, fs); r.Accepted? && r.state == IDLE && Collect([], r.events) == ms
  {
    assert DataFrames(fs) + [] == DataFrames(fs);
    ConformingAccepted(IDLE, [], fs, [], ms);
  }
}
