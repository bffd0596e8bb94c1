/** send_frame and the ws_get_* callbacks of src/websocket.c, without an extension. */
module WebsocketFrame {
  import opened Words
  import opened WebsocketMask

  datatype Frame = Frame(fin: bool, rsv: Byte, opcode: Byte, payload: seq<Byte>)

  // ---------- Length fields ----------

  /** The low 16 bits of a length in network byte order. */
  function Be16(n: bv64): (s: seq<Byte>)
    ensures |s| == 2
  {
    [Lane64(n, 1), Lane64(n, 0)]
  }

  function Be64(n: bv64): (s: seq<Byte>)
    ensures |s| == 8
  {
    [Lane64(n, 7), Lane64(n, 6), Lane64(n, 5), Lane64(n, 4), Lane64(n, 3), Lane64(n, 2), Lane64(n, 1), Lane64(n, 0)]
  }

  function FromBe16(s: seq<Byte>): bv64
    requires |s| == 2
  {
    (s[1] as bv64) | ((s[0] as bv64) << 8)
  }

  function FromBe64(s: seq<Byte>): bv64
    requires |s| == 8
  {
    Load64([s[7], s[6], s[5], s[4], s[3], s[2], s[1], s[0]])
  }

  lemma Be16Inverse(n: bv64)
    requires n < 65536
    ensures FromBe16(Be16(n)) == n
  {
  }

  lemma FromBe16Small(s: seq<Byte>)
    requires |s| == 2
    ensures FromBe16(s) < 65536
  {
  }

  lemma Be64Inverse(n: bv64)
    ensures FromBe64(Be64(n)) == n
  {
    var s := Be64(n);
    assert [s[7], s[6], s[5], s[4], s[3], s[2], s[1], s[0]]
        == [Lane64(n, 0), Lane64(n, 1), Lane64(n, 2), Lane64(n, 3), Lane64(n, 4), Lane64(n, 5), Lane64(n, 6),
            Lane64(n, 7)];
  }

  /** The seven-bit length and the extended length of a payload of n bytes. */
  function LengthField(n: bv64): (r: (Byte, seq<Byte>))
    ensures r.0 < 0x80
  {
    if n < 126 then (n as Byte, [])
    else if n < 65536 then (126, Be16(n))
    else (127, Be64(n))
  }

  /** The length a receiver reads from the two fields (section 5.2 of RFC 6455). */
  ghost predicate LengthReads(first: Byte, ext: seq<Byte>, n: bv64)
  {
    || (first < 126 && ext == [] && n == first as bv64)
    || (first == 126 && |ext| == 2 && n == FromBe16(ext))
    || (first == 127 && |ext| == 8 && n == FromBe64(ext))
  }

  /** The length is encoded readably and in the minimal number of bytes. */
  lemma LengthIsMinimal(n: bv64)
    ensures LengthReads(LengthField(n).0, LengthField(n).1, n)
    ensures forall first, ext :: LengthReads(first, ext, n) ==> |LengthField(n).1| <= |ext|
  {
    if n < 126 {} else if n < 65536 { Be16Inverse(n); } else { Be64Inverse(n); }
    forall first, ext | LengthReads(first, ext, n) ensures |LengthField(n).1| <= |ext| {
      if |ext| == 2 { FromBe16Small(ext); }
    }
  }

  // ---------- Sending ----------

  /** The second byte of a frame: the mask bit and the seven-bit length. */
  function Second(masked: bool, first: Byte): Byte { if masked then 0x80 | first else first }

  datatype Message = Message(opcode: Byte, key: seq<Byte>, payload: seq<Byte>, length: bv64)

  /** A payload below 2^64 bytes, with its length as a size_t. */
  predicate Sendable(m: Message)
  {
    m.opcode < 16 && |m.key| == 4 && |m.payload| == m.length as nat
  }

  /** The octets of a final frame (section 5.2 of RFC 6455); a client masks with the given key. */
  function FrameBytes(isServer: bool, m: Message): seq<Byte>
    requires |m.key| == 4
  {
    var (first, ext) := LengthField(m.length);
    [0x80 | m.opcode, Second(!isServer, first)] + ext
        + (if isServer then m.payload else m.key + Masked(m.payload, m.key))
  }

  /** send_frame: a client masks its payload buffer in place before handing it over. */
  method SendFrame(isServer: bool, opcode: Byte, key: seq<Byte>, payload: array<Byte>, length: bv64,
                   address: nat, width: nat) returns (wire: seq<Byte>)
    requires |key| == 4 && (width == 4 || width == 8)
    modifies payload
    ensures wire == FrameBytes(isServer, Message(opcode, key, old(payload[..]), length))
    ensures payload[..] == if isServer then old(payload[..]) else Masked(old(payload[..]), key)
  {
    var (firstLen, header) := LengthField(length);
    if !isServer {
      header := header + key;
      UnmaskPayload(payload, address, width, key);
    }
    wire := [0x80 | opcode, Second(!isServer, firstLen)] + header + payload[..];
  }

  // ---------- Receiving ----------

  /** Which ws_get_* callback waits for data. */
  datatype Phase = Header | FirstLength | Length16 | Length64 | MaskKey | Payload | Closed

  datatype Reader = Reader(
    isServer: bool, phase: Phase,
    fin: bool, rsv: Byte, opcode: Byte, masked: bool, length: bv64, mask: seq<Byte>)
  {
    /** The count given to read_exactly. */
    function Wanted(): nat
    {
      match phase
      case Header => 1
      case FirstLength => 1
      case Length16 => 2
      case Length64 => 8
      case MaskKey => 4
      case Payload => length as nat
      case Closed => 0
    }

    ghost predicate Valid() { |mask| == 4 && (phase == Payload ==> length != 0) }
  }

  datatype Outcome = More | Got(frame: Frame) | ProtocolError | GoingAway

  function Start(isServer: bool): Reader
  {
    Reader(isServer, Header, false, 0, 0, false, 0, [0, 0, 0, 0])
  }

  /** read_mask_or_payload. */
  function AfterLength(r: Reader): (Reader, Outcome)
    requires |r.mask| == 4
  {
    if r.masked then (r.(phase := MaskKey), More)
    else if r.length > 0 then (r.(phase := Payload), More)
    else OnPayload(r, [])
  }

  /** ws_get_payload, up to the call of ws_handle_frame. */
  function OnPayload(r: Reader, buf: seq<Byte>): (Reader, Outcome)
    requires |r.mask| == 4
  {
    if buf == [] && r.length != 0 then (r.(phase := Closed), GoingAway)
    else if r.isServer && !r.masked then (r.(phase := Closed), ProtocolError)
    else (r.(phase := Header), Got(Frame(r.fin, r.rsv, r.opcode, if r.masked then Masked(buf, r.mask) else buf)))
  }

  /** One callback with the bytes read_exactly delivers; no bytes mean that the peer closed. */
  function OnData(r: Reader, buf: seq<Byte>): (Reader, Outcome)
    requires r.Valid() && r.phase != Closed && (|buf| == r.Wanted() || buf == [])
  {
    if buf == [] && r.phase != Payload then (r.(phase := Closed), GoingAway)
    else match r.phase
      case Header =>
        (r.(phase := FirstLength, fin := buf[0] & 0x80 == 0x80, rsv := (buf[0] & 0x70) >> 4, opcode := buf[0] & 0x0f),
            More)
      case FirstLength =>
        var field := buf[0] & 0x7f;
        var r1 := r.(masked := buf[0] & 0x80 == 0x80);
        if field < 126 then AfterLength(r1.(length := field as bv64))
        else if field == 126 then (r1.(phase := Length16), More)
        else (r1.(phase := Length64), More)
      case Length16 => AfterLength(r.(length := FromBe16(buf)))
      case Length64 => AfterLength(r.(length := FromBe64(buf)))
      case MaskKey =>
        if r.length > 0 then (r.(mask := buf, phase := Payload), More) else OnPayload(r.(mask := buf), [])
      case Payload => OnPayload(r, buf)
  }

  lemma WantedPositive(r: Reader)
    requires r.Valid() && r.phase != Closed
    ensures r.Wanted() > 0
  {
  }

  /** The frames a reader hands to ws_handle_frame, when every one is answered WS_OK, out of the
      bytes of a stream; it stops when the bytes run out or the connection is closed. */
  function Decode(r: Reader, stream: seq<Byte>): seq<Frame>
    requires r.Valid()
    decreases |stream|, 0
  {
    if r.phase == Closed || |stream| < r.Wanted() then []
    else
      WantedPositive(r);
      Continue(OnData(r, stream[..r.Wanted()]), stream[r.Wanted()..])
  }

  /** What is decoded once a callback has returned. */
  function Continue(p: (Reader, Outcome), rest: seq<Byte>): seq<Frame>
    requires p.0.Valid()
    decreases |rest|, 1
  {
    if p.1.Got? then [p.1.frame] + Decode(p.0, rest) else Decode(p.0, rest)
  }

  function Wire(isServer: bool, ms: seq<Message>): seq<Byte>
    requires forall m :: m in ms ==> Sendable(m)
  {
    if ms == [] then [] else assert Sendable(ms[0]); FrameBytes(isServer, ms[0]) + Wire(isServer, ms[1..])
  }

  function FramesOf(ms: seq<Message>): seq<Frame>
  {
    if ms == [] then [] else [Frame(true, 0, ms[0].opcode, ms[0].payload)] + FramesOf(ms[1..])
  }

  lemma DecodeStep(r: Reader, chunk: seq<Byte>, rest: seq<Byte>)
    requires r.Valid() && r.phase != Closed && |chunk| == r.Wanted()
    ensures OnData(r, chunk).0.Valid()
    ensures Decode(r, chunk + rest) == Continue(OnData(r, chunk), rest)
  {
    assert (chunk + rest)[..r.Wanted()] == chunk && (chunk + rest)[r.Wanted()..] == rest;
  }

  predicate AtHeader(r: Reader, isServer: bool)
  {
    r.phase == Header && |r.mask| == 4 && r.isServer == isServer
  }

  lemma FirstStep(r: Reader, opcode: Byte)
    requires AtHeader(r, r.isServer) && opcode < 16
    ensures OnData(r, [0x80 | opcode]) == (r.(phase := FirstLength, fin := true, rsv := 0, opcode := opcode), More)
  {
    var b := 0x80 | opcode;
    assert b & 0x80 == 0x80 && (b & 0x70) >> 4 == 0 && b & 0x0f == opcode;
  }

  lemma SecondByte(masked: bool, first: Byte)
    requires first < 128
    ensures var b := Second(masked, first); (b & 0x80 == 0x80 <==> masked) && b & 0x7f == first
  {
  }

  lemma SecondStep(s: Reader, masked: bool, first: Byte)
    requires s.phase == FirstLength && s.Valid() && first < 128
    ensures OnData(s, [Second(masked, first)])
            == if first < 126 then AfterLength(s.(masked := masked, length := first as bv64))
               else if first == 126 then (s.(masked := masked, phase := Length16), More)
               else (s.(masked := masked, phase := Length64), More)
  {
    SecondByte(masked, first);
  }

  /** The reader once it knows the length and whether a key follows. */
  function Known(r: Reader, opcode: Byte, masked: bool, n: bv64): Reader
  {
    r.(phase := if n < 126 then FirstLength else if n < 65536 then Length16 else Length64,
       fin := true, rsv := 0, opcode := opcode, masked := masked, length := n)
  }

  /** The two fixed bytes of a frame. */
  lemma FixedDecodes(r: Reader, opcode: Byte, masked: bool, first: Byte, rest: seq<Byte>) returns (p: (Reader, Outcome))
    requires AtHeader(r, r.isServer) && opcode < 16 && first < 128
    ensures var s := r.(phase := FirstLength, fin := true, rsv := 0, opcode := opcode);
            p == if first < 126 then AfterLength(s.(masked := masked, length := first as bv64))
                 else if first == 126 then (s.(masked := masked, phase := Length16), More)
                 else (s.(masked := masked, phase := Length64), More)
    ensures p.0.Valid() && Decode(r, [0x80 | opcode, Second(masked, first)] + rest) == Continue(p, rest)
  {
    var b0, b1 := [0x80 | opcode], [Second(masked, first)];
    assert b0 + (b1 + rest) == [0x80 | opcode, Second(masked, first)] + rest;
    FirstStep(r, opcode);
    var s := OnData(r, b0).0;
    DecodeStep(r, b0, b1 + rest);
    DecodeStep(s, b1, rest);
    SecondStep(s, masked, first);
    p := OnData(s, b1);
  }

  lemma ShortLength(n: bv64)
    requires n < 126
    ensures (n as Byte) as bv64 == n && (n as Byte) < 126
  {
  }

  /** Header and length fields of a frame, however the length is encoded. */
  lemma LengthDecodes(r: Reader, opcode: Byte, masked: bool, n: bv64, rest: seq<Byte>)
    requires AtHeader(r, r.isServer) && opcode < 16
    ensures var (first, ext) := LengthField(n);
            var p := AfterLength(Known(r, opcode, masked, n));
            p.0.Valid() && Decode(r, [0x80 | opcode, Second(masked, first)] + (ext + rest)) == Continue(p, rest)
  {
    hide Decode, FromBe64;
    var (first, ext) := LengthField(n);
    var p := FixedDecodes(r, opcode, masked, first, ext + rest);
    if n < 126 {
      ShortLength(n);
      assert ext + rest == rest;
    } else if n < 65536 {
      Be16Inverse(n);
      DecodeStep(p.0, ext, rest);
    } else {
      Be64Inverse(n);
      DecodeStep(p.0, ext, rest);
    }
  }

  /** Unmasked payload, as a client receives it. */
  lemma PlainDecodes(k: Reader, payload: seq<Byte>, rest: seq<Byte>) returns (r': Reader)
    requires |k.mask| == 4 && !k.isServer && !k.masked && |payload| == k.length as nat
    ensures AtHeader(r', false) && r'.Valid() && AfterLength(k).0.Valid()
    ensures Continue(AfterLength(k), payload + rest) == [Frame(k.fin, k.rsv, k.opcode, payload)] + Decode(r', rest)
  {
    var s := AfterLength(k).0;
    if payload != [] {
      DecodeStep(s, payload, rest);
      r' := OnData(s, payload).0;
    } else {
      assert payload + rest == rest;
      r' := s;
    }
  }

  /** Key and masked payload, as a server receives them. */
  lemma MaskedDecodes(k: Reader, key: seq<Byte>, payload: seq<Byte>, rest: seq<Byte>) returns (r': Reader)
    requires |k.mask| == 4 && k.isServer && k.masked && |payload| == k.length as nat && |key| == 4
    ensures AtHeader(r', true) && r'.Valid() && AfterLength(k).0.Valid()
    ensures Continue(AfterLength(k), key + (Masked(payload, key) + rest))
            == [Frame(k.fin, k.rsv, k.opcode, payload)] + Decode(r', rest)
  {
    hide Decode, Masked;
    var body := Masked(payload, key);
    var s := AfterLength(k).0;
    MaskedTwice(payload, key);
    DecodeStep(s, key, body + rest);
    var t := OnData(s, key).0;
    if payload != [] {
      DecodeStep(t, body, rest);
      r' := OnData(t, body).0;
    } else {
      assert body + rest == rest;
      r' := t;
    }
  }

  lemma Regroup(a: seq<Byte>, b: seq<Byte>, c: seq<Byte>, d: seq<Byte>)
    ensures a + b + c + d == a + (b + (c + d))
  {
  }

  /** A frame sent by one side is handed to ws_handle_frame by the other, exactly as it was. */
  lemma FrameDecodes(r: Reader, m: Message, rest: seq<Byte>) returns (r': Reader)
    requires AtHeader(r, r.isServer) && Sendable(m)
    ensures AtHeader(r', r.isServer) && r'.Valid()
    ensures Decode(r, FrameBytes(!r.isServer, m) + rest) == [Frame(true, 0, m.opcode, m.payload)] + Decode(r', rest)
  {
    var (first, ext) := LengthField(m.length);
    var k := Known(r, m.opcode, r.isServer, m.length);
    var head := [0x80 | m.opcode, Second(r.isServer, first)];
    if r.isServer {
      var body := Masked(m.payload, m.key);
      LengthDecodes(r, m.opcode, true, m.length, m.key + (body + rest));
      r' := MaskedDecodes(k, m.key, m.payload, rest);
      assert m.key + body + rest == m.key + (body + rest);
      Regroup(head, ext, m.key + body, rest);
    } else {
      LengthDecodes(r, m.opcode, false, m.length, m.payload + rest);
      r' := PlainDecodes(k, m.payload, rest);
      Regroup(head, ext, m.payload, rest);
    }
  }

  /** Round trip: the concatenation of everything one side sends decodes, on the other side, to
      the same frames in order. */
  lemma {:induction false} WireDecodes(r: Reader, ms: seq<Message>)
    requires AtHeader(r, r.isServer) && forall m :: m in ms ==> Sendable(m)
    ensures Decode(r, Wire(!r.isServer, ms)) == FramesOf(ms)
    decreases ms
  {
    if ms != [] {
      assert ms[0] in ms;
      var r' := FrameDecodes(r, ms[0], Wire(!r.isServer, ms[1..]));
      WireDecodes(r', ms[1..]);
    }
  }

  // ---------- The callbacks, storing into struct websocket ----------

  class Websocket {
    const isServer: bool
    var phase: Phase
    var fin: bool
    var rsv: Byte
    var opcode: Byte
    var masked: bool
    var length: bv64
    var mask: seq<Byte>

    ghost function R(): Reader
      reads this
    {
      Reader(isServer, phase, fin, rsv, opcode, masked, length, mask)
    }

    constructor (isServer: bool)
      ensures R() == Start(isServer)
    {
      this.isServer := isServer;
      phase, fin, rsv, opcode, masked, length, mask := Header, false, 0, 0, false, 0, [0, 0, 0, 0];
    }

    /** ws_get_header, ws_get_first_length, ws_get_length16, ws_get_length64 and ws_get_mask. */
    method GetControl(buf: seq<Byte>) returns (out: Outcome)
      requires R().Valid() && phase != Closed && phase != Payload && (|buf| == R().Wanted() || buf == [])
      modifies this
      ensures (R(), out) == OnData(old(R()), buf)
    {
      if buf == [] {
        phase := Closed;
        return GoingAway;
      }
      out := More;
      match phase {
        case Header =>
          fin := buf[0] & 0x80 == 0x80;
          rsv := (buf[0] & 0x70) >> 4;
          opcode := buf[0] & 0x0f;
          phase := FirstLength;
        case FirstLength =>
          masked := buf[0] & 0x80 == 0x80;
          var field := buf[0] & 0x7f;
          if field < 126 {
            length := field as bv64;
            out := ReadMaskOrPayload();
          } else if field == 126 {
            phase := Length16;
          } else {
            phase := Length64;
          }
        case Length16 =>
          length := FromBe16(buf);
          out := ReadMaskOrPayload();
        case Length64 =>
          length := FromBe64(buf);
          out := ReadMaskOrPayload();
        case MaskKey =>
          mask := buf;
          if length > 0 {
            phase := Payload;
          } else {
            out := NoPayload();
          }
      }
    }

    method ReadMaskOrPayload() returns (out: Outcome)
      requires |mask| == 4
      modifies this
      ensures (R(), out) == AfterLength(old(R()))
    {
      out := More;
      if masked {
        phase := MaskKey;
      } else if length > 0 {
        phase := Payload;
      } else {
        out := NoPayload();
      }
    }

    /** ws_get_payload(s, NULL, 0), for a frame without payload. */
    method NoPayload() returns (out: Outcome)
      requires |mask| == 4
      modifies this
      ensures (R(), out) == OnPayload(old(R()), [])
    {
      var none := new Byte[0];
      assert none[..] == [];
      out := GetPayload(none, 0, 8);
    }

    /** ws_get_payload: unmasks in place in the read buffer. */
    method GetPayload(buf: array<Byte>, address: nat, width: nat) returns (out: Outcome)
      requires |mask| == 4 && (width == 4 || width == 8)
      modifies this, buf
      ensures (R(), out) == OnPayload(old(R()), old(buf[..]))
    {
      if buf.Length == 0 && length != 0 {
        phase := Closed;
        return GoingAway;
      }
      if isServer && !masked {
        phase := Closed;
        return ProtocolError;
      }
      if masked { UnmaskPayload(buf, address, width, mask); }
      out := Got(Frame(fin, rsv, opcode, buf[..]));
      phase := Header;
    }
  }
}
