/** Lengths and bodies in src/http-parser/http_parser.c: what is read as a length, and that bodies arrive unchanged. */
module HttpBodies {
  import opened Options
  import opened HttpState
  import opened HttpSteps
  import opened HttpRuns

  /** From one configuration the bytes lead to the other one. */
  ghost predicate Leads(c: Config, data: seq<Byte>, d: Config, choose: Choice)
  {
    Running(c) && Running(d) && Fold(c, data, choose) == d
  }

  lemma LeadsOn(c: Config, a: seq<Byte>, d: Config, b: seq<Byte>, e: Config, choose: Choice)
    requires Leads(c, a, d, choose) && Leads(d, b, e, choose)
    ensures Leads(c, a + b, e, choose)
  {
    hide Next;
    FoldSplit(c, a, b, choose);
  }

  lemma LeadsOne(c: Config, ch: Byte, d: Config, choose: Choice)
    requires Running(c) && !d.halted && Next(c, ch, choose) == d
    ensures Leads(c, [ch], d, choose)
  {
    hide Next;
    FoldOne(c, ch, choose);
  }

  const CRLF: seq<Byte> := ['\r', '\n']

  lemma LeadsCrlf(c: Config, d: Config, e: Config, choose: Choice)
    requires Leads(c, ['\r'], d, choose) && Leads(d, ['\n'], e, choose)
    ensures Leads(c, CRLF, e, choose)
  {
    hide Next;
    LeadsOn(c, ['\r'], d, ['\n'], e, choose);
    assert ['\r'] + ['\n'] == CRLF;
  }

  // ---------- Content-Length ----------

  predicate LengthText(s: seq<Byte>)
  {
    s != [] && IsNum(s[0]) && forall i :: 0 < i < |s| ==> IsNum(s[i]) || s[i] == ' '
  }

  /** The number that the digits stand for, whatever blanks are between them. */
  function Decimal(s: seq<Byte>): nat
    requires LengthText(s)
    decreases |s|
  {
    var n := |s| - 1;
    if n == 0 then Digit(s[0]) else if s[n] == ' ' then Decimal(s[..n]) else 10 * Decimal(s[..n]) + Digit(s[n])
  }

  const LARGEST_DECIMAL: nat := 10 * ((ULLONG_MAX - 10) / 10) + 9

  predicate ReadsLength(p: Parser)
  {
    p.state.HeaderValue? && p.headerState.ContentLength?
  }

  /** The value of a first Content-Length header is next; behind a blank line or not. */
  predicate ExpectsLength(p: Parser)
  {
    (p.state.ValueDiscardWs? || p.state.ValueStart?) && p.headerState.ContentLength? && !p.flags.contentLength
  }

  /** The record when the number n has been read. */
  function WithLength(p: Parser, n: nat): Parser
  {
    p.(state := HeaderValue, index := 0, flags := p.flags.(contentLength := true), contentLength := n)
  }

  /** The configuration behind the text of a length. */
  function BehindLength(c: Config, s: seq<Byte>): Config
    requires LengthText(s)
  {
    c.(p := WithLength(c.p, Decimal(s)), nread := c.nread + |s|, looping := |s| > 1, pending := s, used := c.used + |s|)
  }

  lemma FirstDigitAction(p: Parser, ch: Byte)
    requires Valid(p) && ExpectsLength(p) && IsNum(ch)
    ensures Transition(p, false, ch) == Take(WithLength(p, Digit(ch)))
  {
  }

  lemma LengthStarts(c: Config, ch: Byte, choose: Choice)
    requires Running(c) && ExpectsLength(c.p) && IsNum(ch)
    ensures Next(c, ch, choose) == BehindLength(c, [ch])
  {
    hide Transition, Next, IsNum;
    FirstDigitAction(c.p, ch);
    NextIs(c, Take(WithLength(c.p, Digit(ch))), ch, choose);
  }

  lemma NextDigitAction(p: Parser, ch: Byte)
    requires Valid(p) && ReadsLength(p) && (IsNum(ch) || ch == ' ')
    ensures Transition(p, false, ch) == LengthDigit(p, ch)
  {
    hide LengthDigit;
  }

  lemma LengthGoesOn(c: Config, ch: Byte, choose: Choice)
    requires Running(c) && ReadsLength(c.p) && (IsNum(ch) || ch == ' ')
    ensures var d := Next(c, ch, choose);
            if IsNum(ch) && c.p.contentLength > (ULLONG_MAX - 10) / 10 then d.halted
                && d.p.errno == InvalidContentLength
            else
              var n := if ch == ' ' then c.p.contentLength else 10 * c.p.contentLength + Digit(ch);
              d == c.(p := c.p.(contentLength := n), nread := c.nread + 1, looping := true, pending := c.pending + [ch],
                      used := c.used + 1)
  {
    hide Transition, Next, Digit;
    NextDigitAction(c.p, ch);
    NextIs(c, LengthDigit(c.p, ch), ch, choose);
  }

  /** A content length is what its digits stand for, without any wrap-around, and it is refused exactly if it
      is larger than the largest number below 2^64 - 1 that ends in 9. */
  lemma {:induction false} ContentLengthExact(c: Config, s: seq<Byte>, choose: Choice)
    requires Running(c) && ExpectsLength(c.p) && LengthText(s)
    ensures var d := Fold(c, s, choose);
            if Decimal(s) > LARGEST_DECIMAL then d.halted && d.p.errno == InvalidContentLength
            else d == BehindLength(c, s)
    decreases |s|
  {
    hide Next, Digit;
    var n := |s| - 1;
    if n == 0 {
      assert s == [s[0]];
      FoldOne(c, s[0], choose);
      LengthStarts(c, s[0], choose);
    } else {
      ContentLengthExact(c, s[..n], choose);
      assert s[..n] + [s[n]] == s;
      var d := Fold(c, s[..n], choose);
      if !d.halted { LengthGoesOn(d, s[n], choose); }
    }
  }

  // ---------- From the length to the body ----------

  /** A message without a switch of protocols, behind the last value of its headers. */
  predicate OrdinaryMessage(p: Parser)
  {
    !p.flags.upgrade && p.verb != CONNECT && !p.flags.chunked && !p.flags.trailing && !p.flags.skipBody
  }

  /** The configuration at the beginning of the body, or at the end of a message without one. */
  function BehindHeaders(c: Config, p: Parser): Config
  {
    var n := p.contentLength;
    var q := p.(upgrade := false, state := HeadersDone);
    Config(if n == 0 then q.(state := NewMessage(q)) else q.(state := BodyIdentity), 0, false, false,
           c.items + Pieces(Value, c.pending) + [Noted(HeadersComplete)]
               + (if n == 0 then [Noted(MessageComplete)] else []),
           [], false, c.used + 4)
  }

  lemma ValueEndActions(p: Parser, q: Parser)
    requires Valid(p) && ReadsLength(p) && q == p.(state := HeaderAlmostDone)
    ensures Transition(p, false, '\r') == Action(q, false, Deliver(Value), Consume)
    ensures Valid(q) && Transition(q, false, '\n') == Go(q, ValueLws)
  {
    hide ValueChar;
  }

  lemma HeadersEndActions(p: Parser, q: Parser)
    requires Valid(p) && p.state.ValueLws? && p.headerState.ContentLength? && q == p.(state := HeaderFieldStart)
    ensures Transition(p, false, '\r') == Redo(q) && Valid(q) && Transition(q, false, '\r') == Go(q, HeadersAlmostDone)
  {
  }

  lemma BodyBeginsActions(p: Parser, q: Parser)
    requires Valid(p) && p.state.HeadersAlmostDone? && OrdinaryMessage(p) && p.contentLength < ULLONG_MAX
    requires q == p.(state := HeadersDone, upgrade := false)
    ensures Transition(p, false, '\n') == Action(q, false, Notify(HeadersComplete), Again)
    ensures Valid(q) && Transition(q, false, '\n') == if q.contentLength == 0 then Complete(q, Consume)
        else Go(q, BodyIdentity)
  {
    hide NewMessage, MessageNeedsEof;
  }

  lemma ValueCr(c: Config, choose: Choice)
    requires Running(c) && ReadsLength(c.p)
    ensures Leads(c, ['\r'], c.(p := c.p.(state := HeaderAlmostDone), nread := c.nread + 1, looping := false,
                                items := c.items + Pieces(Value, c.pending), pending := [], used := c.used + 1), choose)
  {
    hide Transition, Next;
    var q := c.p.(state := HeaderAlmostDone);
    ValueEndActions(c.p, q);
    NextIs(c, Action(q, false, Deliver(Value), Consume), '\r', choose);
    LeadsOne(c, '\r', After(Counted(c), Action(q, false, Deliver(Value), Consume), '\r', choose), choose);
  }

  lemma ValueLf(c: Config, p: Parser, choose: Choice)
    requires Running(c) && Valid(p) && ReadsLength(p) && c.p == p.(state := HeaderAlmostDone)
    ensures Leads(c, ['\n'], c.(p := p.(state := ValueLws), nread := c.nread + 1, used := c.used + 1), choose)
  {
    hide Transition, Next, Valid;
    ValueEndActions(p, c.p);
    NextIs(c, Go(c.p, ValueLws), '\n', choose);
    LeadsOne(c, '\n', After(Counted(c), Go(c.p, ValueLws), '\n', choose), choose);
  }

  lemma LengthLineEnds(c: Config, choose: Choice)
    requires Running(c) && ReadsLength(c.p)
    ensures Leads(c, CRLF, c.(p := c.p.(state := ValueLws), nread := c.nread + 2, looping := false,
                              items := c.items + Pieces(Value, c.pending), pending := [], used := c.used + 2), choose)
  {
    hide Transition, Next, Valid;
    var d := c.(p := c.p.(state := HeaderAlmostDone), nread := c.nread + 1, looping := false,
                items := c.items + Pieces(Value, c.pending), pending := [], used := c.used + 1);
    ValueCr(c, choose);
    ValueLf(d, c.p, choose);
    LeadsCrlf(c, d, d.(p := c.p.(state := ValueLws), nread := c.nread + 2, used := c.used + 2), choose);
  }

  lemma LastLineBegins(c: Config, choose: Choice)
    requires Running(c) && c.p.state.ValueLws? && c.p.headerState.ContentLength?
    ensures Leads(c, ['\r'], c.(p := c.p.(state := HeadersAlmostDone), nread := c.nread + 1, used := c.used + 1),
        choose)
  {
    hide Transition, Next;
    var q := c.p.(state := HeaderFieldStart);
    HeadersEndActions(c.p, q);
    NextAgain(c, Redo(q), Go(q, HeadersAlmostDone), '\r', choose);
    LeadsOne(c, '\r', c.(p := c.p.(state := HeadersAlmostDone), nread := c.nread + 1, used := c.used + 1), choose);
  }

  lemma LastLineEnds(c: Config, choose: Choice)
    requires Running(c) && c.p.state.HeadersAlmostDone? && OrdinaryMessage(c.p) && c.p.contentLength < ULLONG_MAX
    requires choose(c.items) == 0
    ensures Leads(c, ['\n'], BehindHeaders(c, c.p).(used := c.used + 1), choose)
  {
    hide Transition, Next, NewMessage;
    var q := c.p.(state := HeadersDone, upgrade := false);
    BodyBeginsActions(c.p, q);
    var b := if q.contentLength == 0 then Complete(q, Consume) else Go(q, BodyIdentity);
    NextAgain(c, Action(q, false, Notify(HeadersComplete), Again), b, '\n', choose);
    assert c.pending == [];
    NewMessageIs(q);
    LeadsOne(c, '\n', BehindHeaders(c, c.p).(used := c.used + 1), choose);
  }

  predicate Idle(p: Parser) { p.state.Dead? || p.state.StartReq? || p.state.StartRes? }

  lemma NewMessageIs(p: Parser)
    ensures Idle(p.(state := NewMessage(p)))
  {
  }

  /** The two line ends behind the value of the last header lead to the body. */
  lemma HeadersEnd(c: Config, choose: Choice)
    requires Running(c) && ReadsLength(c.p) && OrdinaryMessage(c.p) && c.p.contentLength < ULLONG_MAX
    requires forall x :: choose(x) == 0
    ensures Leads(c, CRLF + CRLF, BehindHeaders(c, c.p), choose)
  {
    hide Next, Running, OrdinaryMessage;
    var d := c.(p := c.p.(state := ValueLws), nread := c.nread + 2, looping := false,
                items := c.items + Pieces(Value, c.pending), pending := [], used := c.used + 2);
    LengthLineEnds(c, choose);
    var e := d.(p := c.p.(state := HeadersAlmostDone), nread := d.nread + 1, used := d.used + 1);
    LastLineBegins(d, choose);
    SameMessage(c.p, e.p);
    LastLineEnds(e, choose);
    SameBehind(c, e);
    LeadsCrlf(d, e, BehindHeaders(c, c.p), choose);
    LeadsOn(c, CRLF, d, CRLF, BehindHeaders(c, c.p), choose);
  }

  lemma SameMessage(p: Parser, q: Parser)
    requires OrdinaryMessage(p) && q == p.(state := q.state)
    ensures OrdinaryMessage(q)
  {
  }

  lemma SameBehind(c: Config, e: Config)
    requires e.p == c.p.(state := e.p.state) && e.items == c.items + Pieces(Value, c.pending) && e.pending == []
    requires e.used == c.used + 3
    ensures BehindHeaders(e, e.p).(used := e.used + 1) == BehindHeaders(c, c.p)
  {
    assert e.items + Pieces(Value, e.pending) == e.items;
  }

  // ---------- Bodies ----------

  function Shorter(c: Config, ch: Byte): Config
    requires c.p.contentLength > 0
  {
    c.(p := c.p.(contentLength := c.p.contentLength - 1), pending := c.pending + [ch], used := c.used + 1)
  }

  lemma IdentityAction(p: Parser, ch: Byte)
    requires Valid(p) && p.state.BodyIdentity?
    ensures var q := p.(contentLength := p.contentLength - 1);
            Transition(p, false, ch) == if q.contentLength > 0 then Take(q)
                                        else Action(q.(state := MessageDone), true, Deliver(Body), Again)
  {
  }

  lemma MessageDoneAction(p: Parser, ch: Byte)
    requires Valid(p) && p.state.MessageDone?
    ensures Transition(p, false, ch) == Complete(p, if p.upgrade then Exit else Consume)
  {
    hide NewMessage;
  }

  lemma IdentityByte(c: Config, ch: Byte, choose: Choice)
    requires Running(c) && c.p.state.BodyIdentity? && c.p.contentLength > 1
    ensures Next(c, ch, choose) == Shorter(c, ch)
  {
    hide Transition, Next;
    IdentityAction(c.p, ch);
    NextIs(c, Take(Shorter(c, ch).p), ch, choose);
  }

  lemma LastIdentityByte(c: Config, ch: Byte, choose: Choice)
    requires Running(c) && c.p.state.BodyIdentity? && c.p.contentLength == 1
    ensures var d := Next(c, ch, choose);
            d.items == c.items + Pieces(Body, c.pending + [ch]) + [Noted(MessageComplete)] && d.pending == []
                && Idle(d.p)
  {
    hide Transition, Next, NewMessage;
    var q := c.p.(contentLength := 0, state := MessageDone);
    IdentityAction(c.p, ch);
    MessageDoneAction(q, ch);
    NewMessageIs(q);
    NextAgain(c, Action(q, true, Deliver(Body), Again), Complete(q, if q.upgrade then Exit else Consume), ch, choose);
  }

  /** All bytes but the last of a body with a length. */
  lemma {:induction false} IdentityPart(c: Config, data: seq<Byte>, choose: Choice)
    requires Running(c) && c.p.state.BodyIdentity? && |data| < c.p.contentLength
    ensures Fold(c, data, choose)
            == c.(p := c.p.(contentLength := c.p.contentLength - |data|), pending := c.pending + data, used := c.used
                + |data|)
    decreases |data|
  {
    hide Next;
    if data == [] {
      assert c.pending + data == c.pending;
    } else {
      var n := |data| - 1;
      IdentityPart(c, data[..n], choose);
      assert (c.pending + data[..n]) + [data[n]] == c.pending + data;
      IdentityByte(Fold(c, data[..n], choose), data[n], choose);
    }
  }

  /** A body with a length: its bytes are given unchanged, and the message ends with the last of them. */
  lemma IdentityBody(c: Config, data: seq<Byte>, choose: Choice)
    requires Running(c) && c.p.state.BodyIdentity? && |data| == c.p.contentLength
    ensures var d := Fold(c, data, choose);
            d.items == c.items + Pieces(Body, c.pending + data) + [Noted(MessageComplete)] && d.pending == []
                && Idle(d.p)
  {
    hide Next, Idle;
    var n := |data| - 1;
    IdentityPart(c, data[..n], choose);
    assert (c.pending + data[..n]) + [data[n]] == c.pending + data;
    LastIdentityByte(Fold(c, data[..n], choose), data[n], choose);
  }

  /** From the value of a Content-Length header to the end of the message: the number that its digits stand
      for is the number of bytes that are given as the body, unchanged, before the message ends. */
  lemma LengthedMessage(c: Config, s: seq<Byte>, data: seq<Byte>, choose: Choice)
    requires Running(c) && ExpectsLength(c.p) && OrdinaryMessage(c.p) && forall x :: choose(x) == 0
    requires LengthText(s) && |data| == Decimal(s) <= LARGEST_DECIMAL
    ensures var d := Fold(c, s + (CRLF + CRLF) + data, choose);
            d.items == c.items + Pieces(Value, s) + [Noted(HeadersComplete)] + Pieces(Body, data)
                + [Noted(MessageComplete)]
            && d.pending == [] && Idle(d.p)
  {
    hide Next, LengthText, Decimal, Idle;
    var d := BehindLength(c, s);
    ContentLengthExact(c, s, choose);
    HeadersEnd(d, choose);
    var e := BehindHeaders(d, d.p);
    LeadsOn(c, s, d, CRLF + CRLF, e, choose);
    FoldSplit(c, s + (CRLF + CRLF), data, choose);
    BodyFollows(d, d.p, data, choose);
    assert c.items + Pieces(Value, s) + [Noted(HeadersComplete)] == d.items + Pieces(Value, d.pending)
        + [Noted(HeadersComplete)];
  }

  lemma BodyFollows(c: Config, p: Parser, data: seq<Byte>, choose: Choice)
    requires Running(BehindHeaders(c, p)) && |data| == p.contentLength < ULLONG_MAX
    ensures var d := Fold(BehindHeaders(c, p), data, choose);
            d.items == c.items + Pieces(Value, c.pending) + [Noted(HeadersComplete)] + Pieces(Body, data)
                + [Noted(MessageComplete)]
            && d.pending == [] && Idle(d.p)
  {
    hide Next, NewMessage, Running, Idle;
    var e := BehindHeaders(c, p);
    var given := c.items + Pieces(Value, c.pending) + [Noted(HeadersComplete)];
    if data == [] {
      FoldNone(e, choose);
      NewMessageIs(p.(upgrade := false, state := HeadersDone));
      assert given + Pieces(Body, data) == given;
    } else {
      hide Fold;
      IdentityBody(e, data, choose);
      assert e.pending + data == data && given + [] == given;
    }
  }

  // ---------- Chunk sizes ----------

  predicate HexText(s: seq<Byte>)
  {
    s != [] && forall i :: 0 <= i < |s| ==> Unhex(s[i]).Some?
  }

  function Hex(s: seq<Byte>): nat
    requires HexText(s)
    decreases |s|
  {
    var n := |s| - 1;
    if n == 0 then Unhex(s[0]).value else 16 * Hex(s[..n]) + Unhex(s[n]).value
  }

  const LARGEST_HEX: nat := 16 * ((ULLONG_MAX - 16) / 16) + 15

  /** The configuration behind the text of a chunk size. */
  function BehindSize(c: Config, k: nat, n: nat): Config
  {
    c.(p := c.p.(state := ChunkSize, contentLength := n), nread := c.nread + k, used := c.used + k)
  }

  lemma SizeActions(p: Parser, ch: Byte)
    requires Valid(p) && Unhex(ch).Some?
    ensures p.state.ChunkSizeStart? ==> Transition(p, false, ch) == Go(p.(contentLength := Unhex(ch).value), ChunkSize)
    ensures p.state.ChunkSize? ==>
              Transition(p, false, ch)
              == if p.contentLength > (ULLONG_MAX - 16) / 16 then Fail(p, InvalidContentLength)
                 else Go(p.(contentLength := 16 * p.contentLength + Unhex(ch).value), ChunkSize)
  {
  }

  lemma SizeStarts(c: Config, ch: Byte, choose: Choice)
    requires Running(c) && c.p.state.ChunkSizeStart? && Unhex(ch).Some?
    ensures Next(c, ch, choose) == BehindSize(c, 1, Unhex(ch).value)
  {
    hide Transition, Next, Unhex;
    SizeActions(c.p, ch);
    NextIs(c, Go(c.p.(contentLength := Unhex(ch).value), ChunkSize), ch, choose);
  }

  lemma SizeGoesOn(c: Config, ch: Byte, choose: Choice)
    requires Running(c) && c.p.state.ChunkSize? && Unhex(ch).Some?
    ensures var d := Next(c, ch, choose);
            if c.p.contentLength > (ULLONG_MAX - 16) / 16 then d.halted && d.p.errno == InvalidContentLength
            else d == BehindSize(c, 1, 16 * c.p.contentLength + Unhex(ch).value)
  {
    hide Transition, Next, Unhex;
    SizeActions(c.p, ch);
    NextIs(c, Transition(c.p, false, ch), ch, choose);
  }

  lemma UnhexSmall(ch: Byte)
    ensures Unhex(ch).Some? ==> Unhex(ch).value < 16
  {
  }

  /** The same for the size of a chunk. */
  lemma {:induction false} ChunkSizeExact(c: Config, s: seq<Byte>, choose: Choice)
    requires Running(c) && c.p.state.ChunkSizeStart? && HexText(s)
    ensures var d := Fold(c, s, choose);
            if Hex(s) > LARGEST_HEX then d.halted && d.p.errno == InvalidContentLength
            else d == BehindSize(c, |s|, Hex(s))
    decreases |s|
  {
    hide Next, Unhex, Valid;
    var n := |s| - 1;
    UnhexSmall(s[n]);
    if n == 0 {
      assert s == [s[0]];
      FoldOne(c, s[0], choose);
      SizeStarts(c, s[0], choose);
    } else {
      ChunkSizeExact(c, s[..n], choose);
      var d := Fold(c, s[..n], choose);
      if !d.halted { SizeGoesOn(d, s[n], choose); }
    }
  }

  // ---------- Chunks ----------

  function ShorterChunk(c: Config, ch: Byte): Config
    requires c.p.contentLength > 0
  {
    Shorter(c.(p := c.p.(state := if c.p.contentLength == 1 then ChunkDataAlmostDone else ChunkData)), ch)
  }

  lemma ChunkDataAction(p: Parser, ch: Byte)
    requires Valid(p) && p.state.ChunkData?
    ensures Transition(p, false, ch)
            == Take(p.(contentLength := p.contentLength - 1,
                       state := if p.contentLength == 1 then ChunkDataAlmostDone else ChunkData))
  {
  }

  lemma ChunkByte(c: Config, ch: Byte, choose: Choice)
    requires Running(c) && c.p.state.ChunkData?
    ensures Next(c, ch, choose) == ShorterChunk(c, ch)
  {
    hide Transition, Next;
    ChunkDataAction(c.p, ch);
    NextIs(c, Take(ShorterChunk(c, ch).p), ch, choose);
  }

  /** Some bytes of a chunk. */
  function InChunk(c: Config, data: seq<Byte>): Config
    requires |data| <= c.p.contentLength
  {
    c.(p := c.p.(contentLength := c.p.contentLength - |data|,
                 state := if c.p.contentLength == |data| then ChunkDataAlmostDone else ChunkData),
       pending := c.pending + data, used := c.used + |data|)
  }

  lemma InChunkNext(c: Config, data: seq<Byte>, ch: Byte)
    requires Running(c) && c.p.state.ChunkData? && |data| < c.p.contentLength
    ensures var d := InChunk(c, data);
            Running(d) && d.p.state.ChunkData? && ShorterChunk(d, ch) == InChunk(c, data + [ch])
  {
    assert (c.pending + data) + [ch] == c.pending + (data + [ch]);
  }

  lemma {:induction false} ChunkBytes(c: Config, data: seq<Byte>, choose: Choice)
    requires Running(c) && c.p.state.ChunkData? && |data| <= c.p.contentLength
    ensures Fold(c, data, choose) == InChunk(c, data)
    decreases |data|
  {
    hide Next;
    if data == [] {
      assert c.pending + data == c.pending;
    } else {
      var n := |data| - 1;
      var d := InChunk(c, data[..n]);
      ChunkBytes(c, data[..n], choose);
      InChunkNext(c, data[..n], data[n]);
      assert data[..n] + [data[n]] == data;
      ChunkByte(d, data[n], choose);
      assert Fold(c, data, choose) == Next(d, data[n], choose);
    }
  }

  /** The end of the line with the size of a chunk. */
  function SizeLine(c: Config): Config
  {
    var n := c.p.contentLength;
    c.(p := if n == 0 then c.p.(flags := c.p.flags.(trailing := true), state := HeaderFieldStart)
            else c.p.(state := ChunkData),
       nread := 0, items := c.items + [Noted(ChunkHeader(n))], used := c.used + 2)
  }

  /** What may stand behind the size of a chunk: nothing, or anything from a semicolon or a blank on. */
  predicate Extension(e: seq<Byte>)
  {
    e == [] || ((e[0] == ';' || e[0] == ' ') && forall i :: 0 <= i < |e| ==> e[i] != '\r')
  }

  function BehindExtension(c: Config, e: seq<Byte>): Config
  {
    c.(p := if e == [] then c.p else c.p.(state := ChunkParameters), nread := c.nread + |e|, used := c.used + |e|)
  }

  lemma ExtensionAction(p: Parser, ch: Byte)
    requires Valid(p) && ch != '\r'
    requires (p.state.ChunkSize? && (ch == ';' || ch == ' ')) || p.state.ChunkParameters?
    ensures Transition(p, false, ch) == Go(p, ChunkParameters)
  {
  }

  lemma {:induction false} ExtensionRun(c: Config, e: seq<Byte>, choose: Choice)
    requires Running(c) && c.p.state.ChunkSize? && Extension(e)
    ensures Leads(c, e, BehindExtension(c, e), choose)
    decreases |e|
  {
    hide Next, Transition, KindOf;
    if e == [] {
      FoldNone(c, choose);
    } else {
      var n := |e| - 1;
      ExtensionRun(c, e[..n], choose);
      var d := BehindExtension(c, e[..n]);
      ExtensionAction(d.p, e[n]);
      NextIs(d, Go(d.p, ChunkParameters), e[n], choose);
      LeadsOne(d, e[n], BehindExtension(c, e), choose);
      LeadsOn(c, e[..n], d, [e[n]], BehindExtension(c, e), choose);
      assert e[..n] + [e[n]] == e;
    }
  }

  lemma SizeCrAction(p: Parser)
    requires Valid(p) && (p.state.ChunkSize? || p.state.ChunkParameters?)
    ensures Transition(p, false, '\r') == Go(p, ChunkSizeAlmostDone)
  {
    assert Unhex('\r').None?;
    hide Unhex;
  }

  lemma SizeLfAction(p: Parser)
    requires Valid(p) && p.state.ChunkSizeAlmostDone?
    ensures var n := p.contentLength;
            Transition(p, false, '\n')
            == Action(if n == 0 then p.(flags := p.flags.(trailing := true), state := HeaderFieldStart)
                      else p.(state := ChunkData), false, Notify(ChunkHeader(n)), Consume)
  {
    hide Unhex;
  }

  lemma SizeLineEnds(c: Config, choose: Choice)
    requires Running(c) && (c.p.state.ChunkSize? || c.p.state.ChunkParameters?)
    ensures Leads(c, CRLF, SizeLine(c), choose)
  {
    hide Transition, Next;
    var q := c.p.(state := ChunkSizeAlmostDone);
    SizeCrAction(c.p);
    SizeLfAction(q);
    var d := c.(p := q, nread := c.nread + 1, used := c.used + 1);
    NextIs(c, Go(c.p, ChunkSizeAlmostDone), '\r', choose);
    LeadsOne(c, '\r', d, choose);
    NextIs(d, Transition(q, false, '\n'), '\n', choose);
    LeadsOne(d, '\n', SizeLine(c), choose);
    LeadsCrlf(c, d, SizeLine(c), choose);
  }

  function ChunkDone(c: Config): Config
  {
    c.(p := c.p.(state := ChunkSizeStart), nread := 0, pending := [],
       items := c.items + Pieces(Body, c.pending) + [Noted(ChunkComplete)], used := c.used + 2)
  }

  lemma ChunkEndActions(p: Parser, q: Parser)
    requires Valid(p) && p.state.ChunkDataAlmostDone? && q == p.(state := ChunkDataDone)
    ensures Transition(p, false, '\r') == Action(q, false, Deliver(Body), Consume)
    ensures Valid(q) && Transition(q, false, '\n') == Action(q.(state := ChunkSizeStart), false,
        Notify(ChunkComplete), Consume)
  {
  }

  lemma ChunkEnds(c: Config, choose: Choice)
    requires Running(c) && c.p.state.ChunkDataAlmostDone?
    ensures Leads(c, CRLF, ChunkDone(c), choose)
  {
    hide Transition, Next;
    var q := c.p.(state := ChunkDataDone);
    ChunkEndActions(c.p, q);
    var d := c.(p := q, pending := [], items := c.items + Pieces(Body, c.pending), used := c.used + 1);
    NextIs(c, Action(q, false, Deliver(Body), Consume), '\r', choose);
    LeadsOne(c, '\r', d, choose);
    NextIs(d, Action(q.(state := ChunkSizeStart), false, Notify(ChunkComplete), Consume), '\n', choose);
    LeadsOne(d, '\n', ChunkDone(c), choose);
    LeadsCrlf(c, d, ChunkDone(c), choose);
  }

  /** One piece of a body, a text of its size, and its extensions. */
  datatype Chunk = Chunk(size: seq<Byte>, extension: seq<Byte>, data: seq<Byte>)

  predicate GoodChunk(x: Chunk)
  {
    HexText(x.size) && Hex(x.size) == |x.data| && 0 < |x.data| <= LARGEST_HEX && Extension(x.extension)
  }

  function SizeText(x: Chunk): seq<Byte> { x.size + x.extension + CRLF }

  function ChunkText(x: Chunk): seq<Byte> { SizeText(x) + x.data + CRLF }

  function ChunkItems(x: Chunk): seq<Item>
  {
    [Noted(ChunkHeader(|x.data|))] + Pieces(Body, x.data) + [Noted(ChunkComplete)]
  }

  /** Where a number of chunks leads. */
  function Behind(c: Config, text: seq<Byte>, items: seq<Item>): Config
  {
    c.(p := c.p.(contentLength := 0), nread := 0, items := c.items + items, used := c.used + |text|)
  }

  /** The line with the size of a chunk. */
  lemma SizeLineRead(c: Config, size: seq<Byte>, extension: seq<Byte>, choose: Choice)
    requires Running(c) && c.p.state.ChunkSizeStart? && Extension(extension)
    requires HexText(size) && Hex(size) <= LARGEST_HEX
    ensures var d := SizeLine(c.(p := c.p.(contentLength := Hex(size))));
            Leads(c, size + extension + CRLF, d.(used := c.used + |size + extension + CRLF|), choose)
  {
    hide Next, Hex, HexText, Fold, Extension;
    var c1 := BehindSize(c, |size|, Hex(size));
    ChunkSizeExact(c, size, choose);
    assert Leads(c, size, c1, choose);
    ExtensionRun(c1, extension, choose);
    var c2 := BehindExtension(c1, extension);
    LeadsOn(c, size, c1, extension, c2, choose);
    SizeLineEnds(c2, choose);
    LeadsOn(c, size + extension, c2, CRLF, SizeLine(c2), choose);
  }

  /** The configuration in front of the line end behind the data of a chunk. */
  function ChunkRead(c: Config, x: Chunk): Config
  {
    c.(p := c.p.(contentLength := 0, state := ChunkDataAlmostDone), nread := 0, pending := x.data,
       items := c.items + [Noted(ChunkHeader(|x.data|))], used := c.used + |SizeText(x)| + |x.data|)
  }

  lemma ChunkBegins(c: Config, x: Chunk, choose: Choice)
    requires Running(c) && c.p.state.ChunkSizeStart? && GoodChunk(x) && c.pending == []
    ensures Leads(c, SizeText(x) + x.data, ChunkRead(c, x), choose)
  {
    hide Next, Hex, HexText, Fold, Extension;
    SizeLineRead(c, x.size, x.extension, choose);
    var c2 := SizeLine(c.(p := c.p.(contentLength := |x.data|))).(used := c.used + |SizeText(x)|);
    ChunkBytes(c2, x.data, choose);
    assert c2.pending + x.data == x.data;
    assert Leads(c2, x.data, InChunk(c2, x.data), choose);
    LeadsOn(c, SizeText(x), c2, x.data, InChunk(c2, x.data), choose);
  }

  lemma OneChunk(c: Config, x: Chunk, choose: Choice)
    requires Running(c) && c.p.state.ChunkSizeStart? && GoodChunk(x)
    ensures Leads(c, ChunkText(x), Behind(c, ChunkText(x), ChunkItems(x)), choose)
  {
    hide Next, SizeText;
    var c3 := ChunkRead(c, x);
    ChunkBegins(c, x, choose);
    ChunkEnds(c3, choose);
    LeadsOn(c, SizeText(x) + x.data, c3, CRLF, ChunkDone(c3), choose);
    ChunkAdds(c.items, x);
  }

  lemma ChunkAdds(items: seq<Item>, x: Chunk)
    ensures items + [Noted(ChunkHeader(|x.data|))] + Pieces(Body, x.data) + [Noted(ChunkComplete)] == items
        + ChunkItems(x)
  {
  }

  function AllChunks(xs: seq<Chunk>): seq<Byte>
  {
    if xs == [] then [] else AllChunks(xs[..|xs| - 1]) + ChunkText(xs[|xs| - 1])
  }

  function AllItems(xs: seq<Chunk>): seq<Item>
  {
    if xs == [] then [] else AllItems(xs[..|xs| - 1]) + ChunkItems(xs[|xs| - 1])
  }

  predicate GoodChunks(xs: seq<Chunk>)
  {
    forall i :: 0 <= i < |xs| ==> GoodChunk(xs[i])
  }

  lemma {:induction false} ManyChunks(c: Config, xs: seq<Chunk>, choose: Choice)
    requires Running(c) && c.p.state.ChunkSizeStart? && GoodChunks(xs) && xs != []
    ensures Leads(c, AllChunks(xs), Behind(c, AllChunks(xs), AllItems(xs)), choose)
    decreases |xs|
  {
    hide Next;
    var n := |xs| - 1;
    if n == 0 {
      assert AllChunks(xs) == ChunkText(xs[0]) && AllItems(xs) == ChunkItems(xs[0]);
      OneChunk(c, xs[0], choose);
    } else {
      ManyChunks(c, xs[..n], choose);
      OneMoreChunk(c, AllChunks(xs[..n]), AllItems(xs[..n]), xs[n], choose);
    }
  }

  lemma OneMoreChunk(c: Config, text: seq<Byte>, items: seq<Item>, x: Chunk, choose: Choice)
    requires c.p.state.ChunkSizeStart? && GoodChunk(x) && Leads(c, text, Behind(c, text, items), choose)
    ensures Leads(c, text + ChunkText(x), Behind(c, text + ChunkText(x), items + ChunkItems(x)), choose)
  {
    hide Next;
    var d := Behind(c, text, items);
    OneChunk(d, x, choose);
    assert (c.items + items) + ChunkItems(x) == c.items + (items + ChunkItems(x));
    LeadsOn(c, text, d, ChunkText(x), Behind(d, ChunkText(x), ChunkItems(x)), choose);
  }
}
