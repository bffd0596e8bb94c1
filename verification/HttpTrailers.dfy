/** Chunked bodies with their trailers, as http_parser_execute, src/http-parser/http_parser.c, reads them. */
module HttpTrailers {
  import opened HttpState
  import opened HttpSteps
  import opened HttpRuns
  import opened HttpBodies
  import opened HttpBulk

  // ---------- Header lines ----------

  /** A header that means nothing to the parser, with the blanks in front of its value. */
  datatype Line = Line(name: seq<Byte>, blanks: seq<Byte>, value: seq<Byte>)

  predicate Blanks(s: seq<Byte>) { forall i :: 0 <= i < |s| ==> s[i] == ' ' || s[i] == '\t' }

  predicate GoodName(s: seq<Byte>)
  {
    s != [] && (forall i :: 0 <= i < |s| ==> IsToken(s[i])) && OtherLetter(s[0])
  }

  /** No header that the parser looks for begins with that letter. */
  predicate OtherLetter(ch: Byte)
    requires IsToken(ch)
  {
    TokenOf(ch) != 'c' && TokenOf(ch) != 'p' && TokenOf(ch) != 't' && TokenOf(ch) != 'u'
  }

  predicate GoodValue(s: seq<Byte>)
  {
    s != [] && !Blanks(s[..1]) && (forall i :: 0 <= i < |s| ==> !LineEnd(s[i]))
    && forall i :: 0 <= i < |s| ==> IsHeaderChar(s[i])
  }

  predicate GoodLine(x: Line) { GoodName(x.name) && Blanks(x.blanks) && GoodValue(x.value) }

  function LineText(x: Line): seq<Byte> { x.name + [':'] + x.blanks + x.value + CRLF }

  function LineItems(x: Line): seq<Item> { Pieces(Field, x.name) + Pieces(Value, x.value) }

  /** A configuration in which a header line or the end of the headers may follow. */
  predicate AtLine(c: Config)
  {
    Running(c) && (c.p.state.HeaderFieldStart? || (c.p.state.ValueLws? && c.p.headerState.General?)) && c.pending == []
  }

  /** The record within such a line. */
  function InLine(p: Parser, s: State): Parser { p.(state := s, headerState := General, index := 0) }

  /** Behind some bytes of its name. */
  function Named(c: Config, s: seq<Byte>): Config
  {
    c.(p := InLine(c.p, HeaderField), nread := c.nread + |s|, looping := |s| > 1, skipping := false, pending := s,
       used := c.used + |s|)
  }

  lemma NameStartActions(p: Parser, ch: Byte)
    requires Valid(p) && IsToken(ch) && OtherLetter(ch)
    ensures p.state.ValueLws? && p.headerState.General? ==>
              Transition(p, false, ch) == Redo(p.(state := HeaderFieldStart))
    ensures Valid(p.(state := HeaderFieldStart))
    ensures p.state.HeaderFieldStart? ==> Transition(p, false, ch) == Take(InLine(p, HeaderField))
  {
    hide TokenOf;
  }

  lemma NameStarts(c: Config, ch: Byte, choose: Choice)
    requires AtLine(c) && IsToken(ch) && OtherLetter(ch)
    ensures Next(c, ch, choose) == Named(c, [ch])
  {
    hide Transition, Next, IsToken, OtherLetter, Valid;
    NameStartActions(c.p, ch);
    var q := c.p.(state := HeaderFieldStart);
    NameStartActions(q, ch);
    if c.p.state.HeaderFieldStart? {
      NextIs(c, Take(InLine(c.p, HeaderField)), ch, choose);
    } else {
      NextAgain(c, Redo(q), Take(InLine(q, HeaderField)), ch, choose);
    }
  }

  lemma {:induction false} NameRun(c: Config, s: seq<Byte>, choose: Choice)
    requires AtLine(c) && GoodName(s)
    ensures Leads(c, s, Named(c, s), choose)
    decreases |s|
  {
    hide Next, IsToken, OtherLetter, TokenOf;
    var n := |s| - 1;
    if n == 0 {
      assert s == [s[0]];
      NameStarts(c, s[0], choose);
      LeadsOne(c, s[0], Named(c, s), choose);
    } else {
      NameRun(c, s[..n], choose);
      var d := Named(c, s[..n]);
      NameNext(d, s[n], choose);
      assert s[..n] + [s[n]] == s;
      LeadsOne(d, s[n], Named(c, s), choose);
      LeadsOn(c, s[..n], d, [s[n]], Named(c, s), choose);
    }
  }

  /** Behind the name and a number of blanks. */
  function Blanked(c: Config, name: seq<Byte>, k: nat): Config
  {
    c.(p := InLine(c.p, ValueDiscardWs), nread := c.nread + |name| + 1 + k, looping := false, skipping := false,
       items := c.items + Pieces(Field, name), pending := [], used := c.used + |name| + 1 + k)
  }

  lemma ColonAction(p: Parser)
    requires Valid(p) && p.state.HeaderField?
    ensures Transition(p, false, ':') == Action(p.(state := ValueDiscardWs), false, HttpSteps.Deliver(Field), Consume)
  {
    assert !IsToken(':');
  }

  lemma BlankAction(p: Parser, ch: Byte)
    requires Valid(p) && p.state.ValueDiscardWs? && (ch == ' ' || ch == '\t')
    ensures Transition(p, false, ch) == Go(p, ValueDiscardWs)
  {
  }

  lemma ColonRead(c: Config, s: seq<Byte>, choose: Choice)
    requires AtLine(c) && GoodName(s)
    ensures Leads(c, s + [':'], Blanked(c, s, 0), choose)
  {
    hide Next, Transition, GoodName;
    NameRun(c, s, choose);
    var d := Named(c, s);
    ColonAction(d.p);
    NextIs(d, Action(d.p.(state := ValueDiscardWs), false, HttpSteps.Deliver(Field), Consume), ':', choose);
    LeadsOne(d, ':', Blanked(c, s, 0), choose);
    LeadsOn(c, s, d, [':'], Blanked(c, s, 0), choose);
  }

  lemma {:induction false} BlanksRead(c: Config, name: seq<Byte>, s: seq<Byte>, choose: Choice)
    requires AtLine(c) && GoodName(name) && Blanks(s)
    ensures Leads(c, name + [':'] + s, Blanked(c, name, |s|), choose)
    decreases |s|
  {
    hide Next, Transition, GoodName;
    if s == [] {
      ColonRead(c, name, choose);
      assert name + [':'] + s == name + [':'];
    } else {
      var n := |s| - 1;
      BlanksRead(c, name, s[..n], choose);
      var d := Blanked(c, name, n);
      BlankAction(d.p, s[n]);
      NextIs(d, Go(d.p, ValueDiscardWs), s[n], choose);
      LeadsOne(d, s[n], Blanked(c, name, |s|), choose);
      LeadsOn(c, name + [':'] + s[..n], d, [s[n]], Blanked(c, name, |s|), choose);
      assert name + [':'] + s[..n] + [s[n]] == name + [':'] + s;
    }
  }

  /** Behind some bytes of the value. */
  function Valued(d: Config, s: seq<Byte>): Config
  {
    d.(p := InLine(d.p, HeaderValue), nread := d.nread + |s|, looping := |s| > 1, skipping := |s| > 1, pending := s,
       used := d.used + |s|)
  }

  lemma ValueStartAction(p: Parser, ch: Byte)
    requires Valid(p) && p.state.ValueDiscardWs? && p.headerState.General? && ch != ' ' && ch != '\t' && !LineEnd(ch)
    ensures Transition(p, false, ch) == Take(InLine(p, HeaderValue))
  {
    hide Lower;
  }

  lemma ValueStarts(d: Config, ch: Byte, choose: Choice)
    requires Running(d) && d.p.state.ValueDiscardWs? && d.p.headerState.General? && d.pending == [] && !d.skipping
    requires ch != ' ' && ch != '\t' && !LineEnd(ch)
    ensures Next(d, ch, choose) == Valued(d, [ch])
  {
    hide Next, Transition, Valid, LineEnd;
    ValueStartAction(d.p, ch);
    NextIs(d, Take(InLine(d.p, HeaderValue)), ch, choose);
  }

  lemma ValueRun(d: Config, s: seq<Byte>, choose: Choice)
    requires Running(d) && d.p == InLine(d.p, ValueDiscardWs) && d.pending == [] && !d.skipping && !d.looping
    requires GoodValue(s)
    ensures Leads(d, s, Valued(d, s), choose)
  {
    hide Next, LineEnd, IsHeaderChar, Valid;
    assert s == s[..1] + s[1..] && s[..1] == [s[0]];
    ValueStarts(d, s[0], choose);
    var e := Valued(d, [s[0]]);
    LeadsOne(d, s[0], e, choose);
    if |s| > 1 {
      assert forall k :: 0 <= k < |s[1..]| ==> s[1..][k] == s[k + 1];
      SkipRun(e, s[1..], choose);
      assert Looped(e, e.p, s[1..], true) == Valued(d, s);
      LeadsOn(d, [s[0]], e, s[1..], Valued(d, s), choose);
    }
  }

  /** Behind a whole line. */
  function BehindLine(c: Config, x: Line): Config
  {
    c.(p := InLine(c.p, ValueLws), nread := c.nread + |LineText(x)|, looping := false, skipping := false,
       items := c.items + LineItems(x), used := c.used + |LineText(x)|)
  }

  lemma LineLfAction(p: Parser)
    requires Valid(p) && p.state.HeaderAlmostDone?
    ensures Transition(p, false, '\n') == Go(p, ValueLws)
  {
  }

  /** The line end behind a value. */
  lemma ValueLineEnds(e: Config, choose: Choice)
    requires Running(e) && e.p.state.HeaderValue?
    ensures Leads(e, CRLF, e.(p := e.p.(state := ValueLws), nread := e.nread + 2, looping := false, skipping := false,
                              items := e.items + Pieces(Value, e.pending), pending := [], used := e.used + 2), choose)
  {
    hide Next, Transition, After;
    var f := ValueGiven(Counted(e), '\r');
    ValueEnds(Counted(e), '\r', choose);
    NextIs(e, EndAction(e.p, '\r'), '\r', choose);
    LeadsOne(e, '\r', f, choose);
    LfEnds(f, choose);
    LeadsCrlf(e, f, f.(p := f.p.(state := ValueLws), nread := f.nread + 1, used := f.used + 1), choose);
  }

  lemma LfEnds(f: Config, choose: Choice)
    requires Running(f) && f.p.state.HeaderAlmostDone? && !f.looping && !f.skipping
    ensures Leads(f, ['\n'], f.(p := f.p.(state := ValueLws), nread := f.nread + 1, used := f.used + 1), choose)
  {
    hide Next, Transition;
    LineLfAction(f.p);
    NextIs(f, Go(f.p, ValueLws), '\n', choose);
    LeadsOne(f, '\n', f.(p := f.p.(state := ValueLws), nread := f.nread + 1, used := f.used + 1), choose);
  }

  lemma LineRead(c: Config, x: Line, choose: Choice)
    requires AtLine(c) && GoodLine(x)
    ensures Leads(c, LineText(x), BehindLine(c, x), choose) && AtLine(BehindLine(c, x))
  {
    hide Next, GoodName, GoodValue, Blanks;
    BlanksRead(c, x.name, x.blanks, choose);
    var d := Blanked(c, x.name, |x.blanks|);
    ValueRun(d, x.value, choose);
    var e := Valued(d, x.value);
    LeadsOn(c, x.name + [':'] + x.blanks, d, x.value, e, choose);
    ValueLineEnds(e, choose);
    assert c.items + Pieces(Field, x.name) + Pieces(Value, x.value) == c.items + LineItems(x);
    LeadsOn(c, x.name + [':'] + x.blanks + x.value, e, CRLF, BehindLine(c, x), choose);
  }

  function LinesText(xs: seq<Line>): seq<Byte>
  {
    if xs == [] then [] else LineText(xs[0]) + LinesText(xs[1..])
  }

  function LinesItems(xs: seq<Line>): seq<Item>
  {
    if xs == [] then [] else LineItems(xs[0]) + LinesItems(xs[1..])
  }

  predicate GoodLines(xs: seq<Line>) { forall i :: 0 <= i < |xs| ==> GoodLine(xs[i]) }

  // ---------- The last chunk ----------

  lemma TrailerActions(p: Parser, q: Parser, r: Parser)
    requires Valid(p) && p.state.HeaderFieldStart? && p.flags.trailing
    requires q == p.(state := HeadersAlmostDone) && r == p.(state := MessageDone)
    ensures Transition(p, false, '\r') == Go(p, HeadersAlmostDone)
    ensures Valid(q) && Transition(q, false, '\n') == Action(r, false, Notify(ChunkComplete), Again)
    ensures Valid(r)
  {
  }

  lemma TrailerEnds(c: Config, r: Parser, choose: Choice)
    requires Running(c) && Transition(c.p, false, '\n') == Action(r, false, Notify(ChunkComplete), Again)
    requires !c.skipping && Valid(r) && r.state.MessageDone? && c.pending == []
    ensures var d := Next(c, '\n', choose);
            d.items == c.items + [Noted(ChunkComplete)] + [Noted(MessageComplete)] && d.pending == [] && Idle(d.p)
  {
    hide Transition, Next, NewMessage;
    MessageDoneAction(r, '\n');
    NewMessageIs(r);
    NextAgain(c, Action(r, false, Notify(ChunkComplete), Again), Complete(r, if r.upgrade then Exit else Consume),
        '\n', choose);
  }

  lemma LastLineActions(p: Parser, q: Parser)
    requires Valid(p) && p.state.ValueLws? && p.headerState.General? && q == p.(state := HeaderFieldStart)
    ensures Transition(p, false, '\r') == Redo(q) && Valid(q) && Transition(q, false, '\r') == Go(q, HeadersAlmostDone)
  {
  }

  lemma LastCr(c: Config, choose: Choice)
    requires AtLine(c) && c.p.flags.trailing
    ensures Leads(c, ['\r'], c.(p := c.p.(state := HeadersAlmostDone), nread := c.nread + 1, used := c.used + 1),
                  choose)
  {
    hide Transition, Next;
    var f := c.p.(state := HeaderFieldStart);
    TrailerActions(f, f.(state := HeadersAlmostDone), f.(state := MessageDone));
    if c.p.state.HeaderFieldStart? {
      NextIs(c, Go(c.p, HeadersAlmostDone), '\r', choose);
    } else {
      LastLineActions(c.p, f);
      NextAgain(c, Redo(f), Go(f, HeadersAlmostDone), '\r', choose);
    }
    LeadsOne(c, '\r', c.(p := c.p.(state := HeadersAlmostDone), nread := c.nread + 1, used := c.used + 1), choose);
  }

  /** The empty line behind the trailers. */
  lemma TrailersEnd(c: Config, choose: Choice)
    requires AtLine(c) && c.p.flags.trailing
    ensures var d := Fold(c, CRLF, choose);
            d.items == c.items + [Noted(ChunkComplete)] + [Noted(MessageComplete)] && d.pending == [] && Idle(d.p)
  {
    hide Transition, Next, Idle, Fold;
    LastCr(c, choose);
    var q := c.p.(state := HeadersAlmostDone);
    var e := c.(p := q, nread := c.nread + 1, used := c.used + 1);
    var f := c.p.(state := HeaderFieldStart);
    TrailerActions(f, q, q.(state := MessageDone));
    FoldSplit(c, ['\r'], ['\n'], choose);
    assert ['\r'] + ['\n'] == CRLF;
    FoldOne(e, '\n', choose);
    TrailerEnds(e, q.(state := MessageDone), choose);
  }

  lemma {:induction false} TrailersRead(c: Config, xs: seq<Line>, choose: Choice)
    requires AtLine(c) && c.p.flags.trailing && GoodLines(xs)
    ensures var d := Fold(c, LinesText(xs) + CRLF, choose);
            d.items == c.items + LinesItems(xs) + [Noted(ChunkComplete)] + [Noted(MessageComplete)] && d.pending == []
            && Idle(d.p)
    decreases xs
  {
    hide Next, GoodLine, Idle, LineText, LineItems, Fold, Transition;
    if xs == [] {
      TrailersEnd(c, choose);
      assert LinesText(xs) + CRLF == CRLF && c.items + LinesItems(xs) == c.items;
    } else {
      LineRead(c, xs[0], choose);
      var d := BehindLine(c, xs[0]);
      TrailersRead(d, xs[1..], choose);
      var rest := LinesText(xs[1..]) + CRLF;
      FoldSplit(c, LineText(xs[0]), rest, choose);
      assert LinesText(xs) + CRLF == LineText(xs[0]) + rest;
      assert c.items + LineItems(xs[0]) + LinesItems(xs[1..]) == c.items + LinesItems(xs);
    }
  }

  /** The end of a body in chunks: a size of 0, trailers and an empty line. */
  datatype Ending = Ending(size: seq<Byte>, extension: seq<Byte>, trailers: seq<Line>)

  predicate GoodEnding(x: Ending)
  {
    HexText(x.size) && Hex(x.size) == 0 && Extension(x.extension) && GoodLines(x.trailers)
  }

  function EndingText(x: Ending): seq<Byte>
  {
    x.size + x.extension + CRLF + (LinesText(x.trailers) + CRLF)
  }

  lemma EndingRead(c: Config, x: Ending, choose: Choice)
    requires Running(c) && c.p.state.ChunkSizeStart? && GoodEnding(x)
    ensures var d := Fold(c, EndingText(x), choose);
            d.items == c.items + [Noted(ChunkHeader(0))] + LinesItems(x.trailers) + [Noted(ChunkComplete)]
                       + [Noted(MessageComplete)]
            && d.pending == [] && Idle(d.p)
  {
    hide Next, Hex, HexText, Extension, Idle, GoodLines;
    SizeLineRead(c, x.size, x.extension, choose);
    var e := SizeLine(c.(p := c.p.(contentLength := 0))).(used := c.used + |x.size + x.extension + CRLF|);
    FoldSplit(c, x.size + x.extension + CRLF, LinesText(x.trailers) + CRLF, choose);
    TrailersRead(e, x.trailers, choose);
  }

  /** A body in chunks of any sizes, in any spelling of the sizes and with any extensions: its bytes are given
      unchanged, chunk by chunk, then the trailers, and the message ends with the empty line behind them. */
  lemma ChunkedBody(c: Config, xs: seq<Chunk>, x: Ending, choose: Choice)
    requires Running(c) && c.p.state.ChunkSizeStart? && GoodChunks(xs) && GoodEnding(x)
    ensures var d := Fold(c, AllChunks(xs) + EndingText(x), choose);
            d.items == c.items + AllItems(xs) + [Noted(ChunkHeader(0))] + LinesItems(x.trailers)
                       + [Noted(ChunkComplete)] + [Noted(MessageComplete)]
            && d.pending == [] && Idle(d.p)
  {
    hide Next, GoodEnding, EndingText, Idle;
    FoldSplit(c, AllChunks(xs), EndingText(x), choose);
    if xs == [] {
      assert c.items + AllItems(xs) == c.items;
      EndingRead(c, x, choose);
    } else {
      ManyChunks(c, xs, choose);
      EndingRead(Behind(c, AllChunks(xs), AllItems(xs)), x, choose);
    }
  }
}
