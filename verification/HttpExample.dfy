/** A request that http_parser_execute, src/http-parser/http_parser.c, accepts in one piece and refuses in two. */
module HttpExample {
  import opened HttpState
  import opened HttpSteps
  import opened HttpRuns
  import opened HttpSplit

  const HEAD_PART: seq<Byte> := ['G', 'E', 'T', ' ', '/', ' ', 'H', 'T', 'T', 'P', '/', '1', '.', '1', '\r', '\n',
                                 'A', ':', ' ', 'b', 'c']

  const TAIL_PART: seq<Byte> := ['\U{01}', '\r', '\n', '\r', '\n']

  /** A GET request without anything that matters in its headers so far; all its bytes are counted. */
  predicate Simple(c: Config, s: State)
  {
    && c.nread == c.used && Noted(HeadersComplete) !in c.items
    && Running(c) && c.p.state == s && c.p.kind == Request && !c.p.lenient && c.p.errno == NoError && !c.p.upgrade
    && c.p.flags == NO_FLAGS && c.p.contentLength == ULLONG_MAX && c.p.verb == GET
  }

  lemma Consumes(c: Config, a: Action, ch: Byte, choose: Choice)
    requires Running(c) && a == Transition(c.p, c.skipping, ch) && a.next.Consume? && a.emit != Notify(HeadersComplete)
    ensures Next(c, ch, choose).p == a.p && !Next(c, ch, choose).halted
    ensures Next(c, ch, choose).skipping <==> IgnoresValue(c.p) && IgnoresValue(a.p)
    ensures ParsingHeader(c.p.state) && !ResetsCount(c.p.state) ==> Next(c, ch, choose).nread == c.nread + 1
    ensures Noted(HeadersComplete) in Next(c, ch, choose).items ==> Noted(HeadersComplete) in c.items
  {
    hide Transition, Rank;
  }

  lemma FirstLetter(c: Config, choose: Choice)
    requires Running(c) && c.p == Init(Request, false) && c.nread == c.used && Noted(HeadersComplete) !in c.items
    ensures var d := Next(c, 'G', choose); Simple(d, ReqMethod) && d.p.index == 1
  {
    Consumes(c, Transition(c.p, c.skipping, 'G'), 'G', choose);
    hide Settle;
  }

  lemma Letter(c: Config, ch: Byte, choose: Choice)
    requires Simple(c, ReqMethod) && c.p.index < 3 && ch == "GET"[c.p.index]
    ensures var d := Next(c, ch, choose); Simple(d, ReqMethod) && d.p.index == c.p.index + 1
  {
    assert MethodName(GET) == "GET";
    assert Transition(c.p, c.skipping, ch) == Go(c.p.(index := c.p.index + 1), ReqMethod);
    Consumes(c, Transition(c.p, c.skipping, ch), ch, choose);
    hide Settle;
  }

  lemma MethodEnds(c: Config, choose: Choice)
    requires Simple(c, ReqMethod) && c.p.index == 3
    ensures Simple(Next(c, ' ', choose), ReqSpacesBeforeUrl)
  {
    assert |MethodName(GET)| == 3;
    assert Transition(c.p, c.skipping, ' ') == Go(c.p.(index := 4), ReqSpacesBeforeUrl);
    Consumes(c, Transition(c.p, c.skipping, ' '), ' ', choose);
    hide Settle;
  }

  /** The steps of a simple request line and of a header that does not matter. */
  predicate Leads(s: State, ch: Byte, t: State)
  {
    LeadsInTarget(s, ch, t) || LeadsInVersion(s, ch, t) || LeadsInHeader(s, ch, t)
  }

  predicate LeadsInTarget(s: State, ch: Byte, t: State)
  {
    || (s.ReqSpacesBeforeUrl? && ch == '/' && t.ReqPath?)
    || (s.ReqPath? && ch == ' ' && t.ReqHttpStart?)
    || (s.ReqHttpStart? && ch == 'H' && t.ReqHttpH?)
    || (s.ReqHttpH? && ch == 'T' && t.ReqHttpHT?)
    || (s.ReqHttpHT? && ch == 'T' && t.ReqHttpHTT?)
    || (s.ReqHttpHTT? && ch == 'P' && t.ReqHttpHTTP?)
    || (s.ReqHttpHTTP? && ch == '/' && t.ReqFirstMajor?)
  }

  predicate LeadsInVersion(s: State, ch: Byte, t: State)
  {
    || (s.ReqFirstMajor? && ch == '1' && t.ReqMajor?)
    || (s.ReqMajor? && ch == '.' && t.ReqFirstMinor?)
    || (s.ReqFirstMinor? && ch == '1' && t.ReqMinor?)
    || (s.ReqMinor? && ch == '\r' && t.ReqLineAlmostDone?)
    || (s.ReqLineAlmostDone? && ch == '\n' && t.HeaderFieldStart?)
  }

  predicate LeadsInHeader(s: State, ch: Byte, t: State)
  {
    || (s.ValueDiscardWs? && ch == ' ' && t.ValueDiscardWs?)
    || (s.HeaderValue? && ch == '\r' && t.HeaderAlmostDone?)
    || (s.HeaderAlmostDone? && ch == '\n' && t.ValueLws?)
  }

  predicate LeadsBy(p: Parser, a: Action, t: State)
  {
    a.next.Consume? && !a.emit.Notify? && a.p == p.(state := t, major := a.p.major, minor := a.p.minor)
    && ParsingHeader(p.state) && !ResetsCount(p.state)
  }

  lemma TargetAction(p: Parser, skipping: bool, ch: Byte, t: State)
    requires Valid(p) && LeadsInTarget(p.state, ch, t) && p.verb == GET
    ensures LeadsBy(p, Transition(p, skipping, ch), t)
  {
    hide IsUserinfoChar, IsToken, FlagsOf, ValueChar, BeginValue, Valid;
  }

  lemma VersionAction(p: Parser, skipping: bool, ch: Byte, t: State)
    requires Valid(p) && LeadsInVersion(p.state, ch, t) && p.verb == GET
    ensures LeadsBy(p, Transition(p, skipping, ch), t)
  {
    hide ParseUrlChar, IsToken, MoreDigits, FlagsOf, ValueChar, BeginValue, Valid;
  }

  lemma HeaderAction(p: Parser, skipping: bool, ch: Byte, t: State)
    requires Valid(p) && LeadsInHeader(p.state, ch, t) && p.verb == GET
    ensures LeadsBy(p, Transition(p, skipping, ch), t)
  {
    hide ParseUrlChar, IsToken, MoreDigits, FlagsOf, ValueChar, BeginValue, Valid;
  }

  lemma LeadingAction(p: Parser, skipping: bool, ch: Byte, t: State)
    requires Valid(p) && Leads(p.state, ch, t) && p.verb == GET
    ensures LeadsBy(p, Transition(p, skipping, ch), t)
  {
    hide Transition, LeadsInTarget, LeadsInVersion, LeadsInHeader, LeadsBy, Valid;
    if LeadsInTarget(p.state, ch, t) { TargetAction(p, skipping, ch, t); }
    else if LeadsInVersion(p.state, ch, t) { VersionAction(p, skipping, ch, t); }
    else { HeaderAction(p, skipping, ch, t); }
  }

  lemma Step(c: Config, s: State, ch: Byte, t: State, choose: Choice)
    requires Simple(c, s) && Leads(s, ch, t) && !t.HeaderValue?
    ensures Simple(Next(c, ch, choose), t) && Next(c, ch, choose).p.headerState == c.p.headerState
  {
    hide Leads, Transition, Settle;
    LeadingAction(c.p, c.skipping, ch, t);
    Consumes(c, Transition(c.p, c.skipping, ch), ch, choose);
  }

  lemma NameBegins(c: Config, choose: Choice)
    requires Simple(c, HeaderFieldStart)
    ensures var d := Next(c, 'A', choose); Simple(d, HeaderField) && d.p.headerState.General?
  {
    assert TokenOf('A') == 'a';
    assert Transition(c.p, c.skipping, 'A') == Take(c.p.(index := 0, state := HeaderField, headerState := General));
    Consumes(c, Transition(c.p, c.skipping, 'A'), 'A', choose);
    hide Settle, Transition;
  }

  lemma NameEnds(c: Config, choose: Choice)
    requires Simple(c, HeaderField) && c.p.headerState.General?
    ensures var d := Next(c, ':', choose); Simple(d, ValueDiscardWs) && d.p.headerState.General?
  {
    assert Transition(c.p, c.skipping, ':') == Action(c.p.(state := ValueDiscardWs), false, Deliver(Field), Consume);
    Consumes(c, Transition(c.p, c.skipping, ':'), ':', choose);
    hide Settle, Transition;
  }

  lemma ValueBegins(c: Config, choose: Choice)
    requires Simple(c, ValueDiscardWs) && c.p.headerState.General?
    ensures var d := Next(c, 'b', choose); Simple(d, HeaderValue) && d.p.headerState.General? && !d.skipping
  {
    assert Transition(c.p, c.skipping, 'b') == Take(c.p.(index := 0, state := HeaderValue));
    Consumes(c, Transition(c.p, c.skipping, 'b'), 'b', choose);
    hide Settle, Transition;
  }

  lemma ValueGoesOnWith(c: Config, ch: Byte, choose: Choice)
    requires Simple(c, HeaderValue) && c.p.headerState.General? && ch != '\r' && ch != '\n'
    requires c.skipping || IsHeaderChar(ch)
    ensures var d := Next(c, ch, choose); Simple(d, HeaderValue) && d.p.headerState.General? && d.skipping
  {
    assert Transition(c.p, c.skipping, ch) == Take(c.p);
    Consumes(c, Transition(c.p, c.skipping, ch), ch, choose);
    hide Settle, Transition;
  }

  /** The configuration before byte i of the first part. */
  function Before(i: nat, choose: Choice): Config
    requires i <= |HEAD_PART|
  {
    Fold(Begin(Init(Request, false), 0, []), HEAD_PART[..i], choose)
  }

  lemma BeforeNext(i: nat, ch: Byte, choose: Choice)
    requires i < |HEAD_PART| && ch == HEAD_PART[i] && Running(Before(i, choose))
    ensures Before(i + 1, choose) == Next(Before(i, choose), ch, choose)
  {
    hide Settle, Counted;
    FoldNext(Begin(Init(Request, false), 0, []), HEAD_PART, i, choose);
  }

  lemma BeforeFirst(choose: Choice)
    ensures Before(0, choose) == Begin(Init(Request, false), 0, []) && Running(Before(0, choose))
  {
    hide Settle;
    assert HEAD_PART[..0] == [];
  }

  lemma MethodRead(choose: Choice)
    ensures Simple(Before(4, choose), ReqSpacesBeforeUrl)
  {
    hide Next, Fold, Before, Running;
    BeforeFirst(choose);
    BeforeNext(0, 'G', choose);
    FirstLetter(Before(0, choose), choose);
    BeforeNext(1, 'E', choose);
    Letter(Before(1, choose), 'E', choose);
    BeforeNext(2, 'T', choose);
    Letter(Before(2, choose), 'T', choose);
    BeforeNext(3, ' ', choose);
    MethodEnds(Before(3, choose), choose);
  }

  lemma Along(i: nat, s: State, ch: Byte, t: State, choose: Choice)
    requires i < |HEAD_PART| && ch == HEAD_PART[i] && Simple(Before(i, choose), s) && Leads(s, ch, t) && !t.HeaderValue?
    ensures Simple(Before(i + 1, choose), t)
    ensures Before(i + 1, choose).p.headerState == Before(i, choose).p.headerState
  {
    hide Next, Fold, Before, Leads;
    BeforeNext(i, ch, choose);
    Step(Before(i, choose), s, ch, t, choose);
  }

  lemma TargetRead(choose: Choice)
    ensures Simple(Before(7, choose), ReqHttpH)
  {
    hide Next, Fold, Before, Simple;
    MethodRead(choose);
    Along(4, ReqSpacesBeforeUrl, '/', ReqPath, choose);
    Along(5, ReqPath, ' ', ReqHttpStart, choose);
    Along(6, ReqHttpStart, 'H', ReqHttpH, choose);
  }

  lemma ConstantRead(choose: Choice)
    ensures Simple(Before(11, choose), ReqFirstMajor)
  {
    hide Next, Fold, Before, Simple;
    TargetRead(choose);
    Along(7, ReqHttpH, 'T', ReqHttpHT, choose);
    Along(8, ReqHttpHT, 'T', ReqHttpHTT, choose);
    Along(9, ReqHttpHTT, 'P', ReqHttpHTTP, choose);
    Along(10, ReqHttpHTTP, '/', ReqFirstMajor, choose);
  }

  lemma LineRead(choose: Choice)
    ensures Simple(Before(16, choose), HeaderFieldStart)
  {
    hide Next, Fold, Before, Simple;
    ConstantRead(choose);
    Along(11, ReqFirstMajor, '1', ReqMajor, choose);
    Along(12, ReqMajor, '.', ReqFirstMinor, choose);
    Along(13, ReqFirstMinor, '1', ReqMinor, choose);
    Along(14, ReqMinor, '\r', ReqLineAlmostDone, choose);
    Along(15, ReqLineAlmostDone, '\n', HeaderFieldStart, choose);
  }

  lemma BlankSkipped(i: nat, choose: Choice)
    requires i < |HEAD_PART| && HEAD_PART[i] == ' ' && Simple(Before(i, choose), ValueDiscardWs)
    ensures Simple(Before(i + 1, choose), ValueDiscardWs)
    ensures Before(i + 1, choose).p.headerState == Before(i, choose).p.headerState
  {
    hide Next, Fold, Before, Simple;
    Along(i, ValueDiscardWs, ' ', ValueDiscardWs, choose);
  }

  lemma NameRead(choose: Choice)
    ensures Simple(Before(19, choose), ValueDiscardWs) && Before(19, choose).p.headerState.General?
  {
    hide Next, Fold, Before, Running;
    LineRead(choose);
    BeforeNext(16, 'A', choose);
    NameBegins(Before(16, choose), choose);
    BeforeNext(17, ':', choose);
    NameEnds(Before(17, choose), choose);
    BlankSkipped(18, choose);
  }

  lemma ValueBegun(choose: Choice)
    ensures Simple(Before(20, choose), HeaderValue) && Before(20, choose).p.headerState.General?
  {
    hide Next, Fold, Before, Running;
    NameRead(choose);
    BeforeNext(19, 'b', choose);
    ValueBegins(Before(19, choose), choose);
  }

  lemma HeadRead(choose: Choice)
    ensures Simple(Before(21, choose), HeaderValue) && IgnoresValue(Before(21, choose).p) && Before(21, choose).skipping
  {
    assert IsHeaderChar('c');
    hide Next, Fold, Before, Running, IsHeaderChar;
    ValueBegun(choose);
    BeforeNext(20, 'c', choose);
    ValueGoesOnWith(Before(20, choose), 'c', choose);
  }

  // ---------- The second part ----------

  lemma LastHeaderActions(p: Parser, q: Parser)
    requires Valid(p) && p.state.ValueLws? && p.headerState.General? && q == p.(state := HeaderFieldStart)
    ensures Transition(p, false, '\r') == Redo(q) && Valid(q) && Transition(q, false, '\r') == Go(q, HeadersAlmostDone)
  {
  }

  lemma LastHeaderEnds(c: Config, choose: Choice)
    requires Simple(c, ValueLws) && c.p.headerState.General?
    ensures Simple(Next(c, '\r', choose), HeadersAlmostDone)
  {
    hide Transition, Rank;
    LastHeaderActions(c.p, c.p.(state := HeaderFieldStart));
    assert Settle(Counted(c), '\r', choose)
        == Settle(After(Counted(c), Redo(c.p.(state := HeaderFieldStart)), '\r', choose), '\r', choose);
  }

  lemma EmptyLineActions(p: Parser, q: Parser)
    requires Valid(p) && p.state.HeadersAlmostDone? && p.flags == NO_FLAGS && p.verb == GET && p.kind == Request
    requires p.contentLength == ULLONG_MAX && q == p.(state := HeadersDone, upgrade := false)
    ensures Transition(p, false, '\n') == Action(q, false, Notify(HeadersComplete), Again)
    ensures Valid(q) && Transition(q, false, '\n') == Complete(q, Consume)
  {
  }

  lemma EmptyLine(c: Config, choose: Choice)
    requires Simple(c, HeadersAlmostDone) && choose(c.items) == 0
    ensures var d := Next(c, '\n', choose);
            !d.halted && d.p.errno == NoError && Noted(MessageComplete) in d.items && d.nread == 0
  {
    hide Transition, Rank, MessageNeedsEof, NewMessage;
    var q := c.p.(state := HeadersDone, upgrade := false);
    EmptyLineActions(c.p, q);
    assert Settle(Counted(c), '\n', choose)
        == Settle(After(Counted(c), Action(q, false, Notify(HeadersComplete), Again), '\n', choose), '\n', choose);
  }

  /** The request is accepted in one call, and the message is complete; in two calls its second part is
      refused at its first byte. */
  lemma SplitRefused(choose: Choice)
    requires forall x :: choose(x) == 0
    ensures var p := Init(Request, false);
            var w := Call(p, 0, [], HEAD_PART + TAIL_PART, choose);
            !w.halted && w.p.errno == NoError && Noted(MessageComplete) in w.items
    ensures var p := Init(Request, false);
            var r := Call(p, 0, [], HEAD_PART, choose);
            var s := Call(r.p, r.nread, r.items, TAIL_PART, choose);
            !r.halted && r.p.errno == NoError && s.p.errno == InvalidHeaderToken && s.used == 0
  {
    hide Next, Before, Fold, Settle;
    TailRead(choose);
    TailRefused(choose);
  }

  lemma HeadConfig(choose: Choice)
    ensures var c := Before(21, choose);
            Simple(c, HeaderValue) && c.p.headerState.General? && Unchecked(c, '\U{01}')
            && c == Fold(Begin(Init(Request, false), 0, []), HEAD_PART, choose)
  {
    hide Fold, Settle;
    HeadRead(choose);
    assert HEAD_PART[..21] == HEAD_PART;
  }

  lemma TailRead(choose: Choice)
    requires forall x :: choose(x) == 0
    ensures var w := Call(Init(Request, false), 0, [], HEAD_PART + TAIL_PART, choose);
            !w.halted && w.p.errno == NoError && Noted(MessageComplete) in w.items
  {
    hide Fold, Next, Settle, Leads;
    HeadConfig(choose);
    var c := Before(21, choose);
    FoldSplit(Begin(Init(Request, false), 0, []), HEAD_PART, TAIL_PART, choose);
    TailFolds(c, choose);
  }

  lemma TailNext(c: Config, i: nat, ch: Byte, choose: Choice)
    requires Running(c) && i < |TAIL_PART| && ch == TAIL_PART[i] && Running(Fold(c, TAIL_PART[..i], choose))
    ensures Fold(c, TAIL_PART[..i + 1], choose) == Next(Fold(c, TAIL_PART[..i], choose), ch, choose)
    ensures Fold(c, TAIL_PART[..0], choose) == c && TAIL_PART[..5] == TAIL_PART
  {
    hide Settle, Counted;
    FoldNext(c, TAIL_PART, i, choose);
  }

  lemma TailStart(c: Config, choose: Choice)
    requires Running(c)
    ensures Fold(c, TAIL_PART[..0], choose) == c
  {
    hide Settle;
  }

  lemma TailFolds(c: Config, choose: Choice)
    requires Simple(c, HeaderValue) && c.p.headerState.General? && c.skipping && forall x :: choose(x) == 0
    ensures var d := Fold(c, TAIL_PART, choose); !d.halted && d.p.errno == NoError && Noted(MessageComplete) in d.items
  {
    hide Fold, Next, Settle, Running;
    TailStart(c, choose);
    var c1 := Next(c, '\U{01}', choose);
    TailNext(c, 0, '\U{01}', choose);
    ValueGoesOnWith(c, '\U{01}', choose);
    TailNext(c, 1, '\r', choose);
    LineEnd(c1, HeaderValue, '\r', HeaderAlmostDone, choose);
    var c2 := Next(c1, '\r', choose);
    TailNext(c, 2, '\n', choose);
    LineEnd(c2, HeaderAlmostDone, '\n', ValueLws, choose);
    var c3 := Next(c2, '\n', choose);
    TailNext(c, 3, '\r', choose);
    LastHeaderEnds(c3, choose);
    TailNext(c, 4, '\n', choose);
    EmptyLine(Next(c3, '\r', choose), choose);
  }

  lemma LineEnd(c: Config, s: State, ch: Byte, t: State, choose: Choice)
    requires Simple(c, s) && Leads(s, ch, t) && !t.HeaderValue? && c.p.headerState.General?
    ensures Simple(Next(c, ch, choose), t) && Next(c, ch, choose).p.headerState.General?
  {
    hide Next, Leads;
    Step(c, s, ch, t, choose);
  }

  lemma TailRefused(choose: Choice)
    ensures var p := Init(Request, false);
            var r := Call(p, 0, [], HEAD_PART, choose);
            var s := Call(r.p, r.nread, r.items, TAIL_PART, choose);
            !r.halted && r.p.errno == NoError && s.p.errno == InvalidHeaderToken && s.used == 0
  {
    hide Fold, Next, Settle, Leads;
    HeadConfig(choose);
    CutUncovers(Before(21, choose), TAIL_PART, choose);
  }
}
