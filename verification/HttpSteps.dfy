/** What http_parser_execute, src/http-parser/http_parser.c, does with one byte in each state. */
module HttpSteps {
  import opened Options
  import opened HttpState

  datatype Emit = Nothing | Notify(note: Note) | Deliver(kind: Kind)

  /** How the loop goes on: with the next byte, with the same byte, out of the parser, or to the error exit. */
  datatype Then = Consume | Again | Exit | Failed

  /** The new record, whether the byte belongs to a string, the callback, and how to go on. */
  datatype Action = Action(p: Parser, take: bool, emit: Emit, next: Then)

  function Go(p: Parser, s: State): Action { Action(p.(state := s), false, Nothing, Consume) }

  function Take(p: Parser): Action { Action(p, true, Nothing, Consume) }

  function Redo(p: Parser): Action { Action(p, false, Nothing, Again) }

  function Fail(p: Parser, e: Errno): Action { Action(p.(errno := e), false, Nothing, Failed) }

  /** STRICT_CHECK. */
  function Expect(p: Parser, ch: Byte, want: char, s: State): Action
  {
    if ch == want then Go(p, s) else Fail(p, Strict)
  }

  // ---------- Groups of states ----------

  predicate InStart(s: State)
  {
    s.Dead? || s.StartReqOrRes? || s.StartReq? || s.StartRes? || s.ResOrRespH?
  }

  predicate InVersion(s: State)
  {
    s.ResFirstMajor? || s.ResMajor? || s.ResFirstMinor? || s.ResMinor? || s.ReqFirstMajor? || s.ReqMajor?
    || s.ReqFirstMinor? || s.ReqMinor?
  }

  predicate InStatus(s: State)
  {
    s.ResFirstStatusCode? || s.ResStatusCode? || s.ResStatusStart? || s.ResStatus? || s.ResLineAlmostDone?
  }

  predicate InConstant(s: State)
  {
    s.ResH? || s.ResHT? || s.ResHTT? || s.ResHTTP? || s.ReqHttpStart? || s.ReqHttpH? || s.ReqHttpHT?
    || s.ReqHttpHTT? || s.ReqHttpHTTP? || s.ReqLineAlmostDone?
  }

  predicate InBetween(s: State)
  {
    s.ValueDiscardWs? || s.ValueDiscardWsAlmostDone? || s.ValueDiscardLws? || s.ValueStart? || s.ValueLws?
    || s.HeaderAlmostDone?
  }

  predicate InBody(s: State)
  {
    s.BodyIdentity? || s.BodyIdentityEof? || s.MessageDone? || s.ChunkData? || s.ChunkDataAlmostDone?
    || s.ChunkDataDone?
  }

  // ---------- The first line ----------

  function Fresh(p: Parser): Parser { p.(flags := NO_FLAGS, contentLength := ULLONG_MAX) }

  function Start(p: Parser, ch: Byte): Action
    requires InStart(p.state)
  {
    match p.state
    case Dead => if ch == '\r' || ch == '\n' then Go(p, Dead) else Fail(p, ClosedConnection)
    case StartReqOrRes =>
      if ch == '\r' || ch == '\n' then Go(p, p.state)
      else if ch == 'H' then Action(Fresh(p).(state := ResOrRespH), false, Notify(MessageBegin), Consume)
      else Redo(Fresh(p).(kind := Request, state := StartReq))
    case ResOrRespH =>
      if ch == 'T' then Go(p.(kind := Response), ResHT)
      else if ch != 'E' then Fail(p, InvalidConstant)
      else Go(p.(kind := Request, verb := HEAD, index := 2), ReqMethod)
    case StartRes =>
      if ch == 'H' then Action(Fresh(p).(state := ResH), false, Notify(MessageBegin), Consume)
      else if ch == '\r' || ch == '\n' then Action(Fresh(p), false, Notify(MessageBegin), Consume)
      else Fail(Fresh(p), InvalidConstant)
    case StartReq =>
      if ch == '\r' || ch == '\n' then Go(p, p.state)
      else if !IsAlpha(ch) then Fail(Fresh(p), InvalidMethod)
      else
        var m := FirstGuess(ch);
        if m.None? then Fail(Fresh(p).(verb := DELETE, index := 1), InvalidMethod)
        else Action(Fresh(p).(verb := m.value, index := 1, state := ReqMethod), false, Notify(MessageBegin), Consume)
  }

  /** The method that is tried first for that letter. */
  function FirstGuess(ch: Byte): Option<Method>
  {
    match ch
    case 'A' => Some(ACL) case 'B' => Some(BIND) case 'C' => Some(CONNECT) case 'D' => Some(DELETE)
    case 'G' => Some(GET) case 'H' => Some(HEAD) case 'L' => Some(LOCK) case 'M' => Some(MKCOL)
    case 'N' => Some(NOTIFY) case 'O' => Some(OPTIONS)
    case 'P' => Some(POST) case 'R' => Some(REPORT) case 'S' => Some(SUBSCRIBE) case 'T' => Some(TRACE)
    case 'U' => Some(UNLOCK)
    case _ => None
  }

  /** Another method with the same letters so far and that next one. */
  function OtherMethod(m: Method, index: nat, ch: Byte): Option<Method>
  {
    match m
    case POST => if index != 1 then None else if ch == 'U' then Some(PUT) else if ch == 'A' then Some(PATCH)
                 else if ch == 'R' then Some(PROPFIND) else None
    case CONNECT => if index == 1 && ch == 'H' then Some(CHECKOUT) else if index == 2 && ch == 'P' then Some(COPY)
        else None
    case MKCOL => if index == 1 && ch == 'O' then Some(MOVE) else if index == 1 && ch == 'E' then Some(MERGE)
                  else if index == 2 && ch == 'A' then Some(MKACTIVITY)
                  else if index == 3 && ch == 'A' then Some(MKCALENDAR) else None
    case SUBSCRIBE => if index == 1 && ch == 'E' then Some(SEARCH) else None
    case REPORT => if index == 2 && ch == 'B' then Some(REBIND) else None
    case PROPFIND => if index == 4 && ch == 'P' then Some(PROPPATCH) else None
    case PUT => if index == 2 && ch == 'R' then Some(PURGE) else None
    case LOCK => if index == 1 && ch == 'I' then Some(LINK) else None
    case UNLOCK => if index == 2 && ch == 'S' then Some(UNSUBSCRIBE) else if index == 2 && ch == 'B' then Some(UNBIND)
                   else if index == 3 && ch == 'I' then Some(UNLINK) else None
    case _ => None
  }

  function ReadMethod(p: Parser, ch: Byte): Action
    requires p.state == ReqMethod && Valid(p)
  {
    var name := MethodName(p.verb);
    var q := p.(index := p.index + 1);
    if ch == '\0' then Fail(p, InvalidMethod)
    else if ch == ' ' && p.index == |name| then Go(q, ReqSpacesBeforeUrl)
    else if p.index < |name| && ch == name[p.index] then Go(q, ReqMethod)
    else if IsAlpha(ch) then
      var m := OtherMethod(p.verb, p.index, ch);
      if m.None? then Fail(p, InvalidMethod) else Go(q.(verb := m.value), ReqMethod)
    else if ch == '-' && p.index == 1 && p.verb == MKCOL then Go(q.(verb := MSEARCH), ReqMethod)
    else Fail(p, InvalidMethod)
  }

  /** parse_url_char. */
  function ParseUrlChar(s: State, ch: Byte): State
  {
    if (ch == ' ' || ch == '\r' || ch == '\n' || ch == '\t' || ch == '\U{0C}') then Dead
    else match s
      case ReqSpacesBeforeUrl => if ch == '/' || ch == '*' then ReqPath else if IsAlpha(ch) then ReqSchema else Dead
      case ReqSchema => if IsAlpha(ch) then s else if ch == ':' then ReqSchemaSlash else Dead
      case ReqSchemaSlash => if ch == '/' then ReqSchemaSlashSlash else Dead
      case ReqSchemaSlashSlash => if ch == '/' then ReqServerStart else Dead
      case ReqServerWithAt => if ch == '@' then Dead else ServerChar(ch)
      case ReqServerStart => ServerChar(ch)
      case ReqServer => ServerChar(ch)
      case ReqPath =>
        if IsUrlChar(ch) then s else if ch == '?' then ReqQueryStart else if ch == '#' then ReqFragmentStart else Dead
      case ReqQueryStart => QueryChar(ch)
      case ReqQuery => QueryChar(ch)
      case ReqFragmentStart => if IsUrlChar(ch) || ch == '?' then ReqFragment else if ch == '#' then s else Dead
      case ReqFragment => if IsUrlChar(ch) || ch == '?' || ch == '#' then s else Dead
      case _ => Dead
  }

  function ServerChar(ch: Byte): State
  {
    if ch == '/' then ReqPath else if ch == '?' then ReqQueryStart else if ch == '@' then ReqServerWithAt
    else if IsUserinfoChar(ch) || ch == '[' || ch == ']' then ReqServer else Dead
  }

  function QueryChar(ch: Byte): State
  {
    if IsUrlChar(ch) || ch == '?' then ReqQuery else if ch == '#' then ReqFragmentStart else Dead
  }

  function UrlByte(p: Parser, s: State, ch: Byte): Action
  {
    var next := ParseUrlChar(s, ch);
    if next == Dead then Fail(p.(state := Dead), InvalidUrl) else Take(p.(state := next))
  }

  function ReadUrl(p: Parser, ch: Byte): Action
    requires p.state == ReqSpacesBeforeUrl || InUrl(p.state)
  {
    match p.state
    case ReqSpacesBeforeUrl =>
      if ch == ' ' then Go(p, p.state) else UrlByte(p, if p.verb == CONNECT then ReqServerStart else p.state, ch)
    case ReqSchema | ReqSchemaSlash | ReqSchemaSlashSlash | ReqServerStart =>
      if (ch == ' ' || ch == '\r' || ch == '\n') then Fail(p, InvalidUrl) else UrlByte(p, p.state, ch)
    case _ =>
      if ch == ' ' then Action(p.(state := ReqHttpStart), false, Deliver(Url), Consume)
      else if ch == '\r' || ch == '\n' then
        Action(p.(major := 0, minor := 9, state := if ch == '\r' then ReqLineAlmostDone else HeaderFieldStart),
               false, Deliver(Url), Consume)
      else UrlByte(p, p.state, ch)
  }

  /** One more digit of a version number or of the status code, at most 999. */
  function MoreDigits(n: nat, ch: Byte): nat
    requires IsNum(ch)
  {
    10 * n + Digit(ch)
  }

  function FirstDigit(p: Parser, ch: Byte, least: char, q: Parser): Action
  {
    if ch < least || !IsNum(ch) then Fail(p, InvalidVersion) else Action(q, false, Nothing, Consume)
  }

  function MajorDigit(p: Parser, ch: Byte, dot: State): Action
  {
    if ch == '.' then Go(p, dot)
    else if !IsNum(ch) then Fail(p, InvalidVersion)
    else
      var q := p.(major := MoreDigits(p.major, ch));
      if q.major > 999 then Fail(q, InvalidVersion) else Go(q, p.state)
  }

  function MinorDigit(p: Parser, ch: Byte): Action
  {
    if !IsNum(ch) then Fail(p, InvalidVersion)
    else
      var q := p.(minor := MoreDigits(p.minor, ch));
      if q.minor > 999 then Fail(q, InvalidVersion) else Go(q, p.state)
  }

  function ReadVersion(p: Parser, ch: Byte): Action
    requires InVersion(p.state)
  {
    var n := if IsNum(ch) then Digit(ch) else 0;
    match p.state
    case ResFirstMajor => FirstDigit(p, ch, '0', p.(major := n, state := ResMajor))
    case ReqFirstMajor => FirstDigit(p, ch, '1', p.(major := n, state := ReqMajor))
    case ResMajor => MajorDigit(p, ch, ResFirstMinor)
    case ReqMajor => MajorDigit(p, ch, ReqFirstMinor)
    case ResFirstMinor => FirstDigit(p, ch, '0', p.(minor := n, state := ResMinor))
    case ReqFirstMinor => FirstDigit(p, ch, '0', p.(minor := n, state := ReqMinor))
    case ResMinor => if ch == ' ' then Go(p, ResFirstStatusCode) else MinorDigit(p, ch)
    case _ =>
      if ch == '\r' then Go(p, ReqLineAlmostDone) else if ch == '\n' then Go(p, HeaderFieldStart) else MinorDigit(p, ch)
  }

  function ReadStatus(p: Parser, ch: Byte): Action
    requires InStatus(p.state)
  {
    match p.state
    case ResFirstStatusCode =>
      if IsNum(ch) then Go(p.(statusCode := Digit(ch)), ResStatusCode)
      else if ch == ' ' then Go(p, p.state) else Fail(p, InvalidStatus)
    case ResStatusCode =>
      if !IsNum(ch) then
        if ch == ' ' then Go(p, ResStatusStart) else if ch == '\r' then Go(p, ResLineAlmostDone)
        else if ch == '\n' then Go(p, HeaderFieldStart) else Fail(p, InvalidStatus)
      else if MoreDigits(p.statusCode, ch) > 999
          then Fail(p.(statusCode := MoreDigits(p.statusCode, ch)), InvalidStatus)
      else Go(p.(statusCode := MoreDigits(p.statusCode, ch)), p.state)
    case ResStatusStart =>
      if ch == '\r' then Go(p, ResLineAlmostDone) else if ch == '\n' then Go(p, HeaderFieldStart)
      else Take(p.(state := ResStatus, index := 0))
    case ResStatus =>
      if ch == '\r' then Action(p.(state := ResLineAlmostDone), false, Deliver(Status), Consume)
      else if ch == '\n' then Action(p.(state := HeaderFieldStart), false, Deliver(Status), Consume)
      else Take(p)
    case _ => Expect(p, ch, '\n', HeaderFieldStart)
  }

  /** The letters HTTP/ of either first line, and the end of a request line. */
  function ReadConstant(p: Parser, ch: Byte): Action
    requires InConstant(p.state)
  {
    match p.state
    case ResH => Expect(p, ch, 'T', ResHT)
    case ResHT => Expect(p, ch, 'T', ResHTT)
    case ResHTT => Expect(p, ch, 'P', ResHTTP)
    case ResHTTP => Expect(p, ch, '/', ResFirstMajor)
    case ReqHttpStart => if ch == 'H' then Go(p, ReqHttpH) else if ch == ' ' then Go(p, p.state)
        else Fail(p, InvalidConstant)
    case ReqHttpH => Expect(p, ch, 'T', ReqHttpHT)
    case ReqHttpHT => Expect(p, ch, 'T', ReqHttpHTT)
    case ReqHttpHTT => Expect(p, ch, 'P', ReqHttpHTTP)
    case ReqHttpHTTP => Expect(p, ch, '/', ReqFirstMajor)
    case _ => if ch == '\n' then Go(p, HeaderFieldStart) else Fail(p, LfExpected)
  }

  // ---------- Headers ----------

  /** One more character of a word: matched so far, matched entirely, or missed. */
  function MatchWord(p: Parser, c: Byte): Parser
  {
    var w, i := Word(p.headerState), p.index + 1;
    if i >= |w| || c != w[i] then p.(index := i, headerState := Missed(p.headerState))
    else if i == |w| - 1 then p.(index := i, headerState := Found(p.headerState))
    else p.(index := i)
  }

  /** What a word is when it is matched, and what it is when it is missed. */
  function Found(h: HeaderState): HeaderState
  {
    match h
    case MatchingConnection | MatchingProxyConnection => Connection
    case MatchingContentLength => ContentLength
    case MatchingTransferEncoding => TransferEncoding
    case MatchingUpgrade => Upgrade
    case MatchingChunked => Chunked
    case MatchingKeepAlive => KeepAlive
    case MatchingClose => Close
    case MatchingConnectionUpgrade => ConnectionUpgrade
    case _ => General
  }

  function Missed(h: HeaderState): HeaderState
  {
    if h.MatchingKeepAlive? || h.MatchingClose? || h.MatchingConnectionUpgrade? then Token else General
  }

  /** One more character of a header name. */
  function NameChar(p: Parser, c: Byte): Parser
  {
    match p.headerState
    case General => p
    case C => p.(index := p.index + 1, headerState := if c == 'o' then CO else General)
    case CO => p.(index := p.index + 1, headerState := if c == 'n' then CON else General)
    case CON => p.(index := p.index + 1,
                   headerState := if c == 'n' then MatchingConnection else if c == 't' then MatchingContentLength
                       else General)
    case _ => if WordLength(p.headerState) > 0 then MatchWord(p, c) else p.(headerState := General)
  }

  function ReadName(p: Parser, ch: Byte): Action
    requires Valid(p) && (p.state == HeaderFieldStart || p.state == HeaderField)
  {
    if p.state == HeaderFieldStart then
      if ch == '\r' then Go(p, HeadersAlmostDone)
      else if ch == '\n' then Redo(p.(state := HeadersAlmostDone))
      else if !IsToken(ch) then Fail(p, InvalidHeaderToken)
      else
        var c := TokenOf(ch);
        Take(p.(index := 0, state := HeaderField,
                headerState := if c == 'c' then C else if c == 'p' then MatchingProxyConnection
                               else if c == 't' then MatchingTransferEncoding
                               else if c == 'u' then MatchingUpgrade else General))
    else if IsToken(ch) then Take(NameChar(p, TokenOf(ch)))
    else if ch == ':' then Action(p.(state := ValueDiscardWs), false, Deliver(Field), Consume)
    else Fail(p, InvalidHeaderToken)
  }

  /** The first character of a value. */
  function BeginValue(p: Parser, ch: Byte): Action
    requires p.state == ValueDiscardWs || p.state == ValueStart
  {
    var q := p.(state := HeaderValue, index := 0);
    var c := Lower(ch);
    match p.headerState
    case Upgrade => Take(q.(flags := p.flags.(upgrade := true), headerState := General))
    case TransferEncoding => Take(q.(headerState := if c == 'c' then MatchingChunked else General))
    case ContentLength =>
      if !IsNum(ch) then Fail(q, InvalidContentLength)
      else if p.flags.contentLength then Fail(q, UnexpectedContentLength)
      else Take(q.(flags := p.flags.(contentLength := true), contentLength := Digit(ch)))
    case Connection =>
      Take(q.(headerState := if c == 'k' then MatchingKeepAlive else if c == 'c' then MatchingClose
                             else if c == 'u' then MatchingConnectionUpgrade else Token))
    case TokenStart => Take(q)
    case _ => Take(q.(headerState := General))
  }

  /** One more digit of a content length. */
  function LengthDigit(p: Parser, ch: Byte): (a: Action)
    ensures !a.next.Failed? && ch != ' ' ==> IsNum(ch) && a.p.contentLength == 10 * p.contentLength
                                             + Digit(ch) < ULLONG_MAX
  {
    if ch == ' ' then Take(p)
    else if !IsNum(ch) then Fail(p, InvalidContentLength)
    else if (ULLONG_MAX - 10) / 10 < p.contentLength then Fail(p, InvalidContentLength)
    else Take(p.(contentLength := 10 * p.contentLength + Digit(ch)))
  }

  /** The flags of a token of a Connection header, or of the only transfer encoding that matters. */
  function FlagsOf(h: HeaderState, f: Flags): Flags
  {
    match h
    case KeepAlive => f.(keepAlive := true)
    case Close => f.(close := true)
    case ConnectionUpgrade => f.(connectionUpgrade := true)
    case Chunked => f.(chunked := true)
    case _ => f
  }

  function NextToken(p: Parser): Parser { p.(headerState := TokenStart, index := 0) }

  function FirstOfToken(c: Byte): HeaderState
  {
    if c == 'k' then MatchingKeepAlive else if c == 'c' then MatchingClose else if c == 'u'
        then MatchingConnectionUpgrade
    else if IsToken(c) then Token else if c == ' ' || c == '\t' then TokenStart else General
  }

  /** One more character of a value that matters. */
  function ValueChar(p: Parser, ch: Byte): Action
  {
    var c := Lower(ch);
    match p.headerState
    case General => Take(p)
    case ContentLength => LengthDigit(p, ch)
    case TokenStart => Take(p.(headerState := FirstOfToken(c)))
    case Token => Take(if ch == ',' then NextToken(p) else p)
    case Chunked => Take(if ch != ' ' then p.(headerState := General) else p)
    case _ =>
      if WordLength(p.headerState) > 0 then Take(MatchWord(p, c))
      else Take(if ch == ',' then NextToken(p.(flags := FlagsOf(p.headerState, p.flags)))
                else if ch != ' ' then p.(headerState := Token) else p)
  }

  /** A byte of a value. In a value that does not matter the characters behind the first one are skipped
      without a check; how much of such a value has been recognised is not kept with that error. */
  function ReadValue(p: Parser, skipping: bool, ch: Byte): Action
    requires Valid(p) && p.state == HeaderValue
  {
    if ch == '\r' then Action(p.(state := HeaderAlmostDone), false, Deliver(Value), Consume)
    else if ch == '\n' then Action(p.(state := HeaderAlmostDone), false, Deliver(Value), Again)
    else if !p.lenient && !skipping && !IsHeaderChar(ch) then Fail(p.(headerState := General), InvalidHeaderToken)
    else ValueChar(p, ch)
  }

  function BetweenValues(p: Parser, ch: Byte): Action
    requires InBetween(p.state)
  {
    var blank := ch == ' ' || ch == '\t';
    match p.state
    case ValueDiscardWs =>
      if blank then Go(p, p.state) else if ch == '\r' then Go(p, ValueDiscardWsAlmostDone)
      else if ch == '\n' then Go(p, ValueDiscardLws) else BeginValue(p, ch)
    case ValueStart => BeginValue(p, ch)
    case HeaderAlmostDone => if ch == '\n' then Go(p, ValueLws) else Fail(p, LfExpected)
    case ValueLws =>
      if blank then Redo(p.(state := ValueStart))
      else Redo(p.(flags := FlagsOf(p.headerState, p.flags), state := HeaderFieldStart))
    case ValueDiscardWsAlmostDone => Expect(p, ch, '\n', ValueDiscardLws)
    case _ =>
      if blank then Go(p, ValueDiscardWs)
      else Action(p.(flags := FlagsOf(p.headerState, p.flags), state := HeaderFieldStart), false, Deliver(Value), Again)
  }

  /** The empty line behind the headers. */
  function EndHeaders(p: Parser, ch: Byte): Action
    requires Valid(p) && (p.state == HeadersAlmostDone || p.state == HeadersDone)
  {
    var f := p.flags;
    if ch != '\n' then Fail(p, Strict)
    else if p.state == HeadersAlmostDone then
      if f.trailing then Action(p.(state := MessageDone), false, Notify(ChunkComplete), Again)
      else if f.chunked && f.contentLength then Fail(p, UnexpectedContentLength)
      else Action(p.(state := HeadersDone, upgrade := (f.upgrade && f.connectionUpgrade) || p.verb == CONNECT),
                  false, Notify(HeadersComplete), Again)
    else
      var hasBody := f.chunked || (p.contentLength > 0 && p.contentLength != ULLONG_MAX);
      if p.upgrade && (p.verb == CONNECT || f.skipBody || !hasBody) then Complete(p, Exit)
      else if f.skipBody then Complete(p, Consume)
      else if f.chunked then Go(p, ChunkSizeStart)
      else if p.contentLength == 0 then Complete(p, Consume)
      else if p.contentLength != ULLONG_MAX then Go(p, BodyIdentity)
      else if !MessageNeedsEof(p) then Complete(p, Consume)
      else Go(p, BodyIdentityEof)
  }

  function Complete(p: Parser, next: Then): Action
  {
    Action(p.(state := NewMessage(p)), false, Notify(MessageComplete), next)
  }

  /** What the answer of the headers_complete callback changes. */
  function Answered(p: Parser, code: nat): Parser
  {
    var q := if code == 2 then p.(upgrade := true) else p;
    if code == 1 || code == 2 then q.(flags := p.flags.(skipBody := true)) else q
  }

  // ---------- Bodies ----------

  function ReadBody(p: Parser, ch: Byte): Action
    requires Valid(p) && InBody(p.state)
  {
    match p.state
    case BodyIdentity =>
      var q := p.(contentLength := p.contentLength - 1);
      if q.contentLength == 0 then Action(q.(state := MessageDone), true, Deliver(Body), Again) else Take(q)
    case BodyIdentityEof => Take(p)
    case MessageDone => Complete(p, if p.upgrade then Exit else Consume)
    case ChunkData =>
      var q := p.(contentLength := p.contentLength - 1);
      Take(if q.contentLength == 0 then q.(state := ChunkDataAlmostDone) else q)
    case ChunkDataAlmostDone =>
      if ch == '\r' then Action(p.(state := ChunkDataDone), false, Deliver(Body), Consume) else Fail(p, Strict)
    case _ =>
      if ch == '\n' then Action(p.(state := ChunkSizeStart), false, Notify(ChunkComplete), Consume) else Fail(p, Strict)
  }

  function ReadChunkSize(p: Parser, ch: Byte): Action
    requires Valid(p) && InChunkSize(p.state)
  {
    var v := Unhex(ch);
    match p.state
    case ChunkSizeStart => if v.None? then Fail(p, InvalidChunkSize) else Go(p.(contentLength := v.value), ChunkSize)
    case ChunkSize =>
      if ch == '\r' then Go(p, ChunkSizeAlmostDone)
      else if v.None? then if ch == ';' || ch == ' ' then Go(p, ChunkParameters) else Fail(p, InvalidChunkSize)
      else if (ULLONG_MAX - 16) / 16 < p.contentLength then Fail(p, InvalidContentLength)
      else Go(p.(contentLength := 16 * p.contentLength + v.value), ChunkSize)
    case ChunkParameters => if ch == '\r' then Go(p, ChunkSizeAlmostDone) else Go(p, ChunkParameters)
    case _ =>
      if ch != '\n' then Fail(p, Strict)
      else
        var q := if p.contentLength == 0 then p.(flags := p.flags.(trailing := true), state := HeaderFieldStart)
                 else p.(state := ChunkData);
        Action(q, false, Notify(ChunkHeader(p.contentLength)), Consume)
  }

  // ---------- All states ----------

  function Transition(p: Parser, skipping: bool, ch: Byte): Action
    requires Valid(p)
  {
    var s := p.state;
    if InStart(s) then Start(p, ch)
    else if s.ReqMethod? then ReadMethod(p, ch)
    else if InVersion(s) then ReadVersion(p, ch)
    else if InStatus(s) then ReadStatus(p, ch)
    else if InConstant(s) then ReadConstant(p, ch)
    else if s.HeaderFieldStart? || s.HeaderField? then ReadName(p, ch)
    else if s.HeaderValue? then ReadValue(p, skipping, ch)
    else if InBetween(s) then BetweenValues(p, ch)
    else if s.HeadersAlmostDone? || s.HeadersDone? then EndHeaders(p, ch)
    else if InChunkSize(s) then ReadChunkSize(p, ch)
    else if InBody(s) then ReadBody(p, ch)
    else ReadUrl(p, ch)
  }

  /** How often a byte can still be looked at again. */
  function Rank(s: State): nat
  {
    match s
    case ValueLws | ValueDiscardLws => 4
    case HeaderFieldStart => 3
    case HeadersAlmostDone => 2
    case HeadersDone | StartReqOrRes | BodyIdentity | HeaderValue => 1
    case _ => 0
  }

  /** States in which the loop handles one byte at a time, whatever comes before. */
  predicate Ordinary(s: State)
  {
    !(s.ChunkSizeStart? || s.HeaderField? || s.HeaderValue? || s.ChunkData? || s.BodyIdentity? || s.BodyIdentityEof?)
  }

  /** States whose end starts the count of header bytes again. */
  predicate ResetsCount(s: State)
  {
    s.HeadersDone? || s.ChunkSizeAlmostDone? || s.ChunkDataDone?
  }

  /** An error in the bytes themselves. */
  predicate ParseError(e: Errno)
  {
    !(e.NoError? || e.HeaderOverflow? || e.Paused?)
  }

  /** An invalid character of a value is reported in a value only. */
  predicate ErrorInPlace(s: State, a: Action)
  {
    a.p.errno.InvalidHeaderToken? && a.p.state.HeaderValue? ==> s.HeaderValue?
  }

  /** A state in which no mark is needed yet. */
  predicate Unmarked(s: State)
  {
    KindOf(s) == NoString || s.BodyIdentity? || s.ChunkData? || s.BodyIdentityEof?
  }

  /** A byte that belongs to a string begins it or continues it. */
  predicate Continues(s: State, t: State)
  {
    KindOf(t) != NoString && (KindOf(s) == NoString || KindOf(s) == KindOf(t))
  }

  /** Strings begin and go on with their bytes, and are delivered when the states in which they are read end. */
  predicate StringsKept(s: State, a: Action)
  {
    match a.emit
    case Deliver(k) => k != NoString && KindOf(a.p.state) == NoString
        && (KindOf(s) == k || (KindOf(s) == NoString && !a.take))
    case Notify(_) => KindOf(s) == NoString && !a.take && Unmarked(a.p.state)
    case Nothing =>
      a.next.Failed?
      || if a.take then a.next.Consume? && Continues(s, a.p.state) else KindOf(s) == NoString && Unmarked(a.p.state)
  }

  /** What every action keeps: the assertions, the strings, and that a byte is looked at finitely often. */
  predicate Sound(p: Parser, a: Action)
  {
    && Valid(a.p)
    && (a.next.Again? ==> Rank(a.p.state) < Rank(p.state) && Ordinary(a.p.state))
    && (!a.next.Failed? && a.p.state.ChunkSizeStart? ==> ResetsCount(p.state))
    && (a.next.Failed? ==> ParseError(a.p.errno) && a.emit.Nothing? && ErrorInPlace(p.state, a))
    && (a.next.Exit? ==> a.emit.Notify?)
    && (!a.next.Failed? ==> a.p.errno == p.errno)
    && StringsKept(p.state, a)
  }

  /** States that Valid says nothing about. */
  predicate Calm(s: State)
  {
    !(s.ReqMethod? || s.HeaderField? || s.HeaderValue? || s.BodyIdentity? || s.ChunkData? || s.ChunkDataAlmostDone?
      || s.ChunkDataDone? || InChunkSize(s))
  }

  /** Actions without a callback. */
  predicate Quiet(p: Parser, a: Action)
  {
    && a.emit == Nothing
    && if a.next.Failed? then ParseError(a.p.errno) && ErrorInPlace(p.state, a)
       else
         && a.next.Consume? && a.p.errno == p.errno && !a.p.state.ChunkSizeStart?
         && if a.take then Continues(p.state, a.p.state) else KindOf(p.state) == NoString && Unmarked(a.p.state)
  }

  lemma QuietSound(p: Parser, a: Action)
    requires Valid(a.p) && Quiet(p, a)
    ensures Sound(p, a)
  {
  }

  lemma CalmSound(p: Parser, a: Action)
    requires Calm(a.p.state) && a.p.contentLength <= ULLONG_MAX && Quiet(p, a)
    ensures Sound(p, a)
  {
    QuietSound(p, a);
  }

  lemma WordSound(p: Parser, c: Byte)
    requires 0 < p.index + 1 < WordLength(p.headerState)
    ensures var q := MatchWord(p, c);
            q == p.(index := q.index, headerState := q.headerState)
            && (q.headerState == Found(p.headerState) || q.headerState == Missed(p.headerState)
                || (q.headerState == p.headerState && q.index + 1 < WordLength(q.headerState)))
  {
    assert |Word(p.headerState)| == WordLength(p.headerState);
  }

  lemma NameWordSound(p: Parser, c: Byte)
    requires Valid(p) && p.state.HeaderField? && WordLength(p.headerState) > 0
    ensures var q := NameChar(p, c); Valid(q) && q.state.HeaderField? && q.errno == p.errno
  {
    hide MatchWord, Word;
    WordSound(p, c);
  }

  lemma NameSound(p: Parser, c: Byte)
    requires Valid(p) && p.state.HeaderField?
    ensures var q := NameChar(p, c); Valid(q) && q.state.HeaderField? && q.errno == p.errno
  {
    hide MatchWord;
    if WordLength(p.headerState) > 0 { NameWordSound(p, c); }
  }

  predicate ValueGoesOn(p: Parser, a: Action)
  {
    Valid(a.p) && a.p.state.HeaderValue? && a.p.errno == p.errno && a.take && a.emit.Nothing? && a.next.Consume?
  }

  lemma ValueWordSound(p: Parser, ch: Byte)
    requires Valid(p) && p.state.HeaderValue? && WordLength(p.headerState) > 0
    ensures ValueGoesOn(p, ValueChar(p, ch))
  {
    hide MatchWord, Word, Lower;
    WordSound(p, Lower(ch));
  }

  lemma TokenSound(p: Parser, ch: Byte)
    requires Valid(p) && p.state.HeaderValue? && WordLength(p.headerState) == 0 && !p.headerState.ContentLength?
    ensures ValueGoesOn(p, ValueChar(p, ch))
  {
  }

  lemma LengthSound(p: Parser, ch: Byte)
    requires Valid(p) && p.state.HeaderValue? && p.headerState.ContentLength?
    ensures ValueGoesOn(p, ValueChar(p, ch)) || ValueChar(p, ch) == Fail(p, InvalidContentLength)
  {
  }

  lemma ValueSound(p: Parser, ch: Byte)
    requires Valid(p) && p.state.HeaderValue?
    ensures ValueGoesOn(p, ValueChar(p, ch)) || ValueChar(p, ch) == Fail(p, InvalidContentLength)
  {
    hide ValueChar;
    if WordLength(p.headerState) > 0 { ValueWordSound(p, ch); }
    else if p.headerState.ContentLength? { LengthSound(p, ch); }
    else { TokenSound(p, ch); }
  }

  lemma ValueEndSound(p: Parser, skipping: bool, ch: Byte)
    requires Valid(p) && p.state.HeaderValue? && (ch == '\r' || ch == '\n')
    ensures Sound(p, ReadValue(p, skipping, ch))
  {
    hide ValueChar, IsHeaderChar;
  }

  lemma GoesOnSound(p: Parser, a: Action)
    requires p.state.HeaderValue? && (ValueGoesOn(p, a)
        || (Valid(a.p) && a == Fail(a.p, a.p.errno) && ParseError(a.p.errno)
                                                                    && ErrorInPlace(p.state, a)))
    ensures Sound(p, a)
  {
    hide Sound;
    QuietSound(p, a);
  }

  lemma ReadValueSound(p: Parser, skipping: bool, ch: Byte)
    requires Valid(p) && p.state.HeaderValue?
    ensures Sound(p, ReadValue(p, skipping, ch))
  {
    hide ValueChar, IsHeaderChar;
    if ch == '\r' || ch == '\n' {
      ValueEndSound(p, skipping, ch);
    } else {
      ValueSound(p, ch);
      GoesOnSound(p, ReadValue(p, skipping, ch));
    }
  }

  lemma NameEndSound(p: Parser, ch: Byte)
    requires Valid(p) && p.state.HeaderField? && !IsToken(ch)
    ensures Sound(p, ReadName(p, ch))
  {
    hide IsToken, NameChar, TokenOf, IsAlpha, WordLength, InWord;
  }

  lemma NameGoesOnSound(p: Parser, q: Parser)
    requires p.state.HeaderField? && Valid(q) && q.state.HeaderField? && q.errno == p.errno
    ensures Sound(p, Take(q))
  {
  }

  lemma ReadNameSound(p: Parser, ch: Byte)
    requires Valid(p) && p.state.HeaderField?
    ensures Sound(p, ReadName(p, ch))
  {
    hide NameChar, Sound, Valid, IsToken, TokenOf;
    if IsToken(ch) {
      NameSound(p, TokenOf(ch));
      NameGoesOnSound(p, NameChar(p, TokenOf(ch)));
    } else {
      NameEndSound(p, ch);
    }
  }

  lemma BeginNameSound(p: Parser, ch: Byte)
    requires Valid(p) && p.state.HeaderFieldStart?
    ensures Sound(p, ReadName(p, ch))
  {
    hide IsToken, TokenOf;
  }

  lemma OtherMethodFits(m: Method, index: nat, ch: Byte)
    ensures OtherMethod(m, index, ch).Some? ==> index + 1 <= NameLength(OtherMethod(m, index, ch).value)
  {
  }

  lemma MethodFits(p: Parser, ch: Byte)
    requires Valid(p) && p.state.ReqMethod?
    ensures Valid(ReadMethod(p, ch).p)
  {
    hide OtherMethod, MethodName, IsAlpha;
    NameLengthIs(p.verb);
    OtherMethodFits(p.verb, p.index, ch);
  }

  lemma MethodQuiet(p: Parser, ch: Byte)
    requires Valid(p) && p.state.ReqMethod?
    ensures Quiet(p, ReadMethod(p, ch))
  {
    hide OtherMethod, MethodName, IsAlpha, NameLength;
  }

  lemma MethodSound(p: Parser, ch: Byte)
    requires Valid(p) && p.state.ReqMethod?
    ensures Sound(p, ReadMethod(p, ch))
  {
    hide ReadMethod, Sound;
    MethodFits(p, ch);
    MethodQuiet(p, ch);
    QuietSound(p, ReadMethod(p, ch));
  }

  lemma FirstSound(p: Parser, ch: Byte)
    requires Valid(p) && (p.state.Dead? || p.state.StartRes? || p.state.ResOrRespH?)
    ensures Sound(p, Start(p, ch))
  {
  }

  lemma RequestSound(p: Parser, ch: Byte)
    requires Valid(p) && (p.state.StartReqOrRes? || p.state.StartReq?)
    ensures Sound(p, Start(p, ch))
  {
    hide IsAlpha, FirstGuess, Lower;
  }

  lemma StartSound(p: Parser, ch: Byte)
    requires Valid(p) && InStart(p.state)
    ensures Sound(p, Start(p, ch))
  {
    hide Start, Sound;
    if p.state.StartReqOrRes? || p.state.StartReq? { RequestSound(p, ch); } else { FirstSound(p, ch); }
  }

  lemma UrlCharSound(s: State, ch: Byte)
    ensures ParseUrlChar(s, ch).Dead? || InUrl(ParseUrlChar(s, ch))
  {
  }

  lemma UrlByteSound(p: Parser, s: State, ch: Byte)
    requires Valid(p) && (p.state.ReqSpacesBeforeUrl? || InUrl(p.state))
    ensures Sound(p, UrlByte(p, s, ch))
  {
    hide ParseUrlChar, Sound;
    UrlCharSound(s, ch);
    CalmSound(p, UrlByte(p, s, ch));
  }

  predicate InServer(s: State) { s.ReqSchema? || s.ReqSchemaSlash? || s.ReqSchemaSlashSlash? || s.ReqServerStart? }

  lemma ServerSound(p: Parser, ch: Byte)
    requires Valid(p) && (p.state.ReqSpacesBeforeUrl? || InServer(p.state))
    ensures Sound(p, ReadUrl(p, ch))
  {
    hide UrlByte;
    UrlByteSound(p, p.state, ch);
    UrlByteSound(p, ReqServerStart, ch);
  }

  lemma UrlSound(p: Parser, ch: Byte)
    requires Valid(p) && (p.state.ReqSpacesBeforeUrl? || InUrl(p.state))
    ensures Sound(p, ReadUrl(p, ch))
  {
    if p.state.ReqSpacesBeforeUrl? || InServer(p.state) {
      ServerSound(p, ch);
    } else {
      hide UrlByte;
      UrlByteSound(p, p.state, ch);
    }
  }

  lemma BeginSound(p: Parser, ch: Byte)
    requires Valid(p) && (p.state.ValueDiscardWs? || p.state.ValueStart?)
    ensures Sound(p, BeginValue(p, ch))
  {
    hide Lower, FirstOfToken;
  }

  lemma DiscardSound(p: Parser, ch: Byte)
    requires Valid(p) && (p.state.ValueDiscardWsAlmostDone? || p.state.ValueDiscardLws?)
    ensures Sound(p, BetweenValues(p, ch))
  {
    hide FlagsOf, WordLength;
  }

  lemma LwsSound(p: Parser, ch: Byte)
    requires Valid(p) && (p.state.ValueLws? || p.state.HeaderAlmostDone?)
    ensures Sound(p, BetweenValues(p, ch))
  {
  }

  predicate BeforeValue(s: State, ch: Byte)
  {
    s.ValueDiscardWs? && (ch == ' ' || ch == '\t' || ch == '\r' || ch == '\n')
  }

  lemma BlankSound(p: Parser, ch: Byte)
    requires Valid(p) && BeforeValue(p.state, ch)
    ensures Sound(p, BetweenValues(p, ch))
  {
    hide BeginValue;
  }

  lemma WsSound(p: Parser, ch: Byte)
    requires Valid(p) && (p.state.ValueDiscardWs? || p.state.ValueStart?)
    ensures Sound(p, BetweenValues(p, ch))
  {
    hide BeginValue;
    if BeforeValue(p.state, ch) { BlankSound(p, ch); } else { BeginSound(p, ch); }
  }

  lemma BetweenSound(p: Parser, ch: Byte)
    requires Valid(p) && InBetween(p.state)
    ensures Sound(p, BetweenValues(p, ch))
  {
    if p.state.ValueDiscardWsAlmostDone? || p.state.ValueDiscardLws? {
      DiscardSound(p, ch);
    } else if p.state.ValueLws? || p.state.HeaderAlmostDone? {
      LwsSound(p, ch);
    } else {
      WsSound(p, ch);
    }
  }

  lemma AlmostDoneSound(p: Parser, ch: Byte)
    requires Valid(p) && p.state.HeadersAlmostDone?
    ensures Sound(p, EndHeaders(p, ch))
  {
    hide NewMessage, MessageNeedsEof, Complete;
  }

  lemma CompleteSound(p: Parser, next: Then)
    requires Valid(p) && (p.state.HeadersDone? || p.state.MessageDone?) && (next.Exit? || next.Consume?)
    ensures Sound(p, Complete(p, next))
  {
    assert NewMessage(p).Dead? || NewMessage(p).StartReq? || NewMessage(p).StartRes?;
    hide NewMessage;
  }

  lemma ChunksBeginSound(p: Parser)
    requires Valid(p) && p.state.HeadersDone? && p.flags.chunked
    ensures Sound(p, Go(p, ChunkSizeStart))
  {
  }

  lemma HeadersDoneSound(p: Parser, ch: Byte)
    requires Valid(p) && p.state.HeadersDone?
    ensures Sound(p, EndHeaders(p, ch))
  {
    hide Sound, Complete, NewMessage, MessageNeedsEof;
    CompleteSound(p, Exit);
    CompleteSound(p, Consume);
    var a := EndHeaders(p, ch);
    if a != Complete(p, Exit) && a != Complete(p, Consume) {
      if a == Go(p, ChunkSizeStart) { ChunksBeginSound(p); } else { QuietSound(p, a); }
    }
  }

  lemma EndSound(p: Parser, ch: Byte)
    requires Valid(p) && (p.state.HeadersAlmostDone? || p.state.HeadersDone?)
    ensures Sound(p, EndHeaders(p, ch))
  {
    hide EndHeaders;
    if p.state.HeadersDone? { HeadersDoneSound(p, ch); } else { AlmostDoneSound(p, ch); }
  }

  lemma IdentitySound(p: Parser, ch: Byte)
    requires Valid(p) && (p.state.BodyIdentity? || p.state.BodyIdentityEof? || p.state.MessageDone?)
    ensures Sound(p, ReadBody(p, ch))
  {
  }

  lemma ChunkDataSound(p: Parser, ch: Byte)
    requires Valid(p) && p.state.ChunkData?
    ensures Sound(p, ReadBody(p, ch))
  {
    hide Sound, Complete;
    QuietSound(p, ReadBody(p, ch));
  }

  lemma ChunkEndSound(p: Parser, ch: Byte)
    requires Valid(p) && (p.state.ChunkDataAlmostDone? || p.state.ChunkDataDone?)
    ensures Sound(p, ReadBody(p, ch))
  {
    hide Complete;
  }

  lemma ChunkSound(p: Parser, ch: Byte)
    requires Valid(p) && (p.state.ChunkData? || p.state.ChunkDataAlmostDone? || p.state.ChunkDataDone?)
    ensures Sound(p, ReadBody(p, ch))
  {
    hide Sound, ReadBody, Valid;
    if p.state.ChunkData? { ChunkDataSound(p, ch); } else { ChunkEndSound(p, ch); }
  }

  lemma BodySound(p: Parser, ch: Byte)
    requires Valid(p) && InBody(p.state)
    ensures Sound(p, ReadBody(p, ch))
  {
    if p.state.BodyIdentity? || p.state.BodyIdentityEof? || p.state.MessageDone? {
      IdentitySound(p, ch);
    } else {
      ChunkSound(p, ch);
    }
  }

  lemma SizeStartSound(p: Parser, ch: Byte)
    requires Valid(p) && p.state.ChunkSizeStart?
    ensures Sound(p, ReadChunkSize(p, ch))
  {
    assert Unhex(ch).Some? ==> Unhex(ch).value < 16;
    hide Unhex, Sound;
    QuietSound(p, ReadChunkSize(p, ch));
  }

  lemma SizeMoreSound(p: Parser, ch: Byte)
    requires Valid(p) && p.state.ChunkSize?
    ensures Sound(p, ReadChunkSize(p, ch))
  {
    assert Unhex(ch).Some? ==> Unhex(ch).value < 16;
    hide Unhex, Sound;
    QuietSound(p, ReadChunkSize(p, ch));
  }

  lemma SizeSound(p: Parser, ch: Byte)
    requires Valid(p) && (p.state.ChunkSizeStart? || p.state.ChunkSize?)
    ensures Sound(p, ReadChunkSize(p, ch))
  {
    hide ReadChunkSize, Sound, Valid;
    if p.state.ChunkSizeStart? { SizeStartSound(p, ch); } else { SizeMoreSound(p, ch); }
  }

  lemma SizeEndSound(p: Parser, ch: Byte)
    requires Valid(p) && (p.state.ChunkParameters? || p.state.ChunkSizeAlmostDone?)
    ensures Sound(p, ReadChunkSize(p, ch))
  {
    hide Unhex;
  }

  lemma ChunkSizeSound(p: Parser, ch: Byte)
    requires Valid(p) && InChunkSize(p.state)
    ensures Sound(p, ReadChunkSize(p, ch))
  {
    if p.state.ChunkSizeStart? || p.state.ChunkSize? { SizeSound(p, ch); } else { SizeEndSound(p, ch); }
  }

  lemma FirstDigitSound(p: Parser, ch: Byte)
    requires Valid(p) && (p.state.ResFirstMajor? || p.state.ReqFirstMajor? || p.state.ResFirstMinor?
        || p.state.ReqFirstMinor?)
    ensures Sound(p, ReadVersion(p, ch))
  {
    hide Sound, IsNum, Digit;
    CalmSound(p, ReadVersion(p, ch));
  }

  lemma MajorSound(p: Parser, ch: Byte)
    requires Valid(p) && (p.state.ResMajor? || p.state.ReqMajor?)
    ensures Sound(p, ReadVersion(p, ch))
  {
    hide Sound, IsNum, MoreDigits, Digit;
    CalmSound(p, ReadVersion(p, ch));
  }

  lemma MinorSound(p: Parser, ch: Byte)
    requires Valid(p) && (p.state.ResMinor? || p.state.ReqMinor?)
    ensures Sound(p, ReadVersion(p, ch))
  {
    hide Sound, IsNum, MoreDigits, Digit;
    CalmSound(p, ReadVersion(p, ch));
  }

  lemma VersionSound(p: Parser, ch: Byte)
    requires Valid(p) && InVersion(p.state)
    ensures Sound(p, ReadVersion(p, ch))
  {
    if p.state.ResFirstMajor? || p.state.ReqFirstMajor? || p.state.ResFirstMinor? || p.state.ReqFirstMinor? {
      FirstDigitSound(p, ch);
    } else if p.state.ResMajor? || p.state.ReqMajor? {
      MajorSound(p, ch);
    } else {
      MinorSound(p, ch);
    }
  }

  lemma StatusCodeSound(p: Parser, ch: Byte)
    requires Valid(p) && (p.state.ResFirstStatusCode? || p.state.ResStatusCode?)
    ensures Sound(p, ReadStatus(p, ch))
  {
    hide Sound, IsNum, MoreDigits, Digit;
    CalmSound(p, ReadStatus(p, ch));
  }

  lemma StatusBytesSound(p: Parser, ch: Byte)
    requires Valid(p) && p.state.ResStatus?
    ensures Sound(p, ReadStatus(p, ch))
  {
    hide IsNum, MoreDigits;
  }

  lemma StatusTextSound(p: Parser, ch: Byte)
    requires Valid(p) && (p.state.ResStatusStart? || p.state.ResStatus? || p.state.ResLineAlmostDone?)
    ensures Sound(p, ReadStatus(p, ch))
  {
    hide Sound;
    if p.state.ResStatus? { StatusBytesSound(p, ch); } else { CalmSound(p, ReadStatus(p, ch)); }
  }

  lemma StatusSound(p: Parser, ch: Byte)
    requires Valid(p) && InStatus(p.state)
    ensures Sound(p, ReadStatus(p, ch))
  {
    if p.state.ResFirstStatusCode? || p.state.ResStatusCode? {
      StatusCodeSound(p, ch);
    } else {
      StatusTextSound(p, ch);
    }
  }

  lemma ResConstantSound(p: Parser, ch: Byte)
    requires Valid(p) && (p.state.ResH? || p.state.ResHT? || p.state.ResHTT? || p.state.ResHTTP?)
    ensures Sound(p, ReadConstant(p, ch))
  {
    hide Sound;
    CalmSound(p, ReadConstant(p, ch));
  }

  lemma ReqConstantSound(p: Parser, ch: Byte)
    requires Valid(p) && (p.state.ReqHttpStart? || p.state.ReqHttpH? || p.state.ReqHttpHT?)
    ensures Sound(p, ReadConstant(p, ch))
  {
    hide Sound;
    CalmSound(p, ReadConstant(p, ch));
  }

  lemma ReqConstantEndSound(p: Parser, ch: Byte)
    requires Valid(p) && (p.state.ReqHttpHTT? || p.state.ReqHttpHTTP? || p.state.ReqLineAlmostDone?)
    ensures Sound(p, ReadConstant(p, ch))
  {
    hide Sound;
    CalmSound(p, ReadConstant(p, ch));
  }

  lemma ConstantSound(p: Parser, ch: Byte)
    requires Valid(p) && InConstant(p.state)
    ensures Sound(p, ReadConstant(p, ch))
  {
    if p.state.ResH? || p.state.ResHT? || p.state.ResHTT? || p.state.ResHTTP? {
      ResConstantSound(p, ch);
    } else if p.state.ReqHttpStart? || p.state.ReqHttpH? || p.state.ReqHttpHT? {
      ReqConstantSound(p, ch);
    } else {
      ReqConstantEndSound(p, ch);
    }
  }

  lemma EveryStepSound(p: Parser, skipping: bool, ch: Byte)
    requires Valid(p)
    ensures Sound(p, Transition(p, skipping, ch))
  {
    hide Sound, Start, ReadMethod, ReadVersion, ReadStatus, ReadConstant, ReadName, ReadValue, BetweenValues,
        EndHeaders, ReadChunkSize, ReadBody, ReadUrl;
    var s := p.state;
    if InStart(s) { StartSound(p, ch); }
    else if s.ReqMethod? { MethodSound(p, ch); }
    else if InVersion(s) { VersionSound(p, ch); }
    else if InStatus(s) { StatusSound(p, ch); }
    else if InConstant(s) { ConstantSound(p, ch); }
    else if s.HeaderFieldStart? { BeginNameSound(p, ch); }
    else if s.HeaderField? { ReadNameSound(p, ch); }
    else if s.HeaderValue? { ReadValueSound(p, skipping, ch); }
    else if InBetween(s) { BetweenSound(p, ch); }
    else if s.HeadersAlmostDone? || s.HeadersDone? { EndSound(p, ch); }
    else if InChunkSize(s) { ChunkSizeSound(p, ch); }
    else if InBody(s) { BodySound(p, ch); }
    else { UrlSound(p, ch); }
  }
}
