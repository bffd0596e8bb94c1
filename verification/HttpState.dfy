/** The record and the character classes of src/http-parser/http_parser.c, compiled with its strict checks. */
module HttpState {
  import opened Options

  type Byte = c: char | c as int < 256

  const ULLONG_MAX: nat := 0xFFFF_FFFF_FFFF_FFFF
  const MAX_HEADER_SIZE: nat := 81920

  datatype ParserType = Request | Response | Both

  datatype State =
    | Dead
    | StartReqOrRes | ResOrRespH
    | StartRes | ResH | ResHT | ResHTT | ResHTTP
    | ResFirstMajor | ResMajor | ResFirstMinor | ResMinor
    | ResFirstStatusCode | ResStatusCode | ResStatusStart | ResStatus | ResLineAlmostDone
    | StartReq | ReqMethod | ReqSpacesBeforeUrl
    | ReqSchema | ReqSchemaSlash | ReqSchemaSlashSlash | ReqServerStart | ReqServer | ReqServerWithAt
    | ReqPath | ReqQueryStart | ReqQuery | ReqFragmentStart | ReqFragment
    | ReqHttpStart | ReqHttpH | ReqHttpHT | ReqHttpHTT | ReqHttpHTTP
    | ReqFirstMajor | ReqMajor | ReqFirstMinor | ReqMinor | ReqLineAlmostDone
    | HeaderFieldStart | HeaderField
    | ValueDiscardWs | ValueDiscardWsAlmostDone | ValueDiscardLws | ValueStart | HeaderValue | ValueLws
    | HeaderAlmostDone
    | ChunkSizeStart | ChunkSize | ChunkParameters | ChunkSizeAlmostDone
    | HeadersAlmostDone | HeadersDone
    | ChunkData | ChunkDataAlmostDone | ChunkDataDone
    | BodyIdentity | BodyIdentityEof
    | MessageDone

  /** What the name and the value of the current header have been recognised as so far. */
  datatype HeaderState =
    | General | C | CO | CON
    | MatchingConnection | MatchingProxyConnection | MatchingContentLength | MatchingTransferEncoding | MatchingUpgrade
    | Connection | ContentLength | TransferEncoding | Upgrade
    | MatchingChunked | TokenStart | MatchingKeepAlive | MatchingClose | MatchingConnectionUpgrade | Token
    | Chunked | KeepAlive | Close | ConnectionUpgrade

  datatype Method =
    | DELETE | GET | HEAD | POST | PUT | CONNECT | OPTIONS | TRACE | COPY | LOCK | MKCOL | MOVE | PROPFIND | PROPPATCH
    | SEARCH | UNLOCK | BIND | REBIND | UNBIND | ACL | REPORT | MKACTIVITY | CHECKOUT | MERGE | MSEARCH | NOTIFY
    | SUBSCRIBE | UNSUBSCRIBE | PATCH | PURGE | MKCALENDAR | LINK | UNLINK

  datatype Flags = Flags(chunked: bool, keepAlive: bool, close: bool, connectionUpgrade: bool, trailing: bool,
                         upgrade: bool, skipBody: bool, contentLength: bool)

  const NO_FLAGS := Flags(false, false, false, false, false, false, false, false)

  /** The strings that are delivered in pieces, and the callbacks without data. */
  datatype Kind = NoString | Url | Status | Field | Value | Body

  datatype Note = MessageBegin | HeadersComplete | ChunkHeader(length: nat) | ChunkComplete | MessageComplete

  datatype Errno =
    | NoError | NoteFailed(note: Note) | DataFailed(kind: Kind)
    | InvalidEofState | HeaderOverflow | ClosedConnection | InvalidVersion | InvalidStatus | InvalidMethod | InvalidUrl
    | LfExpected | InvalidHeaderToken | InvalidContentLength | UnexpectedContentLength | InvalidChunkSize
    | InvalidConstant | Strict | Paused

  /** struct http_parser, without the count of header bytes. */
  datatype Parser = Parser(kind: ParserType, lenient: bool, state: State, headerState: HeaderState, index: nat,
      flags: Flags, contentLength: nat, major: nat, minor: nat, statusCode: nat, verb: Method, errno: Errno,
      upgrade: bool)

  /** http_parser_init. */
  function Init(kind: ParserType, lenient: bool): (p: Parser)
    ensures Valid(p)
  {
    var start := match kind { case Request => StartReq case Response => StartRes case Both => StartReqOrRes };
    Parser(kind, lenient, start, General, 0, NO_FLAGS, 0, 0, 0, 0, DELETE, NoError, false)
  }

  predicate ParsingHeader(s: State)
  {
    !(s.ChunkData? || s.ChunkDataAlmostDone? || s.ChunkDataDone? || s.BodyIdentity? || s.BodyIdentityEof?
        || s.MessageDone?)
  }

  /** The string whose bytes are being read in that state. */
  function KindOf(s: State): Kind
  {
    if InUrl(s) then Url
    else if s.ResStatus? then Status
    else if s.HeaderField? then Field
    else if s.HeaderValue? then Value
    else if s.ChunkData? || s.ChunkDataAlmostDone? || s.BodyIdentity? || s.BodyIdentityEof? then Body
    else NoString
  }

  predicate InUrl(s: State)
  {
    s.ReqSchema? || s.ReqSchemaSlash? || s.ReqSchemaSlashSlash? || s.ReqServerStart? || s.ReqServer?
    || s.ReqServerWithAt? || s.ReqPath? || s.ReqQueryStart? || s.ReqQuery? || s.ReqFragmentStart? || s.ReqFragment?
  }

  // ---------- Words ----------

  function MethodName(m: Method): string
  {
    match m
    case DELETE => "DELETE" case GET => "GET" case HEAD => "HEAD" case POST => "POST" case PUT => "PUT"
    case CONNECT => "CONNECT" case OPTIONS => "OPTIONS" case TRACE => "TRACE" case COPY => "COPY" case LOCK => "LOCK"
    case MKCOL => "MKCOL" case MOVE => "MOVE" case PROPFIND => "PROPFIND" case PROPPATCH => "PROPPATCH"
    case SEARCH => "SEARCH" case UNLOCK => "UNLOCK" case BIND => "BIND" case REBIND => "REBIND" case UNBIND => "UNBIND"
    case ACL => "ACL" case REPORT => "REPORT" case MKACTIVITY => "MKACTIVITY" case CHECKOUT => "CHECKOUT"
    case MERGE => "MERGE" case MSEARCH => "M-SEARCH" case NOTIFY => "NOTIFY" case SUBSCRIBE => "SUBSCRIBE"
    case UNSUBSCRIBE => "UNSUBSCRIBE" case PATCH => "PATCH" case PURGE => "PURGE" case MKCALENDAR => "MKCALENDAR"
    case LINK => "LINK" case UNLINK => "UNLINK"
  }

  /** The word that is being matched, in a name or in a value. */
  function Word(h: HeaderState): string
  {
    match h
    case MatchingConnection => "connection"
    case MatchingProxyConnection => "proxy-connection"
    case MatchingContentLength => "content-length"
    case MatchingTransferEncoding => "transfer-encoding"
    case MatchingUpgrade | MatchingConnectionUpgrade => "upgrade"
    case MatchingChunked => "chunked"
    case MatchingKeepAlive => "keep-alive"
    case MatchingClose => "close"
    case _ => ""
  }

  /** The states that a header name can be in, and those of a header value. */
  predicate NameState(h: HeaderState)
  {
    h.General? || h.C? || h.CO? || h.CON? || h.MatchingConnection? || h.MatchingProxyConnection?
    || h.MatchingContentLength? || h.MatchingTransferEncoding? || h.MatchingUpgrade? || h.Connection?
    || h.ContentLength? || h.TransferEncoding? || h.Upgrade?
  }

  predicate ValueState(h: HeaderState)
  {
    h.General? || h.ContentLength? || h.MatchingChunked? || h.TokenStart? || h.MatchingKeepAlive? || h.MatchingClose?
    || h.MatchingConnectionUpgrade? || h.Token? || h.Chunked? || h.KeepAlive? || h.Close? || h.ConnectionUpgrade?
  }

  /** The lengths of these words. */
  function WordLength(h: HeaderState): nat
  {
    if h.MatchingConnection? || h.MatchingKeepAlive? then 10
    else if h.MatchingProxyConnection? then 16
    else if h.MatchingContentLength? then 14
    else if h.MatchingTransferEncoding? then 17
    else if h.MatchingUpgrade? || h.MatchingConnectionUpgrade? || h.MatchingChunked? then 7
    else if h.MatchingClose? then 5
    else 0
  }

  function NameLength(m: Method): nat
  {
    if m.MKACTIVITY? || m.MKCALENDAR? then 10
    else if m.SUBSCRIBE? || m.PROPPATCH? then 9
    else if m.UNSUBSCRIBE? then 11
    else if m.PROPFIND? || m.CHECKOUT? || m.MSEARCH? then 8
    else if m.CONNECT? || m.OPTIONS? then 7
    else if m.DELETE? || m.SEARCH? || m.UNLOCK? || m.REBIND? || m.UNBIND? || m.REPORT? || m.NOTIFY? || m.UNLINK? then 6
    else if m.TRACE? || m.MKCOL? || m.MERGE? || m.PATCH? || m.PURGE? then 5
    else if m.HEAD? || m.POST? || m.COPY? || m.LOCK? || m.MOVE? || m.BIND? || m.LINK? then 4
    else 3
  }

  lemma NameLengthIs(m: Method)
    ensures |MethodName(m)| == NameLength(m)
  {
  }

  /** Inside of a word, the index is that of a character of it but the last; the other indices are those
      at which the matching of a word begins. */
  predicate InWord(h: HeaderState, index: nat)
  {
    && (h.C? || h.TokenStart? ==> index == 0)
    && (h.CO? ==> index == 1)
    && (h.CON? ==> index == 2)
    && (WordLength(h) > 0 ==> index + 1 < WordLength(h))
  }

  predicate InChunkSize(s: State)
  {
    s.ChunkSizeStart? || s.ChunkSize? || s.ChunkParameters? || s.ChunkSizeAlmostDone?
  }

  /** What holds between two bytes, and what the assertions in the code are about. */
  predicate Valid(p: Parser)
  {
    && p.contentLength <= ULLONG_MAX
    && (p.state.ReqMethod? ==> p.index <= NameLength(p.verb))
    && (p.state.HeaderField? ==> NameState(p.headerState) && InWord(p.headerState, p.index))
    && (p.state.HeaderValue? ==> ValueState(p.headerState) && InWord(p.headerState, p.index))
    && (p.state.BodyIdentity? || p.state.ChunkData? ==> 0 < p.contentLength < ULLONG_MAX)
    && (p.state.ChunkDataAlmostDone? ==> p.contentLength == 0)
    && (InChunkSize(p.state) || p.state.ChunkData? || p.state.ChunkDataAlmostDone? || p.state.ChunkDataDone? ==>
        p.flags.chunked)
    && (InChunkSize(p.state) && !p.state.ChunkSizeStart? ==> p.contentLength < ULLONG_MAX)
  }

  // ---------- Characters ----------

  function Lower(c: Byte): Byte
  {
    if c as int / 32 % 2 == 0 then (c as int + 32) as char else c
  }

  predicate IsAlpha(c: Byte) { 'a' <= Lower(c) <= 'z' }

  predicate IsNum(c: Byte) { '0' <= c <= '9' }

  predicate IsAlphanum(c: Byte) { IsAlpha(c) || IsNum(c) }

  predicate IsMark(c: Byte)
  {
    c == '-' || c == '_' || c == '.' || c == '!' || c == '~' || c == '*' || c == '\'' || c == '(' || c == ')'
  }

  predicate IsUserinfoChar(c: Byte)
  {
    IsAlphanum(c) || IsMark(c)
    || c == '%' || c == ';' || c == ':' || c == '&' || c == '=' || c == '+' || c == '$' || c == ','
  }

  /** normal_url_char. */
  predicate IsUrlChar(c: Byte) { '!' <= c <= '~' && c != '#' && c != '?' }

  predicate IsHeaderChar(c: Byte) { c == '\r' || c == '\n' || c == '\t' || (c > '\U{1F}' && c != '\U{7F}') }

  predicate IsToken(c: Byte)
  {
    IsNum(c) || 'A' <= c <= 'Z' || 'a' <= c <= 'z'
    || c == '!' || c == '#' || c == '$' || c == '%' || c == '&' || c == '\'' || c == '*' || c == '+' || c == '-'
    || c == '.' || c == '^' || c == '_' || c == '`' || c == '|' || c == '~'
  }

  /** tokens[]: the character of a token in lower case. */
  function TokenOf(c: Byte): Byte
    requires IsToken(c)
  {
    if 'A' <= c <= 'Z' then Lower(c) else c
  }

  /** unhex[]. */
  function Unhex(c: Byte): Option<nat>
  {
    if '0' <= c <= '9' then Some(c as int - '0' as int)
    else if 'a' <= c <= 'f' then Some(c as int - 'a' as int + 10)
    else if 'A' <= c <= 'F' then Some(c as int - 'A' as int + 10)
    else None
  }

  function Digit(c: Byte): (d: nat)
    requires IsNum(c)
    ensures d <= 9
  {
    c as int - '0' as int
  }

  // ---------- The message ----------

  /** http_message_needs_eof. */
  predicate MessageNeedsEof(p: Parser)
  {
    p.kind != Request
    && !(p.statusCode / 100 == 1 || p.statusCode == 204 || p.statusCode == 304 || p.flags.skipBody)
    && !(p.flags.chunked || p.contentLength != ULLONG_MAX)
  }

  /** http_should_keep_alive. */
  predicate ShouldKeepAlive(p: Parser)
  {
    (if p.major > 0 && p.minor > 0 then !p.flags.close else p.flags.keepAlive) && !MessageNeedsEof(p)
  }

  /** NEW_MESSAGE. */
  function NewMessage(p: Parser): State
  {
    if !ShouldKeepAlive(p) then Dead else if p.kind == Request then StartReq else StartRes
  }
}
