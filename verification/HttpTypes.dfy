/** The data of the streaming HTTP parser: bytes and character classes, the two state
    enumerations, the parser record, and the callbacks it reports. */
module HttpTypes {
  import opened Common

  /** One octet of the input stream. */
  type byte = c: char | c as int < 0x100

  const CR: byte := '\r'
  const LF: byte := '\n'
  const TAB: byte := '\t'
  const FORM_FEED: byte := 12 as char

  /** Content-Length is a 64-bit register; its largest value means "none declared". */
  const NO_LENGTH: nat := UINT64_MODULUS - 1

  /** nread and the header limit are 32-bit registers. */
  const UINT32_MODULUS: nat := 0x1_0000_0000

  // ------------------------------------------------------------------ characters

  /** The source's LOWER: bit 0x20 is set, whatever the character is. */
  function Lower(ch: byte): byte {
    if (ch as int / 32) % 2 == 1 then ch else (ch as int + 32) as char
  }

  predicate IsAlpha(ch: byte) { 'a' <= Lower(ch) <= 'z' }

  predicate IsNum(ch: byte) { '0' <= ch <= '9' }

  predicate IsAlphaNum(ch: byte) { IsAlpha(ch) || IsNum(ch) }

  predicate IsHex(ch: byte) { IsNum(ch) || 'a' <= Lower(ch) <= 'f' }

  predicate IsMark(ch: byte) { ch in {'-', '_', '.', '!', '~', '*', '\'', '(', ')'} }

  predicate IsUserinfoChar(ch: byte) {
    IsAlphaNum(ch) || IsMark(ch) || ch in {'%', ';', ':', '&', '=', '+', '$', ','}
  }

  predicate IsHostChar(ch: byte) { IsAlphaNum(ch) || ch == '.' || ch == '-' }

  /** Strict mode: visible ASCII except '#' and '?'. */
  predicate IsUrlChar(ch: byte) { ' ' < ch < 127 as char && ch != '#' && ch != '?' }

  predicate IsHeaderChar(ch: byte) {
    ch == CR || ch == LF || ch == TAB || (31 as char < ch && ch != 127 as char)
  }

  /** The token table: 0 for a non-token character, otherwise the character in lower case. */
  function Token(ch: byte): byte {
    if 'A' <= ch <= 'Z' then (ch as int + 32) as char
    else if 'a' <= ch <= 'z' || '0' <= ch <= '9' then ch
    else if ch in {'!', '#', '$', '%', '&', '\'', '*', '+', '-', '.', '^', '_', '`', '|', '~'} then ch
    else '\0'
  }

  predicate IsToken(ch: byte) { Token(ch) != '\0' }

  function DigitValue(ch: byte): nat
    requires IsNum(ch)
  {
    ch as int - '0' as int
  }

  /** The hexadecimal table. Only its first 128 entries are written out in the source, so the other
      half is zero: an octet from 0x80 on counts as the digit 0. */
  function Unhex(ch: byte): int {
    if '0' <= ch <= '9' then ch as int - '0' as int
    else if 'A' <= ch <= 'F' then ch as int - 'A' as int + 10
    else if 'a' <= ch <= 'f' then ch as int - 'a' as int + 10
    else if ch < 128 as char then -1
    else 0
  }

  /** Reading a C string: the terminator follows the last character. */
  function At(s: seq<char>, i: nat): char {
    if i < |s| then s[i] else '\0'
  }

  // ------------------------------------------------------------------ enumerations

  /** The states, grouped by the part of a message they belong to. */
  datatype State =
    | Start(start: StartPoint)
    | StatusLine(status: StatusPoint)
    | RequestStart(request: RequestPoint)
    | Target(target: TargetPoint)
    | Version(version: VersionPoint)
    | Header(header: HeaderPoint)
    | ChunkLine(line: ChunkLinePoint)
    | ChunkBody(chunk: ChunkBodyPoint)
    | Content(content: ContentPoint)

  datatype StartPoint =
    | Dead | StartReqOrRes | StartRes | StartReq

  datatype StatusPoint =
    | ResOrRespH | ResH | ResHT | ResHTT | ResHTTP | ResHttpMajor | ResHttpDot | ResHttpMinor
    | ResHttpEnd | ResFirstStatusCode | ResStatusCode | ResStatusStart | ResStatus
    | ResLineAlmostDone

  datatype RequestPoint =
    | ReqMethod | ReqSpacesBeforeUrl

  datatype TargetPoint =
    | ReqSchema | ReqSchemaSlash | ReqSchemaSlashSlash | ReqServerStart | ReqServer
    | ReqServerWithAt | ReqPath | ReqQueryStringStart | ReqQueryString | ReqFragmentStart
    | ReqFragment

  datatype VersionPoint =
    | ReqHttpStart | ReqHttpH | ReqHttpHT | ReqHttpHTT | ReqHttpHTTP | ReqHttpI | ReqHttpIC
    | ReqHttpMajor | ReqHttpDot | ReqHttpMinor | ReqHttpEnd | ReqLineAlmostDone

  datatype HeaderPoint =
    | HeaderFieldStart | HeaderField | HeaderValueDiscardWs | HeaderValueDiscardWsAlmostDone
    | HeaderValueDiscardLws | HeaderValueStart | HeaderValue | HeaderValueLws | HeaderAlmostDone
    | HeadersAlmostDone | HeadersDone

  datatype ChunkLinePoint =
    | ChunkSizeStart | ChunkSize | ChunkParameters | ChunkSizeAlmostDone

  datatype ChunkBodyPoint =
    | ChunkData | ChunkDataAlmostDone | ChunkDataDone

  datatype ContentPoint =
    | BodyIdentity | BodyIdentityEof | MessageDone

  /** Every state up to HeadersDone counts its bytes against the header limit. */
  predicate ParsingHeader(s: State) { !s.ChunkBody? && !s.Content? }

  datatype HState =
    | General | C | CO | CON
    | MatchingConnection | MatchingProxyConnection | MatchingContentLength
    | MatchingTransferEncoding | MatchingUpgrade
    | Connection | ContentLength | ContentLengthNum | ContentLengthWs | TransferEncoding | Upgrade
    | MatchingTransferEncodingChunked | MatchingConnectionTokenStart | MatchingConnectionKeepAlive
    | MatchingConnectionClose | MatchingConnectionUpgrade | MatchingConnectionToken
    | TransferEncodingChunked | ConnectionKeepAlive | ConnectionClose | ConnectionUpgrade

  datatype ParserType = Request | Response | Both

  datatype Method =
    | DELETE | GET | HEAD | POST | PUT | CONNECT | OPTIONS | TRACE
    | COPY | LOCK | MKCOL | MOVE | PROPFIND | PROPPATCH | SEARCH | UNLOCK | BIND | REBIND | UNBIND | ACL
    | REPORT | MKACTIVITY | CHECKOUT | MERGE | MSEARCH | NOTIFY | SUBSCRIBE | UNSUBSCRIBE
    | PATCH | PURGE | MKCALENDAR | LINK | UNLINK | SOURCE

  function MethodString(m: Method): string {
    match m
    case DELETE => "DELETE" case GET => "GET" case HEAD => "HEAD" case POST => "POST"
    case PUT => "PUT" case CONNECT => "CONNECT" case OPTIONS => "OPTIONS" case TRACE => "TRACE"
    case COPY => "COPY" case LOCK => "LOCK" case MKCOL => "MKCOL" case MOVE => "MOVE"
    case PROPFIND => "PROPFIND" case PROPPATCH => "PROPPATCH" case SEARCH => "SEARCH"
    case UNLOCK => "UNLOCK" case BIND => "BIND" case REBIND => "REBIND" case UNBIND => "UNBIND"
    case ACL => "ACL" case REPORT => "REPORT" case MKACTIVITY => "MKACTIVITY"
    case CHECKOUT => "CHECKOUT" case MERGE => "MERGE" case MSEARCH => "M-SEARCH"
    case NOTIFY => "NOTIFY" case SUBSCRIBE => "SUBSCRIBE" case UNSUBSCRIBE => "UNSUBSCRIBE"
    case PATCH => "PATCH" case PURGE => "PURGE" case MKCALENDAR => "MKCALENDAR"
    case LINK => "LINK" case UNLINK => "UNLINK" case SOURCE => "SOURCE"
  }

  /** The reasons a call can stop with an error. AssertionFailed stands for a failing assert(). */
  datatype Errno =
    | OK
    | INVALID_EOF_STATE | HEADER_OVERFLOW | CLOSED_CONNECTION | INVALID_VERSION | INVALID_STATUS
    | INVALID_METHOD | INVALID_URL | LF_EXPECTED | INVALID_HEADER_TOKEN | INVALID_CONTENT_LENGTH
    | UNEXPECTED_CONTENT_LENGTH | INVALID_CHUNK_SIZE | INVALID_CONSTANT | STRICT
    | AssertionFailed

  datatype Flags = Flags(chunked: bool, keepAlive: bool, close: bool, connectionUpgrade: bool,
                         trailing: bool, upgrade: bool, skipBody: bool, contentLength: bool)

  const NO_FLAGS := Flags(false, false, false, false, false, false, false, false)

  // ------------------------------------------------------------------ the parser record

  datatype Parser = Parser(
    typ: ParserType, flags: Flags, state: State, hstate: HState, index: nat,
    nread: nat, contentLength: nat,
    major: nat, minor: nat, status: nat, verb: Method, errno: Errno, upgrade: bool)

  /** The answer of the on_headers_complete callback: 0, 1 or 2. */
  datatype Reply = Proceed | SkipBody | SkipBodyAndUpgrade

  datatype Settings = Settings(maxHeaderSize: nat, lenient: bool, onHeadersComplete: Parser -> Reply)

  function Init(t: ParserType): Parser {
    Parser(t, NO_FLAGS,
           if t.Request? then Start(StartReq) else if t.Response? then Start(StartRes) else Start(StartReqOrRes),
           General, 0, 0, 0, 0, 0, 0, DELETE, OK, false)
  }

  // ------------------------------------------------------------------ callbacks

  /** The items that are delivered as runs of bytes. */
  datatype Kind = Url | Status | Field | Value | Body

  /** What is known about a message's body when on_headers_complete has answered. */
  datatype Head = Head(response: bool, status: nat, chunked: bool, declared: Option<nat>,
                       skip: bool, tunnel: bool)

  datatype Event =
    | Data(kind: Kind, bytes: seq<byte>)
    | MessageBegin
    | HeadersComplete(head: Head)
    | ChunkHeader(size: nat)
    | ChunkComplete
    | MessageComplete(keepAlive: bool)

  // ------------------------------------------------------------------ message framing

  /** http_message_needs_eof */
  predicate NeedsEof(q: Parser) {
    if q.typ.Request? then false
    else if q.status / 100 == 1 || q.status == 204 || q.status == 304 || q.flags.skipBody then false
    else !(q.flags.chunked || q.contentLength != NO_LENGTH)
  }

  /** http_should_keep_alive */
  predicate ShouldKeepAlive(q: Parser) {
    if q.major > 0 && q.minor > 0 then !q.flags.close && !NeedsEof(q)
    else q.flags.keepAlive && !NeedsEof(q)
  }

  predicate HasBody(q: Parser) {
    q.flags.chunked || (q.contentLength > 0 && q.contentLength != NO_LENGTH)
  }

  /** The facts a message's body length depends on, read off the parser. */
  function HeadOf(q: Parser): Head {
    Head(q.typ.Response?, q.status, q.flags.chunked,
         if q.contentLength == NO_LENGTH then None else Some(q.contentLength),
         q.flags.skipBody,
         q.upgrade && (q.verb == CONNECT || q.flags.skipBody || !HasBody(q)))
  }
}
