/** One byte through the parser's switch: the branches of http_parser_execute, with the
    `goto reexecute` chains followed to their end. What a branch does to the marks and the callbacks
    is returned as Effects, so that the same branch serves one byte or a whole buffer. */
module HttpStep {
  import opened Common
  import opened HttpTypes
  import opened HttpUrlChar

  /** What happens to a run of bytes that is being collected. */
  datatype Closing =
    | Keep               // the collected run goes on
    | Flush(kind: Kind)  // deliver what was marked, without the current byte
    | Empty(kind: Kind)  // mark and deliver at once: an item without bytes
    | Through(kind: Kind) // deliver what was marked, current byte included

  /** In the order in which they happen: close an item, notify, open (mark) an item. */
  datatype Effects = Effects(close: Closing, notices: seq<Event>, open: Option<Kind>)

  const NOTHING := Effects(Keep, [], None)

  /** leave: the call returns after this byte because the rest is in another protocol. */
  datatype Outcome = Outcome(q: Parser, fx: Effects, leave: bool)

  function Go(q: Parser, s: State): Outcome {
    Outcome(q.(state := s), NOTHING, false)
  }

  function Fail(q: Parser, e: Errno): Outcome {
    Outcome(q.(errno := e), NOTHING, false)
  }

  function Require(ok: bool, q: Parser, e: Errno, s: State): Outcome {
    if ok then Go(q, s) else Fail(q, e)
  }

  /** The effects of a branch that jumps into another one. */
  function Join(pre: Effects, out: Outcome): Outcome {
    out.(fx := Effects(if pre.close.Keep? then out.fx.close else pre.close,
                       pre.notices + out.fx.notices,
                       if out.fx.open.Some? then out.fx.open else pre.open))
  }

  function Close(c: Closing): Effects { Effects(c, [], None) }

  function Tell(e: Event): Effects { Effects(Keep, [e], None) }

  function Open(k: Kind): Effects { Effects(Keep, [], Some(k)) }

  // ------------------------------------------------------------------ between messages

  function NewMessage(q: Parser): State {
    if ShouldKeepAlive(q) then (if q.typ.Request? then Start(StartReq) else Start(StartRes)) else Start(Dead)
  }

  function CompleteMessage(q: Parser, leave: bool): Outcome {
    Outcome(q.(state := NewMessage(q)), Tell(MessageComplete(ShouldKeepAlive(q))), leave)
  }

  function Fresh(q: Parser): Parser {
    q.(flags := NO_FLAGS, contentLength := NO_LENGTH)
  }

  function OnStart(q: Parser, ch: byte): Outcome {
    if q.state == Start(Dead) then
      if ch == CR || ch == LF then Go(q, Start(Dead)) else Fail(q, CLOSED_CONNECTION)
    else if ch == CR || ch == LF then Go(q, q.state)
    else if q.state == Start(StartReq) then OnStartReq(q, ch)
    else if q.state == Start(StartRes) then
      if ch == 'H' then Outcome(Fresh(q).(state := StatusLine(ResH)), Tell(MessageBegin), false)
      else Fail(Fresh(q), INVALID_CONSTANT)
    else if ch == 'H' then Outcome(Fresh(q).(state := StatusLine(ResOrRespH)), Tell(MessageBegin), false)
    else OnStartReq(Fresh(q).(typ := Request, state := Start(StartReq)), ch)
  }

  function FirstMethod(ch: byte): Option<Method> {
    match ch
    case 'A' => Some(ACL) case 'B' => Some(BIND) case 'C' => Some(CONNECT) case 'D' => Some(DELETE)
    case 'G' => Some(GET) case 'H' => Some(HEAD) case 'L' => Some(LOCK) case 'M' => Some(MKCOL)
    case 'N' => Some(NOTIFY) case 'O' => Some(OPTIONS) case 'P' => Some(POST) case 'R' => Some(REPORT)
    case 'S' => Some(SUBSCRIBE) case 'T' => Some(TRACE) case 'U' => Some(UNLOCK)
    case _ => None
  }

  function OnStartReq(q: Parser, ch: byte): Outcome {
    match FirstMethod(ch)
    case None => Fail(Fresh(q), INVALID_METHOD)
    case Some(m) =>
      Outcome(Fresh(q).(verb := m, index := 1, state := RequestStart(ReqMethod)), Tell(MessageBegin), false)
  }

  // ------------------------------------------------------------------ status line

  function OnStatusLine(q: Parser, ch: byte): Outcome
    requires q.state.StatusLine?
  {
    match q.state.status
    case ResOrRespH =>
      if ch == 'T' then Go(q.(typ := Response), StatusLine(ResHT))
      else if ch == 'E' then Go(q.(typ := Request, verb := HEAD, index := 2), RequestStart(ReqMethod))
      else Fail(q, INVALID_CONSTANT)
    case ResH => Require(ch == 'T', q, STRICT, StatusLine(ResHT))
    case ResHT => Require(ch == 'T', q, STRICT, StatusLine(ResHTT))
    case ResHTT => Require(ch == 'P', q, STRICT, StatusLine(ResHTTP))
    case ResHTTP => Require(ch == '/', q, STRICT, StatusLine(ResHttpMajor))
    case ResHttpMajor =>
      if IsNum(ch) then Go(q.(major := DigitValue(ch)), StatusLine(ResHttpDot)) else Fail(q, INVALID_VERSION)
    case ResHttpDot => Require(ch == '.', q, INVALID_VERSION, StatusLine(ResHttpMinor))
    case ResHttpMinor =>
      if IsNum(ch) then Go(q.(minor := DigitValue(ch)), StatusLine(ResHttpEnd)) else Fail(q, INVALID_VERSION)
    case ResHttpEnd => Require(ch == ' ', q, INVALID_VERSION, StatusLine(ResFirstStatusCode))
    case ResFirstStatusCode =>
      if IsNum(ch) then Go(q.(status := DigitValue(ch)), StatusLine(ResStatusCode))
      else Require(ch == ' ', q, INVALID_STATUS, StatusLine(ResFirstStatusCode))
    case ResStatusCode =>
      if IsNum(ch) then
        var q1 := q.(status := q.status * 10 + DigitValue(ch));
        Require(q1.status <= 999, q1, INVALID_STATUS, StatusLine(ResStatusCode))
      else if ch == ' ' then Go(q, StatusLine(ResStatusStart))
      else if ch == CR || ch == LF then OnStatusStart(q, ch)
      else Fail(q, INVALID_STATUS)
    case ResStatusStart => OnStatusStart(q, ch)
    case ResStatus =>
      if ch == CR || ch == LF then OnStatusEnd(q, ch, Flush(Status)) else Go(q, StatusLine(ResStatus))
    case ResLineAlmostDone => Require(ch == LF, q, STRICT, Header(HeaderFieldStart))
  }

  function OnStatusStart(q: Parser, ch: byte): Outcome {
    var q1 := q.(index := 0);
    if ch == CR || ch == LF then OnStatusEnd(q1, ch, Empty(Status))
    else Outcome(q1.(state := StatusLine(ResStatus)), Open(Status), false)
  }

  function OnStatusEnd(q: Parser, ch: byte, c: Closing): Outcome {
    Outcome(q.(state := if ch == CR then StatusLine(ResLineAlmostDone) else Header(HeaderFieldStart)), Close(c), false)
  }

  // ------------------------------------------------------------------ request line

  /** The branch points between methods that share a prefix. */
  function NextMethod(m: Method, index: nat, ch: byte): Option<Method> {
    if m == POST && index == 1 && ch == 'U' then Some(PUT)
    else if m == POST && index == 1 && ch == 'A' then Some(PATCH)
    else if m == POST && index == 1 && ch == 'R' then Some(PROPFIND)
    else if m == PUT && index == 2 && ch == 'R' then Some(PURGE)
    else if m == CONNECT && index == 1 && ch == 'H' then Some(CHECKOUT)
    else if m == CONNECT && index == 2 && ch == 'P' then Some(COPY)
    else if m == MKCOL && index == 1 && ch == 'O' then Some(MOVE)
    else if m == MKCOL && index == 1 && ch == 'E' then Some(MERGE)
    else if m == MKCOL && index == 1 && ch == '-' then Some(MSEARCH)
    else if m == MKCOL && index == 2 && ch == 'A' then Some(MKACTIVITY)
    else if m == MKCOL && index == 3 && ch == 'A' then Some(MKCALENDAR)
    else if m == SUBSCRIBE && index == 1 && ch == 'E' then Some(SEARCH)
    else if m == SUBSCRIBE && index == 1 && ch == 'O' then Some(SOURCE)
    else if m == REPORT && index == 2 && ch == 'B' then Some(REBIND)
    else if m == PROPFIND && index == 4 && ch == 'P' then Some(PROPPATCH)
    else if m == LOCK && index == 1 && ch == 'I' then Some(LINK)
    else if m == UNLOCK && index == 2 && ch == 'S' then Some(UNSUBSCRIBE)
    else if m == UNLOCK && index == 2 && ch == 'B' then Some(UNBIND)
    else if m == UNLOCK && index == 3 && ch == 'I' then Some(UNLINK)
    else None
  }

  /** The 7-bit index field. */
  function Bump(index: nat): nat { (index + 1) % 128 }

  function OnReqMethod(q: Parser, ch: byte): Outcome {
    if ch == '\0' then Fail(q, INVALID_METHOD)
    else
      var matcher := MethodString(q.verb);
      var q1 := q.(index := Bump(q.index));
      if ch == ' ' && At(matcher, q.index) == '\0' then Go(q1, RequestStart(ReqSpacesBeforeUrl))
      else if ch == At(matcher, q.index) then Go(q1, RequestStart(ReqMethod))
      else if 'A' <= ch <= 'Z' || ch == '-' then
        match NextMethod(q.verb, q.index, ch)
        case Some(m) => Go(q1.(verb := m), RequestStart(ReqMethod))
        case None => Fail(q, INVALID_METHOD)
      else Fail(q, INVALID_METHOD)
  }

  function OnSpacesBeforeUrl(q: Parser, ch: byte): Outcome {
    if ch == ' ' then Go(q, RequestStart(ReqSpacesBeforeUrl))
    else
      var s := ParseUrlChar(if q.verb == CONNECT then Target(ReqServerStart) else RequestStart(ReqSpacesBeforeUrl), ch);
      if s == Start(Dead) then Fail(q.(state := s), INVALID_URL)
      else Outcome(q.(state := s), Open(Url), false)
  }

  predicate UrlMayEnd(s: State) {
    || s == Target(ReqServer) || s == Target(ReqServerWithAt) || s == Target(ReqPath)
    || s == Target(ReqQueryStringStart) || s == Target(ReqQueryString)
    || s == Target(ReqFragmentStart) || s == Target(ReqFragment)
  }

  function OnUrl(q: Parser, ch: byte): Outcome {
    if ch == ' ' && UrlMayEnd(q.state) then
      Outcome(q.(state := Version(ReqHttpStart)), Close(Flush(Url)), false)
    else if (ch == CR || ch == LF) && UrlMayEnd(q.state) then
      Outcome(q.(major := 0, minor := 9,
                 state := if ch == CR then Version(ReqLineAlmostDone) else Header(HeaderFieldStart)),
              Close(Flush(Url)), false)
    else if ch in {' ', CR, LF} then Fail(q, INVALID_URL)
    else
      var s := ParseUrlChar(q.state, ch);
      Require(s != Start(Dead), q.(state := s), INVALID_URL, s)
  }

  function OnReqVersion(q: Parser, ch: byte): Outcome
    requires q.state.Version?
  {
    match q.state.version
    case ReqHttpStart =>
      if ch == ' ' then Go(q, Version(ReqHttpStart))
      else if ch == 'H' then Go(q, Version(ReqHttpH))
      else Require(ch == 'I' && q.verb == SOURCE, q, INVALID_CONSTANT, Version(ReqHttpI))
    case ReqHttpH => Require(ch == 'T', q, STRICT, Version(ReqHttpHT))
    case ReqHttpHT => Require(ch == 'T', q, STRICT, Version(ReqHttpHTT))
    case ReqHttpHTT => Require(ch == 'P', q, STRICT, Version(ReqHttpHTTP))
    case ReqHttpI => Require(ch == 'C', q, STRICT, Version(ReqHttpIC))
    case ReqHttpIC => Require(ch == 'E', q, STRICT, Version(ReqHttpHTTP))
    case ReqHttpHTTP => Require(ch == '/', q, STRICT, Version(ReqHttpMajor))
    case ReqHttpMajor =>
      if IsNum(ch) then Go(q.(major := DigitValue(ch)), Version(ReqHttpDot)) else Fail(q, INVALID_VERSION)
    case ReqHttpDot => Require(ch == '.', q, INVALID_VERSION, Version(ReqHttpMinor))
    case ReqHttpMinor =>
      if IsNum(ch) then Go(q.(minor := DigitValue(ch)), Version(ReqHttpEnd)) else Fail(q, INVALID_VERSION)
    case ReqHttpEnd =>
      if ch == CR then Go(q, Version(ReqLineAlmostDone))
      else Require(ch == LF, q, INVALID_VERSION, Header(HeaderFieldStart))
    case ReqLineAlmostDone => Require(ch == LF, q, LF_EXPECTED, Header(HeaderFieldStart))
  }

  // ------------------------------------------------------------------ header fields

  function FieldStartState(c: byte): HState {
    match c
    case 'c' => C
    case 'p' => MatchingProxyConnection
    case 't' => MatchingTransferEncoding
    case 'u' => MatchingUpgrade
    case _ => General
  }

  function OnFieldStart(cfg: Settings, q: Parser, ch: byte): Outcome {
    if ch == CR then Go(q, Header(HeadersAlmostDone))
    else if ch == LF then OnHeadersAlmostDone(cfg, q.(state := Header(HeadersAlmostDone)), ch)
    else if !IsToken(ch) then Fail(q, INVALID_HEADER_TOKEN)
    else Outcome(q.(index := 0, state := Header(HeaderField), hstate := FieldStartState(Token(ch))), Open(Field), false)
  }

  const CONNECTION := "connection"
  const PROXY_CONNECTION := "proxy-connection"
  const CONTENT_LENGTH := "content-length"
  const TRANSFER_ENCODING := "transfer-encoding"
  const UPGRADE := "upgrade"
  const CHUNKED := "chunked"
  const KEEP_ALIVE := "keep-alive"
  const CLOSE := "close"

  /** One more character of a literal being matched; index is its position in the literal. */
  function Match(literal: string, index: nat, c: byte, partial: HState, full: HState, miss: HState): HState {
    if index > |literal| || c != At(literal, index) then miss
    else if index == |literal| - 1 then full
    else partial
  }

  /** The header-name machine on one token character; None is the "Unknown header_state" assertion. */
  function FieldState(h: HState, index: nat, ch: byte): Option<HState> {
    var c := Token(ch);
    match h
    case General => Some(General)
    case C => Some(if c == 'o' then CO else General)
    case CO => Some(if c == 'n' then CON else General)
    case CON => Some(if c == 'n' then MatchingConnection else if c == 't' then MatchingContentLength else General)
    case MatchingConnection => Some(Match(CONNECTION, index, c, h, Connection, General))
    case MatchingProxyConnection => Some(Match(PROXY_CONNECTION, index, c, h, Connection, General))
    case MatchingContentLength => Some(Match(CONTENT_LENGTH, index, c, h, ContentLength, General))
    case MatchingTransferEncoding => Some(Match(TRANSFER_ENCODING, index, c, h, TransferEncoding, General))
    case MatchingUpgrade => Some(Match(UPGRADE, index, c, h, Upgrade, General))
    case Connection => Some(if ch != ' ' then General else h)
    case ContentLength => Some(if ch != ' ' then General else h)
    case TransferEncoding => Some(if ch != ' ' then General else h)
    case Upgrade => Some(if ch != ' ' then General else h)
    case _ => None
  }

  /** The index moves in the states that still match a name. */
  predicate FieldIndexMoves(h: HState) {
    || h.C? || h.CO? || h.CON? || h.MatchingConnection? || h.MatchingProxyConnection?
    || h.MatchingContentLength? || h.MatchingTransferEncoding? || h.MatchingUpgrade?
  }

  function FieldIndex(q: Parser): nat {
    if FieldIndexMoves(q.hstate) then Bump(q.index) else q.index
  }

  function OnField(q: Parser, ch: byte): Outcome {
    if IsToken(ch) then
      var index := FieldIndex(q);
      match FieldState(q.hstate, index, ch)
      case Some(h) => Go(q.(hstate := h, index := index), Header(HeaderField))
      case None => Fail(q, AssertionFailed)
    else if ch == ':' then Outcome(q.(state := Header(HeaderValueDiscardWs)), Close(Flush(Field)), false)
    else Fail(q, INVALID_HEADER_TOKEN)
  }

  // ------------------------------------------------------------------ header values

  /** The first character of a Content-Length value. */
  function OnFirstDigit(q: Parser, ch: byte): Outcome {
    if !IsNum(ch) then Fail(q, INVALID_CONTENT_LENGTH)
    else if q.flags.contentLength then Fail(q, UNEXPECTED_CONTENT_LENGTH)
    else Value1(q.(flags := q.flags.(contentLength := true), contentLength := DigitValue(ch),
                   hstate := ContentLengthNum))
  }

  function OnValueStart(q: Parser, ch: byte): Outcome {
    var c := Lower(ch);
    var q1 := q.(state := Header(HeaderValue), index := 0);
    match q.hstate
    case Upgrade => Value1(q1.(flags := q.flags.(upgrade := true), hstate := General))
    case TransferEncoding =>
      Value1(q1.(hstate := if c == 'c' then MatchingTransferEncodingChunked else General))
    case ContentLength => OnFirstDigit(q1, ch)
    case ContentLengthWs => Value1(q1)
    case Connection =>
      Value1(q1.(hstate := if c == 'k' then MatchingConnectionKeepAlive
                           else if c == 'c' then MatchingConnectionClose
                           else if c == 'u' then MatchingConnectionUpgrade
                           else MatchingConnectionToken))
    case MatchingConnectionTokenStart => Value1(q1)
    case _ => Value1(q1.(hstate := General))
  }

  function Value1(q: Parser): Outcome { Outcome(q, Open(Value), false) }

  function OnDiscardWs(q: Parser, ch: byte): Outcome {
    if ch == ' ' || ch == TAB then Go(q, Header(HeaderValueDiscardWs))
    else if ch == CR then Go(q, Header(HeaderValueDiscardWsAlmostDone))
    else if ch == LF then Go(q, Header(HeaderValueDiscardLws))
    else OnValueStart(q, ch)
  }

  /** One more decimal digit of Content-Length in 64-bit arithmetic; None when the guard rejects it. */
  function PushDecimal(n: nat, ch: byte): Option<nat>
    requires IsNum(ch)
  {
    if (NO_LENGTH - 10) / 10 < n then None
    else Some((n * 10 + DigitValue(ch)) % UINT64_MODULUS)
  }

  /** One more hexadecimal digit of a chunk size in 64-bit arithmetic. */
  function PushHex(n: nat, ch: byte): Option<nat>
    requires Unhex(ch) != -1
  {
    if (NO_LENGTH - 16) / 16 < n then None
    else Some((n * 16 + Unhex(ch)) % UINT64_MODULUS)
  }

  function OnLengthDigit(q: Parser, ch: byte): Outcome {
    var q1 := q.(hstate := ContentLengthNum);
    if ch == ' ' then Go(q.(hstate := ContentLengthWs), Header(HeaderValue))
    else if !IsNum(ch) then Fail(q1, INVALID_CONTENT_LENGTH)
    else match PushDecimal(q.contentLength, ch)
         case None => Fail(q1, INVALID_CONTENT_LENGTH)
         case Some(n) => Go(q1.(contentLength := n), Header(HeaderValue))
  }

  function MatchValue(q: Parser, literal: string, ch: byte, full: HState, miss: HState): Outcome {
    var index := Bump(q.index);
    Go(q.(index := index, hstate := Match(literal, index, Lower(ch), q.hstate, full, miss)), Header(HeaderValue))
  }

  /** A complete Connection token takes effect at the comma or at the end of the header. */
  function ConnectionFlag(q: Parser): Flags {
    match q.hstate
    case ConnectionKeepAlive => q.flags.(keepAlive := true)
    case ConnectionClose => q.flags.(close := true)
    case ConnectionUpgrade => q.flags.(connectionUpgrade := true)
    case _ => q.flags
  }

  function OnConnectionToken(q: Parser, ch: byte): Outcome {
    if ch == ',' then
      Go(q.(flags := ConnectionFlag(q), hstate := MatchingConnectionTokenStart, index := 0), Header(HeaderValue))
    else Go(q.(hstate := if ch == ' ' then q.hstate else MatchingConnectionToken), Header(HeaderValue))
  }

  function TokenStart(c: byte): HState {
    if c == 'k' then MatchingConnectionKeepAlive
    else if c == 'c' then MatchingConnectionClose
    else if c == 'u' then MatchingConnectionUpgrade
    else if IsToken(c) then MatchingConnectionToken
    else if c == ' ' || c == TAB then MatchingConnectionTokenStart
    else General
  }

  /** The header-value machine on a character that neither ends the line nor is forbidden. */
  function OnValueChar(q: Parser, ch: byte): Outcome {
    match q.hstate
    case General => Go(q, Header(HeaderValue))
    case Connection => Fail(q, AssertionFailed)
    case TransferEncoding => Fail(q, AssertionFailed)
    case ContentLength => if ch == ' ' then Go(q, Header(HeaderValue)) else OnLengthDigit(q, ch)
    case ContentLengthNum => OnLengthDigit(q, ch)
    case ContentLengthWs => Require(ch == ' ', q, INVALID_CONTENT_LENGTH, Header(HeaderValue))
    case MatchingTransferEncodingChunked => MatchValue(q, CHUNKED, ch, TransferEncodingChunked, General)
    case MatchingConnectionTokenStart => Go(q.(hstate := TokenStart(Lower(ch))), Header(HeaderValue))
    case MatchingConnectionKeepAlive =>
      MatchValue(q, KEEP_ALIVE, ch, ConnectionKeepAlive, MatchingConnectionToken)
    case MatchingConnectionClose => MatchValue(q, CLOSE, ch, ConnectionClose, MatchingConnectionToken)
    case MatchingConnectionUpgrade => MatchValue(q, UPGRADE, ch, ConnectionUpgrade, MatchingConnectionToken)
    case MatchingConnectionToken =>
      if ch == ',' then Go(q.(hstate := MatchingConnectionTokenStart, index := 0), Header(HeaderValue))
      else Go(q, Header(HeaderValue))
    case TransferEncodingChunked => Go(q.(hstate := if ch == ' ' then q.hstate else General), Header(HeaderValue))
    case ConnectionKeepAlive => OnConnectionToken(q, ch)
    case ConnectionClose => OnConnectionToken(q, ch)
    case ConnectionUpgrade => OnConnectionToken(q, ch)
    case _ => Go(q.(hstate := General), Header(HeaderValue))
  }

  function OnValue(cfg: Settings, q: Parser, ch: byte): Outcome {
    if ch == CR then Outcome(q.(state := Header(HeaderAlmostDone)), Close(Flush(Value)), false)
    else if ch == LF then Outcome(q.(state := Header(HeaderValueLws)), Close(Flush(Value)), false)
    else if !cfg.lenient && !IsHeaderChar(ch) then Fail(q, INVALID_HEADER_TOKEN)
    else OnValueChar(q, ch)
  }

  /** The flags a finished header leaves behind. */
  function FinishHeader(q: Parser): Flags {
    if q.hstate.TransferEncodingChunked? then q.flags.(chunked := true) else ConnectionFlag(q)
  }

  function OnLws(cfg: Settings, q: Parser, ch: byte): Outcome {
    if ch == ' ' || ch == TAB then
      OnValueStart(q.(state := Header(HeaderValueStart),
                      hstate := if q.hstate.ContentLengthNum? then ContentLengthWs else q.hstate), ch)
    else OnFieldStart(cfg, q.(flags := FinishHeader(q), state := Header(HeaderFieldStart)), ch)
  }

  function OnDiscardLws(cfg: Settings, q: Parser, ch: byte): Outcome {
    if ch == ' ' || ch == TAB then Go(q, Header(HeaderValueDiscardWs))
    else if q.hstate.ContentLength? then Fail(q, INVALID_CONTENT_LENGTH)
    else Join(Close(Empty(Value)),
              OnFieldStart(cfg, q.(flags := FinishHeader(q), state := Header(HeaderFieldStart)), ch))
  }

  function OnHeader(cfg: Settings, q: Parser, ch: byte): Outcome
    requires q.state.Header?
  {
    match q.state.header
    case HeaderFieldStart => OnFieldStart(cfg, q, ch)
    case HeaderField => OnField(q, ch)
    case HeaderValueDiscardWs => OnDiscardWs(q, ch)
    case HeaderValueDiscardWsAlmostDone => Require(ch == LF, q, STRICT, Header(HeaderValueDiscardLws))
    case HeaderValueDiscardLws => OnDiscardLws(cfg, q, ch)
    case HeaderValueStart => OnValueStart(q, ch)
    case HeaderValue => OnValue(cfg, q, ch)
    case HeaderAlmostDone => Require(ch == LF, q, LF_EXPECTED, Header(HeaderValueLws))
    case HeaderValueLws => OnLws(cfg, q, ch)
    case HeadersAlmostDone => OnHeadersAlmostDone(cfg, q, ch)
    case HeadersDone => OnHeadersDone(q, ch)
  }

  // ------------------------------------------------------------------ end of the headers

  function OnHeadersAlmostDone(cfg: Settings, q: Parser, ch: byte): Outcome {
    if ch != LF then Fail(q, STRICT)
    else if q.flags.trailing then Join(Tell(ChunkComplete), CompleteMessage(q, q.upgrade))
    else if q.flags.chunked && q.flags.contentLength then Fail(q, UNEXPECTED_CONTENT_LENGTH)
    else
      var q1 := Answered(cfg, q.(state := Header(HeadersDone), upgrade := WantsUpgrade(q)));
      Join(Tell(HeadersComplete(HeadOf(q1))), OnHeadersDone(q1, ch))
  }

  predicate WantsUpgrade(q: Parser) {
    if q.flags.upgrade && q.flags.connectionUpgrade then q.typ.Request? || q.status == 101
    else q.verb == CONNECT
  }

  /** on_headers_complete answers 0, 1 (no body) or 2 (no body and no further message). */
  function Answered(cfg: Settings, q: Parser): Parser {
    match cfg.onHeadersComplete(q)
    case Proceed => q
    case SkipBody => q.(flags := q.flags.(skipBody := true))
    case SkipBodyAndUpgrade => q.(flags := q.flags.(skipBody := true), upgrade := true)
  }

  function OnHeadersDone(q: Parser, ch: byte): Outcome {
    if ch != LF then Fail(q, STRICT)
    else
      var q1 := q.(nread := 0);
      if q.upgrade && (q.verb == CONNECT || q.flags.skipBody || !HasBody(q)) then CompleteMessage(q1, true)
      else if q.flags.skipBody then CompleteMessage(q1, false)
      else if q.flags.chunked then Go(q1, ChunkLine(ChunkSizeStart))
      else if q.contentLength == 0 then CompleteMessage(q1, false)
      else if q.contentLength != NO_LENGTH then Go(q1, Content(BodyIdentity))
      else if !NeedsEof(q) then CompleteMessage(q1, false)
      else Go(q1, Content(BodyIdentityEof))
  }

  // ------------------------------------------------------------------ body

  function OnBody(q: Parser, ch: byte): Outcome
    requires q.state.Content?
  {
    match q.state.content
    case BodyIdentity =>
      if q.contentLength == 0 || q.contentLength == NO_LENGTH then Fail(q, AssertionFailed)
      else if q.contentLength == 1 then
        Join(Close(Through(Body)), CompleteMessage(q.(contentLength := 0), q.upgrade))
      else Outcome(q.(contentLength := q.contentLength - 1), Open(Body), false)
    case BodyIdentityEof => Outcome(q, Open(Body), false)
    case MessageDone => CompleteMessage(q, q.upgrade)
  }

  function OnChunkLine(q: Parser, ch: byte): Outcome
    requires q.state.ChunkLine?
  {
    if !q.flags.chunked then Fail(q, AssertionFailed)
    else match q.state.line
      case ChunkSizeStart =>
        if q.nread != 1 then Fail(q, AssertionFailed)
        else if Unhex(ch) == -1 then Fail(q, INVALID_CHUNK_SIZE)
        else Go(q.(contentLength := Unhex(ch)), ChunkLine(ChunkSize))
      case ChunkSize =>
        if ch == CR then Go(q, ChunkLine(ChunkSizeAlmostDone))
        else if Unhex(ch) == -1 then
          Require(ch == ';' || ch == ' ', q, INVALID_CHUNK_SIZE, ChunkLine(ChunkParameters))
        else (match PushHex(q.contentLength, ch)
              case None => Fail(q, INVALID_CONTENT_LENGTH)
              case Some(n) => Go(q.(contentLength := n), ChunkLine(ChunkSize)))
      case ChunkParameters => Go(q, ChunkLine(if ch == CR then ChunkSizeAlmostDone else ChunkParameters))
      case ChunkSizeAlmostDone =>
        if ch != LF then Fail(q, STRICT)
        else
          var q1 := if q.contentLength == 0
                    then q.(flags := q.flags.(trailing := true), state := Header(HeaderFieldStart))
                    else q.(state := ChunkBody(ChunkData));
          Outcome(q1.(nread := 0), Tell(ChunkHeader(q.contentLength)), false)
  }

  function OnChunkBody(q: Parser, ch: byte): Outcome
    requires q.state.ChunkBody?
  {
    if !q.flags.chunked then Fail(q, AssertionFailed)
    else match q.state.chunk
      case ChunkData =>
        if q.contentLength == 0 || q.contentLength == NO_LENGTH then Fail(q, AssertionFailed)
        else Outcome(q.(contentLength := q.contentLength - 1,
                        state := ChunkBody(if q.contentLength == 1 then ChunkDataAlmostDone else ChunkData)),
                     Open(Body), false)
      case ChunkDataAlmostDone =>
        if q.contentLength != 0 then Fail(q, AssertionFailed)
        else if ch != CR then Fail(q, STRICT)
        else Outcome(q.(state := ChunkBody(ChunkDataDone)), Close(Flush(Body)), false)
      case ChunkDataDone =>
        if ch != LF then Fail(q, STRICT)
        else Outcome(q.(nread := 0, state := ChunkLine(ChunkSizeStart)), Tell(ChunkComplete), false)
  }

  // ------------------------------------------------------------------ the switch

  function Switch(cfg: Settings, q: Parser, ch: byte): Outcome {
    match q.state
    case Start(_) => OnStart(q, ch)
    case StatusLine(_) => OnStatusLine(q, ch)
    case RequestStart(ReqMethod) => OnReqMethod(q, ch)
    case RequestStart(ReqSpacesBeforeUrl) => OnSpacesBeforeUrl(q, ch)
    case Target(_) => OnUrl(q, ch)
    case Version(_) => OnReqVersion(q, ch)
    case Header(_) => OnHeader(cfg, q, ch)
    case ChunkLine(_) => OnChunkLine(q, ch)
    case ChunkBody(_) => OnChunkBody(q, ch)
    case Content(_) => OnBody(q, ch)
  }

  /** COUNT_HEADER_SIZE in 32-bit arithmetic. */
  function Count(q: Parser, v: nat): Parser {
    q.(nread := (q.nread + v) % UINT32_MODULUS)
  }

  /** One turn of the loop over the input. */
  function Step(cfg: Settings, q: Parser, ch: byte): Outcome {
    if !ParsingHeader(q.state) then Switch(cfg, q, ch)
    else if Count(q, 1).nread > cfg.maxHeaderSize then Fail(Count(q, 1), HEADER_OVERFLOW)
    else Switch(cfg, Count(q, 1), ch)
  }
}
