/** What the registers of the parser agree on between two bytes, and that no assert() of the source
    can fail. */
module HttpInvariant {
  import opened Common
  import opened HttpTypes
  import opened HttpUrlChar
  import opened HttpStep
  import opened HttpRun

  /** The length of the literal a name-matching state compares with. */
  function NameLength(h: HState): nat {
    match h
    case C => 2
    case CO => 3
    case CON => 4
    case MatchingConnection => |CONNECTION|
    case MatchingProxyConnection => |PROXY_CONNECTION|
    case MatchingContentLength => |CONTENT_LENGTH|
    case MatchingTransferEncoding => |TRANSFER_ENCODING|
    case MatchingUpgrade => |UPGRADE|
    case _ => 0
  }

  function MethodLength(m: Method): nat {
    match m
    case DELETE => 6 case GET => 3 case HEAD => 4 case POST => 4
    case PUT => 3 case CONNECT => 7 case OPTIONS => 7 case TRACE => 5
    case COPY => 4 case LOCK => 4 case MKCOL => 5 case MOVE => 4
    case PROPFIND => 8 case PROPPATCH => 9 case SEARCH => 6
    case UNLOCK => 6 case BIND => 4 case REBIND => 6 case UNBIND => 6
    case ACL => 3 case REPORT => 6 case MKACTIVITY => 10
    case CHECKOUT => 8 case MERGE => 5 case MSEARCH => 8
    case NOTIFY => 6 case SUBSCRIBE => 9 case UNSUBSCRIBE => 11
    case PATCH => 5 case PURGE => 5 case MKCALENDAR => 10
    case LINK => 4 case UNLINK => 6 case SOURCE => 6
  }

  lemma MethodLengths(m: Method)
    ensures MethodLength(m) == |MethodString(m)|
  {
  }

  /** The header states a field name can be in. */
  predicate NameState(h: HState) {
    FieldIndexMoves(h) || h.General? || h.Connection? || h.ContentLength? || h.TransferEncoding? || h.Upgrade?
  }

  function ValueLength(h: HState): nat {
    match h
    case MatchingTransferEncodingChunked => |CHUNKED|
    case MatchingConnectionKeepAlive => |KEEP_ALIVE|
    case MatchingConnectionClose => |CLOSE|
    case MatchingConnectionUpgrade => |UPGRADE|
    case _ => 0
  }

  /** The header states a value can be in. */
  predicate ValueState(h: HState) {
    || h.General? || h.ContentLengthNum? || h.ContentLengthWs?
    || h.MatchingTransferEncodingChunked? || h.MatchingConnectionTokenStart?
    || h.MatchingConnectionKeepAlive? || h.MatchingConnectionClose? || h.MatchingConnectionUpgrade?
    || h.MatchingConnectionToken? || h.TransferEncodingChunked?
    || h.ConnectionKeepAlive? || h.ConnectionClose? || h.ConnectionUpgrade?
  }

  predicate NameOk(q: Parser) {
    NameState(q.hstate) && (FieldIndexMoves(q.hstate) ==> q.index <= NameLength(q.hstate) - 2)
  }

  predicate ValueOk(q: Parser) {
    && ValueState(q.hstate)
    && (ValueLength(q.hstate) > 0 ==> q.index <= ValueLength(q.hstate) - 2)
    && (q.hstate.MatchingConnectionTokenStart? ==> q.index == 0)
    && (q.hstate.ContentLengthNum? || q.hstate.ContentLengthWs? ==> q.flags.contentLength)
  }

  /** A length has been declared exactly when a Content-Length header has been seen. In the trailer of a
      chunked message the length register holds the last chunk's size or a trailer's number. */
  predicate HeaderLengthOk(q: Parser) {
    && q.typ != Both
    && !q.flags.skipBody
    && (q.flags.trailing ==> q.flags.chunked && q.contentLength != NO_LENGTH)
    && (!q.flags.trailing ==> (q.flags.contentLength <==> q.contentLength != NO_LENGTH))
  }

  predicate Untouched(q: Parser) { q.flags == NO_FLAGS && q.contentLength == NO_LENGTH }

  predicate StartOk(q: Parser, s: StartPoint) {
    match s
    case Dead => q.typ != Both
    case StartReqOrRes => q.typ == Both
    case StartRes => q.typ == Response
    case StartReq => q.typ == Request
  }

  predicate RequestLineOk(q: Parser) { Untouched(q) && q.typ == Request }

  predicate InName(h: HeaderPoint) {
    h.HeaderField? || h.HeaderValueDiscardWs? || h.HeaderValueDiscardWsAlmostDone? || h.HeaderValueDiscardLws?
  }

  predicate InValue(h: HeaderPoint) {
    h.HeaderValue? || h.HeaderAlmostDone? || h.HeaderValueLws?
  }

  predicate HeaderOk(q: Parser, h: HeaderPoint) {
    && HeaderLengthOk(q)
    && !h.HeaderValueStart? && !h.HeadersDone?
    && (InName(h) ==> NameOk(q))
    && (InValue(h) ==> ValueOk(q))
  }

  predicate ChunkOk(q: Parser) {
    q.flags.chunked && !q.flags.trailing && !q.flags.skipBody && q.typ != Both
  }

  predicate ContentOk(q: Parser, c: ContentPoint) {
    && q.typ != Both && !q.flags.chunked && !c.MessageDone?
    && (c.BodyIdentity? ==> 0 < q.contentLength < NO_LENGTH)
    && (c.BodyIdentityEof? ==> NeedsEof(q) && q.typ == Response)
  }

  predicate StateOk(q: Parser) {
    match q.state
    case Start(s) => StartOk(q, s)
    case StatusLine(s) => Untouched(q) && q.typ == (if s.ResOrRespH? then Both else Response)
    case RequestStart(s) => RequestLineOk(q) && (s.ReqMethod? ==> 1 <= q.index <= MethodLength(q.verb))
    case Target(_) => RequestLineOk(q)
    case Version(_) => RequestLineOk(q)
    case Header(h) => HeaderOk(q, h)
    case ChunkLine(c) => ChunkOk(q) && (if c.ChunkSizeStart? then q.nread == 0 else q.contentLength < NO_LENGTH)
    case ChunkBody(c) => ChunkOk(q) && (if c.ChunkData? then 0 < q.contentLength < NO_LENGTH else q.contentLength == 0)
    case Content(c) => ContentOk(q, c)
  }

  /** The joint invariant of the registers between two bytes. */
  predicate Inv(cfg: Settings, q: Parser) {
    && q.errno == OK
    && q.nread <= cfg.maxHeaderSize < UINT32_MODULUS
    && q.contentLength <= NO_LENGTH
    && q.index < 128
    && q.status <= 999
    && StateOk(q)
  }

  lemma InvOk(cfg: Settings, q: Parser)
    requires Inv(cfg, q)
    ensures q.errno == OK
  {
  }

  /** At most two notifications, none of them a run of bytes. */
  predicate Plain(notices: seq<Event>) {
    |notices| <= 2 && (|notices| > 0 ==> !notices[0].Data?) && (|notices| > 1 ==> !notices[1].Data?)
  }

  /** How the effects of a byte fit the state before and after it. */
  predicate MarksFollow(s: State, out: Outcome) {
    && (match out.fx.close
        case Keep =>
          && s != ChunkBody(ChunkDataAlmostDone)
          && (out.fx.open.None? ==> ResumeMark(out.q.state) == ResumeMark(s))
          && (ResumeMark(s).Some? ==> out.fx.notices == [])
        case Flush(k) => ResumeMark(s) == Some(k) || (k == Body && s == ChunkBody(ChunkDataAlmostDone))
        case Empty(k) => ResumeMark(s) == None && s != ChunkBody(ChunkDataAlmostDone) && k != Body
        case Through(k) => s == Content(BodyIdentity) && k == Body)
    && (match out.fx.open
        case Some(k) => (ResumeMark(s) == None && ResumeMark(out.q.state) == Some(k))
                        || (k == Body && out.fx.close.Keep?
                            && (s == Content(BodyIdentity) || s == Content(BodyIdentityEof)
                                || s == ChunkBody(ChunkData)))
        case None => !out.fx.close.Keep? ==> ResumeMark(out.q.state) == None)
    && Plain(out.fx.notices)
  }

  /** A byte keeps the invariant, unless it ends in an error, which is never a failing assert(). */
  predicate Sound(cfg: Settings, out: Outcome) {
    && out.q.errno != AssertionFailed
    && (out.q.errno == OK ==> Inv(cfg, out.q))
  }

  predicate Marked(s: State, out: Outcome) {
    out.q.errno == OK ==> MarksFollow(s, out)
  }

  lemma StartSound(cfg: Settings, q: Parser, ch: byte)
    requires Inv(cfg, q) && q.state.Start?
    ensures Sound(cfg, OnStart(q, ch))
  {
  }

  lemma StartMarked(q: Parser, ch: byte)
    requires q.state.Start?
    ensures Marked(q.state, OnStart(q, ch))
  {
  }

  predicate BeforeStatus(s: StatusPoint) {
    s.ResOrRespH? || s.ResH? || s.ResHT? || s.ResHTT? || s.ResHTTP? || s.ResHttpMajor? || s.ResHttpDot?
  }

  lemma HttpWordSound(cfg: Settings, q: Parser, ch: byte)
    requires Inv(cfg, q) && q.state.StatusLine? && BeforeStatus(q.state.status)
    ensures Sound(cfg, OnStatusLine(q, ch))
  {
  }

  lemma StatusSound(cfg: Settings, q: Parser, ch: byte)
    requires Inv(cfg, q) && q.state.StatusLine? && !BeforeStatus(q.state.status)
    ensures Sound(cfg, OnStatusLine(q, ch))
  {
    hide OnStatusStart, OnStatusEnd;
    StatusTextSound(cfg, q, ch);
  }

  lemma StatusTextSound(cfg: Settings, q: Parser, ch: byte)
    requires Inv(cfg, q) && q.state.StatusLine? && !BeforeStatus(q.state.status)
    ensures Sound(cfg, OnStatusStart(q, ch))
    ensures ch == CR || ch == LF ==> Sound(cfg, OnStatusEnd(q, ch, Flush(Status)))
  {
  }

  lemma StatusLineMarked(q: Parser, ch: byte)
    requires q.state.StatusLine? && q.errno == OK
    ensures Marked(q.state, OnStatusLine(q, ch))
  {
  }

  /** A branch point lies inside the method it leads to. */
  lemma NextMethodFits(m: Method, index: nat, ch: byte)
    ensures var n := NextMethod(m, index, ch); n.Some? ==> index + 1 <= MethodLength(n.value)
    ensures MethodLength(m) <= 11
  {
  }

  lemma ReqMethodSound(cfg: Settings, q: Parser, ch: byte)
    requires Inv(cfg, q) && q.state == RequestStart(ReqMethod)
    ensures Sound(cfg, OnReqMethod(q, ch)) && Marked(q.state, OnReqMethod(q, ch))
  {
    hide MethodString, NextMethod, MethodLength;
    MethodLengths(q.verb);
    NextMethodFits(q.verb, q.index, ch);
  }

  lemma SpacesBeforeUrlSound(cfg: Settings, q: Parser, ch: byte)
    requires Inv(cfg, q) && q.state == RequestStart(ReqSpacesBeforeUrl)
    ensures Sound(cfg, OnSpacesBeforeUrl(q, ch)) && Marked(q.state, OnSpacesBeforeUrl(q, ch))
  {
    UrlCharStates(if q.verb == CONNECT then Target(ReqServerStart) else RequestStart(ReqSpacesBeforeUrl), ch);
  }

  lemma UrlCharStates(s: State, ch: byte)
    ensures var t := ParseUrlChar(s, ch); t == Start(Dead) || t.Target?
  {
  }

  lemma UrlSound(cfg: Settings, q: Parser, ch: byte)
    requires Inv(cfg, q) && q.state.Target?
    ensures Sound(cfg, OnUrl(q, ch))
  {
    UrlCharStates(q.state, ch);
  }

  lemma UrlMarked(q: Parser, ch: byte)
    requires q.state.Target? && q.errno == OK
    ensures Marked(q.state, OnUrl(q, ch))
  {
    UrlCharStates(q.state, ch);
  }

  lemma ReqVersionSound(cfg: Settings, q: Parser, ch: byte)
    requires Inv(cfg, q) && q.state.Version?
    ensures Sound(cfg, OnReqVersion(q, ch))
  {
    hide IsNum, DigitValue, HeaderOk;
    LineStarts(OnReqVersion(q, ch).q);
  }

  /** The header block of a request starts with untouched registers. */
  lemma LineStarts(q: Parser)
    ensures RequestLineOk(q) ==> HeaderOk(q, HeaderFieldStart)
  {
  }

  lemma ReqVersionMarked(q: Parser, ch: byte)
    requires q.state.Version? && q.errno == OK
    ensures Marked(q.state, OnReqVersion(q, ch))
  {
  }

  // ------------------------------------------------------------------ headers and body

  lemma CompleteSound(cfg: Settings, q: Parser, leave: bool)
    requires q.errno == OK && q.typ != Both && q.index < 128 && q.status <= 999 && q.contentLength <= NO_LENGTH
    requires q.nread <= cfg.maxHeaderSize < UINT32_MODULUS
    ensures Sound(cfg, CompleteMessage(q, leave)) && ResumeMark(NewMessage(q)) == None
    ensures NoItem(CompleteMessage(q, leave)) && |CompleteMessage(q, leave).fx.notices| == 1
  {
  }

  /** The registers in which a header block can end. */
  predicate MayComplete(cfg: Settings, q: Parser) {
    && q.errno == OK && q.typ != Both && q.index < 128 && q.status <= 999 && q.contentLength <= NO_LENGTH
    && q.nread <= cfg.maxHeaderSize < UINT32_MODULUS
  }

  /** Effects of branches that end a header block: nothing is opened or closed. */
  predicate NoItem(out: Outcome) {
    && out.fx.close == Keep && out.fx.open == None
    && Plain(out.fx.notices)
    && (out.q.errno == OK ==> ResumeMark(out.q.state) == None)
  }

  lemma HeadersDoneSound(cfg: Settings, q: Parser, ch: byte)
    requires MayComplete(cfg, q) && !q.flags.trailing
    requires q.flags.chunked ==> !q.flags.contentLength
    ensures Sound(cfg, OnHeadersDone(q, ch)) && NoItem(OnHeadersDone(q, ch))
    ensures |OnHeadersDone(q, ch).fx.notices| <= 1
  {
    hide CompleteMessage;
    CompleteSound(cfg, q.(nread := 0), true);
    CompleteSound(cfg, q.(nread := 0), false);
  }

  lemma HeadersAlmostDoneSound(cfg: Settings, q: Parser, ch: byte)
    requires MayComplete(cfg, q) && HeaderLengthOk(q)
    ensures Sound(cfg, OnHeadersAlmostDone(cfg, q, ch)) && NoItem(OnHeadersAlmostDone(cfg, q, ch))
  {
    hide OnHeadersDone, CompleteMessage, HeadOf;
    if ch == LF {
      if q.flags.trailing {
        CompleteSound(cfg, q, q.upgrade);
      } else if !(q.flags.chunked && q.flags.contentLength) {
        HeadersDoneSound(cfg, Answered(cfg, q.(state := Header(HeadersDone), upgrade := WantsUpgrade(q))), ch);
      }
    }
  }

  /** A header line begins, or the header block ends. */
  predicate FieldOrNoItem(out: Outcome) {
    NoItem(out) || (out.fx == Open(Field) && out.q.state == Header(HeaderField))
  }

  /** A value begins. */
  predicate ValueBegins(out: Outcome) {
    out.q.errno == OK ==> out.fx == Open(Value) && out.q.state == Header(HeaderValue)
  }

  lemma NoItemMarked(s: State, out: Outcome)
    requires ResumeMark(s) == None && s != ChunkBody(ChunkDataAlmostDone) && (FieldOrNoItem(out) || ValueBegins(out))
    ensures Marked(s, out)
  {
  }

  lemma EmptyValueMarked(s: State, out: Outcome)
    requires ResumeMark(s) == None && s != ChunkBody(ChunkDataAlmostDone) && FieldOrNoItem(out)
    ensures Marked(s, Join(Close(Empty(Value)), out))
  {
  }

  lemma FieldStartSound(cfg: Settings, q: Parser, ch: byte)
    requires MayComplete(cfg, q) && HeaderLengthOk(q)
    ensures Sound(cfg, OnFieldStart(cfg, q, ch)) && FieldOrNoItem(OnFieldStart(cfg, q, ch))
  {
    hide OnHeadersAlmostDone, Token;
    HeadersAlmostDoneSound(cfg, q.(state := Header(HeadersAlmostDone)), ch);
  }

  /** Matching a literal: below its last character, at it, or failed. */
  lemma MatchRange(literal: string, index: nat, c: byte, partial: HState, full: HState, miss: HState)
    requires index <= |literal| - 1
    ensures var h := Match(literal, index, c, partial, full, miss);
            h == miss || (h == full && index == |literal| - 1) || (h == partial && index <= |literal| - 2)
  {
  }

  lemma FieldStateOk(h: HState, index: nat, ch: byte)
    requires NameState(h) && (FieldIndexMoves(h) ==> index <= NameLength(h) - 1)
    requires IsToken(ch)
    ensures var n := FieldState(h, index, ch);
            n.Some? && NameState(n.value) && (FieldIndexMoves(n.value) ==> index <= NameLength(n.value) - 2)
  {
  }

  lemma FieldSound(cfg: Settings, q: Parser, ch: byte)
    requires Inv(cfg, q) && q.state == Header(HeaderField)
    ensures Sound(cfg, OnField(q, ch)) && Marked(q.state, OnField(q, ch))
  {
    if IsToken(ch) {
      FieldStateOk(q.hstate, FieldIndex(q), ch);
    }
  }

  lemma ValueStarted(cfg: Settings, q: Parser)
    requires MayComplete(cfg, q) && HeaderLengthOk(q) && ValueOk(q) && q.state == Header(HeaderValue)
    ensures Sound(cfg, Value1(q))
  {
    hide ValueOk;
  }

  lemma ValueStartOk(cfg: Settings, q: Parser, ch: byte)
    requires HeaderLengthOk(q) && MayComplete(cfg, q)
    requires q.hstate.ContentLengthWs? ==> q.flags.contentLength
    ensures var out := OnValueStart(q, ch);
            out.q.errno == OK ==> HeaderLengthOk(out.q) && ValueOk(out.q) && MayComplete(cfg, out.q)
    ensures OnValueStart(q, ch).q.errno != AssertionFailed
  {
    hide Lower, ShouldKeepAlive;
    match q.hstate
    case ContentLength =>
    case Upgrade =>
    case TransferEncoding =>
    case Connection =>
    case _ =>
  }

  lemma ValueStartBegins(q: Parser, ch: byte)
    requires q.errno == OK
    ensures ValueBegins(OnValueStart(q, ch))
    ensures var out := OnValueStart(q, ch);
            out.q.errno == OK ==> out == Value1(out.q) && out.q.state == Header(HeaderValue)
  {
  }

  lemma ValueStartSound(cfg: Settings, q: Parser, ch: byte)
    requires MayComplete(cfg, q) && HeaderLengthOk(q)
    requires q.hstate.ContentLengthWs? ==> q.flags.contentLength
    ensures Sound(cfg, OnValueStart(q, ch)) && ValueBegins(OnValueStart(q, ch))
  {
    hide Inv, ValueOk, ValueBegins;
    ValueStartOk(cfg, q, ch);
    ValueStartBegins(q, ch);
    if OnValueStart(q, ch).q.errno == OK {
      ValueStarted(cfg, OnValueStart(q, ch).q);
    }
  }

  lemma LengthDigitSound(cfg: Settings, q: Parser, ch: byte)
    requires Inv(cfg, q) && q.state == Header(HeaderValue) && q.hstate.ContentLengthNum?
    ensures Sound(cfg, OnLengthDigit(q, ch))
  {
  }

  lemma MatchValueSound(cfg: Settings, q: Parser, literal: string, ch: byte, full: HState, miss: HState)
    requires Inv(cfg, q) && q.state == Header(HeaderValue) && |literal| == ValueLength(q.hstate) > 0
    requires ValueState(full) && ValueLength(full) == 0 && !full.MatchingConnectionTokenStart?
    requires miss == General || miss == MatchingConnectionToken
    requires !full.ContentLengthNum? && !full.ContentLengthWs?
    ensures Sound(cfg, MatchValue(q, literal, ch, full, miss))
  {
    MatchRange(literal, Bump(q.index), Lower(ch), q.hstate, full, miss);
  }

  lemma PlainValueSound(cfg: Settings, q: Parser, ch: byte)
    requires Inv(cfg, q) && q.state == Header(HeaderValue) && ValueLength(q.hstate) == 0 && !q.hstate.ContentLengthNum?
    ensures Sound(cfg, OnValueChar(q, ch))
  {
    hide Lower, IsToken, Match, OnLengthDigit, OnConnectionToken, TokenStart;
    TokenStartOk(Lower(ch));
    ConnectionTokenSound(cfg, q, ch);
  }

  lemma TokenStartOk(c: byte)
    ensures ValueState(TokenStart(c)) && (ValueLength(TokenStart(c)) > 0 ==> ValueLength(TokenStart(c)) >= 2)
    ensures !TokenStart(c).ContentLengthNum? && !TokenStart(c).ContentLengthWs?
  {
  }

  lemma ConnectionTokenSound(cfg: Settings, q: Parser, ch: byte)
    requires Inv(cfg, q) && q.state == Header(HeaderValue) && ValueLength(q.hstate) == 0 && !q.hstate.ContentLengthNum?
    ensures Sound(cfg, OnConnectionToken(q, ch))
  {
  }

  /** Flags that differ at most in what a Connection header says. */
  predicate SameFraming(a: Flags, b: Flags) {
    a.contentLength == b.contentLength && a.trailing == b.trailing && a.skipBody == b.skipBody && a.chunked == b.chunked
  }

  /** A token's flag is none of those that the body's end depends on. */
  lemma TokenKeeps(q: Parser)
    ensures SameFraming(ConnectionFlag(q), q.flags)
  {
    hide SameFraming;
    FramingApart(q.flags);
  }

  lemma FramingApart(f: Flags)
    ensures SameFraming(f, f) && SameFraming(f.(keepAlive := true), f) && SameFraming(f.(close := true), f)
    ensures SameFraming(f.(connectionUpgrade := true), f)
  {
  }

  lemma ValueCharStays(q: Parser, ch: byte)
    requires q.state == Header(HeaderValue)
    ensures OnValueChar(q, ch).fx == NOTHING && OnValueChar(q, ch).q.state == Header(HeaderValue)
  {
    hide Match, TokenStart, PushDecimal, ConnectionFlag;
  }

  lemma ValueCharSound(cfg: Settings, q: Parser, ch: byte)
    requires Inv(cfg, q) && q.state == Header(HeaderValue)
    ensures Sound(cfg, OnValueChar(q, ch))
    ensures OnValueChar(q, ch).fx == NOTHING && OnValueChar(q, ch).q.state == Header(HeaderValue)
  {
    hide OnLengthDigit, MatchValue, Sound, Inv;
    ValueCharStays(q, ch);
    match q.hstate
    case ContentLengthNum => LengthDigitSound(cfg, q, ch);
    case MatchingTransferEncodingChunked => MatchValueSound(cfg, q, CHUNKED, ch, TransferEncodingChunked, General);
    case MatchingConnectionKeepAlive =>
      MatchValueSound(cfg, q, KEEP_ALIVE, ch, ConnectionKeepAlive, MatchingConnectionToken);
    case MatchingConnectionClose =>
      MatchValueSound(cfg, q, CLOSE, ch, ConnectionClose, MatchingConnectionToken);
    case MatchingConnectionUpgrade =>
      MatchValueSound(cfg, q, UPGRADE, ch, ConnectionUpgrade, MatchingConnectionToken);
    case _ => PlainValueSound(cfg, q, ch);
  }

  lemma ValueSound(cfg: Settings, q: Parser, ch: byte)
    requires Inv(cfg, q) && q.state == Header(HeaderValue)
    ensures Sound(cfg, OnValue(cfg, q, ch)) && Marked(q.state, OnValue(cfg, q, ch))
  {
    hide OnValueChar, ValueState, ValueLength;
    ValueCharSound(cfg, q, ch);
  }

  lemma DiscardWsSound(cfg: Settings, q: Parser, ch: byte)
    requires Inv(cfg, q) && q.state == Header(HeaderValueDiscardWs)
    ensures Sound(cfg, OnDiscardWs(q, ch)) && Marked(q.state, OnDiscardWs(q, ch))
  {
    hide OnValueStart, ValueBegins, NameLength;
    ValueStartSound(cfg, q, ch);
    NoItemMarked(q.state, OnValueStart(q, ch));
  }

  lemma AlmostDoneSound(cfg: Settings, q: Parser, ok: bool, e: Errno)
    requires Inv(cfg, q) && (q.state == Header(HeaderAlmostDone) || q.state == Header(HeaderValueDiscardWsAlmostDone))
    requires e != AssertionFailed && e != OK
    ensures var out := Require(ok, q, e, if q.state == Header(HeaderAlmostDone) then Header(HeaderValueLws)
                                         else Header(HeaderValueDiscardLws));
            Sound(cfg, out) && Marked(q.state, out)
  {
  }

  lemma FinishedHeader(cfg: Settings, q: Parser)
    requires Inv(cfg, q) && q.state.Header?
    ensures var q1 := q.(flags := FinishHeader(q), state := Header(HeaderFieldStart));
            MayComplete(cfg, q1) && HeaderLengthOk(q1) && q1.flags.trailing == q.flags.trailing
  {
  }

  lemma LwsSound(cfg: Settings, q: Parser, ch: byte)
    requires Inv(cfg, q) && q.state == Header(HeaderValueLws)
    ensures Sound(cfg, OnLws(cfg, q, ch)) && Marked(q.state, OnLws(cfg, q, ch))
  {
    hide OnValueStart, OnFieldStart, FinishHeader, FieldOrNoItem, ValueBegins, Sound, Marked, ValueState, ValueLength;
    if ch == ' ' || ch == TAB {
      ValueStartSound(cfg, q.(state := Header(HeaderValueStart),
                              hstate := if q.hstate.ContentLengthNum? then ContentLengthWs else q.hstate), ch);
    } else {
      FinishedHeader(cfg, q);
      FieldStartSound(cfg, q.(flags := FinishHeader(q), state := Header(HeaderFieldStart)), ch);
    }
    NoItemMarked(q.state, OnLws(cfg, q, ch));
  }

  lemma DiscardLwsSound(cfg: Settings, q: Parser, ch: byte)
    requires Inv(cfg, q) && q.state == Header(HeaderValueDiscardLws)
    ensures Sound(cfg, OnDiscardLws(cfg, q, ch)) && Marked(q.state, OnDiscardLws(cfg, q, ch))
  {
    hide OnFieldStart, FinishHeader, FieldOrNoItem, NameState, NameLength;
    var q1 := q.(flags := FinishHeader(q), state := Header(HeaderFieldStart));
    FinishedHeader(cfg, q);
    FieldStartSound(cfg, q1, ch);
    EmptyValueMarked(q.state, OnFieldStart(cfg, q1, ch));
  }

  lemma HeaderSound(cfg: Settings, q: Parser, ch: byte)
    requires Inv(cfg, q) && q.state.Header?
    ensures Sound(cfg, OnHeader(cfg, q, ch)) && Marked(q.state, OnHeader(cfg, q, ch))
  {
    match q.state
    case Header(HeaderFieldStart) => FieldStartSound(cfg, q, ch); NoItemMarked(q.state, OnFieldStart(cfg, q, ch));
    case Header(HeaderField) => FieldSound(cfg, q, ch);
    case Header(HeaderValueDiscardWs) => DiscardWsSound(cfg, q, ch);
    case Header(HeaderValueDiscardLws) => DiscardLwsSound(cfg, q, ch);
    case Header(HeaderValue) => ValueSound(cfg, q, ch);
    case Header(HeaderValueLws) => LwsSound(cfg, q, ch);
    case Header(HeadersAlmostDone) =>
      HeadersAlmostDoneSound(cfg, q, ch); NoItemMarked(q.state, OnHeadersAlmostDone(cfg, q, ch));
    case _ => AlmostDoneSound(cfg, q, ch == LF, if q.state == Header(HeaderAlmostDone) then LF_EXPECTED else STRICT);
  }

  lemma ChunkParametersSound(cfg: Settings, q: Parser, ch: byte)
    requires Inv(cfg, q) && q.state == ChunkLine(ChunkParameters)
    ensures Sound(cfg, OnChunkLine(q, ch)) && Marked(q.state, OnChunkLine(q, ch))
  {
  }

  lemma ChunkSizeSound(cfg: Settings, q: Parser, ch: byte)
    requires Inv(cfg, q) && q.state == ChunkLine(ChunkSize)
    ensures Sound(cfg, OnChunkLine(q, ch)) && Marked(q.state, OnChunkLine(q, ch))
  {
  }

  lemma ChunkSizeEndSound(cfg: Settings, q: Parser, ch: byte)
    requires Inv(cfg, q) && q.state == ChunkLine(ChunkSizeAlmostDone)
    ensures Sound(cfg, OnChunkLine(q, ch)) && Marked(q.state, OnChunkLine(q, ch))
  {
  }

  lemma ChunkDataSound(cfg: Settings, q: Parser, ch: byte)
    requires Inv(cfg, q) && q.state == ChunkBody(ChunkData)
    ensures Sound(cfg, OnChunkBody(q, ch)) && Marked(q.state, OnChunkBody(q, ch))
  {
  }

  lemma ChunkDataEndSound(cfg: Settings, q: Parser, ch: byte)
    requires Inv(cfg, q) && (q.state == ChunkBody(ChunkDataAlmostDone) || q.state == ChunkBody(ChunkDataDone))
    ensures Sound(cfg, OnChunkBody(q, ch)) && Marked(q.state, OnChunkBody(q, ch))
  {
  }

  lemma ChunkStartSound(cfg: Settings, q: Parser, ch: byte)
    requires Inv(cfg, q.(nread := 0)) && q.state == ChunkLine(ChunkSizeStart) && q.nread == 1 <= cfg.maxHeaderSize
    ensures Sound(cfg, OnChunkLine(q, ch)) && Marked(q.state, OnChunkLine(q, ch))
  {
  }

  lemma BodySound(cfg: Settings, q: Parser, ch: byte)
    requires Inv(cfg, q) && (q.state == Content(BodyIdentity) || q.state == Content(BodyIdentityEof))
    ensures Sound(cfg, OnBody(q, ch)) && Marked(q.state, OnBody(q, ch))
  {
    CompleteSound(cfg, q.(contentLength := 0), q.upgrade);
  }

  /** Counting the byte keeps everything but the rule that a chunk size starts with a cleared counter. */
  lemma CountInv(cfg: Settings, q: Parser)
    requires Inv(cfg, q) && q.state != ChunkLine(ChunkSizeStart)
    requires Count(q, 1).nread <= cfg.maxHeaderSize
    ensures Inv(cfg, Count(q, 1))
  {
  }

  lemma SwitchSound(cfg: Settings, q: Parser, ch: byte)
    requires Inv(cfg, q) && q.state != ChunkLine(ChunkSizeStart)
    ensures Sound(cfg, Switch(cfg, q, ch)) && Marked(q.state, Switch(cfg, q, ch))
  {
    hide Sound, Marked, OnStart, OnStatusLine, OnReqMethod, OnSpacesBeforeUrl, OnUrl, OnReqVersion, OnHeader,
         OnChunkLine, OnChunkBody, OnBody;
    match q.state
    case Start(_) => StartSound(cfg, q, ch); StartMarked(q, ch);
    case StatusLine(s) =>
      if BeforeStatus(s) { HttpWordSound(cfg, q, ch); } else { StatusSound(cfg, q, ch); }
      StatusLineMarked(q, ch);
    case RequestStart(ReqMethod) => ReqMethodSound(cfg, q, ch);
    case RequestStart(ReqSpacesBeforeUrl) => SpacesBeforeUrlSound(cfg, q, ch);
    case Target(_) => UrlSound(cfg, q, ch); UrlMarked(q, ch);
    case Version(_) => ReqVersionSound(cfg, q, ch); ReqVersionMarked(q, ch);
    case Header(_) => HeaderSound(cfg, q, ch);
    case ChunkLine(ChunkSizeAlmostDone) => ChunkSizeEndSound(cfg, q, ch);
    case ChunkLine(ChunkSize) => ChunkSizeSound(cfg, q, ch);
    case ChunkLine(ChunkParameters) => ChunkParametersSound(cfg, q, ch);
    case ChunkLine(ChunkSizeStart) =>
    case ChunkBody(ChunkData) => ChunkDataSound(cfg, q, ch);
    case ChunkBody(ChunkDataAlmostDone) => ChunkDataEndSound(cfg, q, ch);
    case ChunkBody(ChunkDataDone) => ChunkDataEndSound(cfg, q, ch);
    case Content(_) => BodySound(cfg, q, ch);
  }

  /** The joint invariant is kept by every byte, and no assert() of the source fails. */
  lemma StepSound(cfg: Settings, q: Parser, ch: byte)
    requires Inv(cfg, q)
    ensures Step(cfg, q, ch).q.errno != AssertionFailed
    ensures Step(cfg, q, ch).q.errno == OK ==>
              Inv(cfg, Step(cfg, q, ch).q) && MarksFollow(q.state, Step(cfg, q, ch))
  {
    if !ParsingHeader(q.state) {
      SwitchSound(cfg, q, ch);
    } else if Count(q, 1).nread <= cfg.maxHeaderSize {
      if q.state == ChunkLine(ChunkSizeStart) {
        ChunkStartSound(cfg, Count(q, 1), ch);
      } else {
        CountInv(cfg, q);
        SwitchSound(cfg, Count(q, 1), ch);
      }
    }
  }

  /** The invariant holds wherever no error has been found. */
  lemma {:induction false} RunSound(cfg: Settings, c: Conf, w: seq<byte>)
    requires Inv(cfg, c.q) && Run(cfg, c, w).q.errno == OK
    ensures Inv(cfg, Run(cfg, c, w).q)
    decreases |w|
  {
    hide Inv, Step, FeedAll, ByteEvents;
    if w != [] {
      var n := |w| - 1;
      assert w == w[..n] + [w[n]];
      OkBefore(cfg, c, w[..n], [w[n]]);
      RunSound(cfg, c, w[..n]);
      StepSound(cfg, Run(cfg, c, w[..n]).q, w[n]);
    }
  }
}
