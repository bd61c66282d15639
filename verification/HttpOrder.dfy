/** Every byte keeps the monitor and the parser's state in agreement: the callbacks of any input, cut in
    any way, are a beginning of well-formed messages whose bodies have exactly the announced sizes. */
module HttpOrder {
  import opened Common
  import opened HttpTypes
  import opened HttpUrlChar
  import opened HttpStep
  import opened HttpRun
  import opened HttpInvariant
  import opened HttpGrammar

  // ------------------------------------------------------------------ the monitor on one byte

  function AfterClosing(m: Phase, s: State, c: Closing): Phase {
    match c
    case Keep => m
    case Flush(k) => if ResumeMark(s) == Some(k) then AfterItem(m, k, 0) else m
    case Empty(k) => AfterItem(m, k, 0)
    case Through(k) => AfterItem(m, k, 1)
  }

  function AfterNotices(m: Phase, notices: seq<Event>): Phase
    requires |notices| <= 2
  {
    if |notices| == 0 then m
    else if |notices| == 1 then After(m, notices[0])
    else After(After(m, notices[0]), notices[1])
  }

  function AfterOpening(m: Phase, s: State, fx: Effects): Phase {
    match fx.open
    case Some(k) => AfterItem(m, k, 1)
    case None => if fx.close.Keep? && ResumeMark(s).Some? then AfterItem(m, ResumeMark(s).value, 1) else m
  }

  function AfterByte(m: Phase, s: State, out: Outcome): Phase
    requires |out.fx.notices| <= 2
  {
    var m2 := AfterNotices(AfterClosing(m, s, out.fx.close), out.fx.notices);
    if out.q.errno == OK then AfterOpening(m2, s, out.fx) else m2
  }

  lemma MonitorOne(m: Phase, e: Event)
    ensures Monitor(m, [e]) == After(m, e)
  {
    assert [] + [e] == [e];
    MonitorSnoc(m, [], e);
  }

  lemma MonitorNotices(m: Phase, notices: seq<Event>)
    requires |notices| <= 2
    ensures Monitor(m, notices) == AfterNotices(m, notices)
  {
    if |notices| == 1 {
      assert notices == [notices[0]];
      MonitorOne(m, notices[0]);
    } else if |notices| == 2 {
      assert notices == [notices[0]] + [notices[1]];
      MonitorSnoc(m, [notices[0]], notices[1]);
      MonitorOne(m, notices[0]);
    }
  }

  lemma MonitorNone(m: Phase)
    ensures Monitor(m, []) == m
  {
  }

  lemma MonitorClosing(m: Phase, s: State, c: Closing, ch: byte)
    ensures Monitor(m, ClosingEvents(s, c, ch)) == AfterClosing(m, s, c)
  {
    hide ResumeMark, AfterItem, Monitor;
    MonitorNone(m);
    if !c.Keep? {
      MonitorOne(m, Data(c.kind, []));
      MonitorOne(m, Data(c.kind, [ch]));
    }
  }

  lemma MonitorOpening(m: Phase, s: State, fx: Effects, ch: byte)
    ensures Monitor(m, OpenEvents(s, fx, ch)) == AfterOpening(m, s, fx)
  {
    hide ResumeMark, AfterItem, Monitor;
    MonitorNone(m);
    if fx.open.Some? {
      MonitorOne(m, Data(fx.open.value, [ch]));
    } else if ResumeMark(s).Some? {
      MonitorOne(m, Data(ResumeMark(s).value, [ch]));
    }
  }

  lemma MonitorByte(m: Phase, s: State, out: Outcome, ch: byte)
    requires |out.fx.notices| <= 2
    ensures Monitor(m, ByteEvents(s, out, ch)) == AfterByte(m, s, out)
  {
    hide ResumeMark, AfterItem, Monitor, AfterNotices;
    var closing, notices := ClosingEvents(s, out.fx.close, ch), out.fx.notices;
    var opening := if out.q.errno == OK then OpenEvents(s, out.fx, ch) else [];
    MonitorConcat(m, closing + notices, opening);
    MonitorConcat(m, closing, notices);
    var m1 := Monitor(m, closing);
    MonitorNotices(m1, notices);
    MonitorClosing(m, s, out.fx.close, ch);
    MonitorOpening(Monitor(m1, notices), s, out.fx, ch);
    MonitorNone(Monitor(m1, notices));
  }

  // ------------------------------------------------------------------ agreement with the parser's state

  /** Where a header line may begin. */
  predicate AtLineEnd(m: Phase, q: Parser) {
    if q.flags.trailing then m == Trailer || m == InValue(false, true)
    else m == StartLine(q.typ.Response?) || m == InValue(q.typ.Response?, false)
  }

  predicate InNamePhase(m: Phase, q: Parser) {
    m == InField(!q.flags.trailing && q.typ.Response?, q.flags.trailing)
  }

  predicate InValuePhase(m: Phase, q: Parser) {
    m == InValue(!q.flags.trailing && q.typ.Response?, q.flags.trailing)
  }

  predicate HeaderAgrees(m: Phase, q: Parser, h: HeaderPoint) {
    if h.HeaderFieldStart? || h.HeadersAlmostDone? then AtLineEnd(m, q)
    else if InName(h) then InNamePhase(m, q)
    else InValuePhase(m, q)
  }

  predicate Agrees(m: Phase, q: Parser) {
    match q.state
    case Start(s) => m == (if s.Dead? then Closed else Idle)
    case StatusLine(s) => m == (if s.ResStatus? || s.ResLineAlmostDone? then StartLine(true) else Begun)
    case RequestStart(_) => m == Begun
    case Target(_) => m == StartLine(false)
    case Version(_) => m == StartLine(false)
    case Header(h) => HeaderAgrees(m, q, h)
    case ChunkLine(_) => m == Chunks
    case ChunkBody(_) => m == Chunk(q.contentLength)
    case Content(c) => m == (if c.BodyIdentity? then Sized(q.contentLength) else UntilEof)
  }

  /** The byte's callbacks are in order, and the agreement goes on. */
  predicate Ordered(m: Phase, s: State, out: Outcome) {
    && |out.fx.notices| <= 2
    && AfterByte(m, s, out) != Wrong
    && (out.q.errno == OK ==> Agrees(AfterByte(m, s, out), out.q))
  }

  lemma StartOrdered(m: Phase, q: Parser, ch: byte)
    requires q.errno == OK && q.state.Start? && Agrees(m, q)
    ensures Ordered(m, q.state, OnStart(q, ch))
  {
  }

  lemma StatusLineOrdered(m: Phase, q: Parser, ch: byte)
    requires q.errno == OK && q.state.StatusLine? && StateOk(q) && Agrees(m, q)
    ensures Ordered(m, q.state, OnStatusLine(q, ch))
  {
    hide OnStatusStart;
    if q.state.status in {ResStatusCode, ResStatusStart} {
      StatusStartOrdered(m, q, ch);
    }
  }

  lemma StatusStartOrdered(m: Phase, q: Parser, ch: byte)
    requires q.errno == OK && q.state in {StatusLine(ResStatusCode), StatusLine(ResStatusStart)}
    requires StateOk(q) && Agrees(m, q)
    ensures Ordered(m, q.state, OnStatusStart(q, ch))
  {
  }

  lemma ReqMethodOrdered(m: Phase, q: Parser, ch: byte)
    requires q.errno == OK && q.state == RequestStart(ReqMethod) && Agrees(m, q)
    ensures Ordered(m, q.state, OnReqMethod(q, ch))
  {
    hide MethodString, NextMethod;
  }

  lemma SpacesBeforeUrlOrdered(m: Phase, q: Parser, ch: byte)
    requires q.errno == OK && q.state == RequestStart(ReqSpacesBeforeUrl) && Agrees(m, q)
    ensures Ordered(m, q.state, OnSpacesBeforeUrl(q, ch))
  {
    hide ParseUrlChar;
    UrlCharStates(if q.verb == CONNECT then Target(ReqServerStart) else RequestStart(ReqSpacesBeforeUrl), ch);
  }

  lemma UrlOrdered(m: Phase, q: Parser, ch: byte)
    requires q.errno == OK && RequestLineOk(q) && q.state.Target? && Agrees(m, q)
    ensures Ordered(m, q.state, OnUrl(q, ch))
  {
    hide ParseUrlChar;
    UrlCharStates(q.state, ch);
  }

  lemma ReqVersionOrdered(m: Phase, q: Parser, ch: byte)
    requires q.errno == OK && RequestLineOk(q) && q.state.Version? && Agrees(m, q)
    ensures Ordered(m, q.state, OnReqVersion(q, ch))
  {
  }

  // ------------------------------------------------------------------ headers

  /** The end of a message, in a phase that allows it. */
  lemma CompleteOrdered(m: Phase, q: Parser, leave: bool)
    requires m == AwaitEnd || m == Sized(0) || m == TrailerEnd
    requires q.errno == OK
    ensures var out := CompleteMessage(q, leave);
            After(m, out.fx.notices[0]) != Wrong && Agrees(After(m, out.fx.notices[0]), out.q)
  {
  }

  lemma HeadersDoneOrdered(q: Parser, ch: byte)
    requires q.typ != Both && q.errno == OK && q.contentLength <= NO_LENGTH
    ensures var out := OnHeadersDone(q, ch);
            && |out.fx.notices| <= 1 && AfterNotices(BodyPhase(HeadOf(q)), out.fx.notices) != Wrong
            && (out.q.errno == OK ==> Agrees(AfterNotices(BodyPhase(HeadOf(q)), out.fx.notices), out.q))
  {
  }

  /** A header line begins or the header block ends, in a phase that allows it. */
  predicate LineOrdered(m: Phase, out: Outcome) {
    && FieldOrNoItem(out)
    && |out.fx.notices| <= 2
    && AfterNotices(m, out.fx.notices) != Wrong
    && (out.q.errno == OK ==>
          Agrees(if out.fx.open.Some? then AfterItem(AfterNotices(m, out.fx.notices), Field, 1)
                 else AfterNotices(m, out.fx.notices), out.q))
  }

  lemma TrailerEndOrdered(cfg: Settings, m: Phase, q: Parser)
    requires MayComplete(cfg, q) && HeaderLengthOk(q) && AtLineEnd(m, q) && q.flags.trailing
    ensures LineOrdered(m, OnHeadersAlmostDone(cfg, q, LF))
  {
    hide CompleteMessage, Agrees;
    CompleteOrdered(TrailerEnd, q, q.upgrade);
    OneNotice(q, q.upgrade);
    HeadersAlmostDoneSound(cfg, q, LF);
  }

  lemma HeadersEndOrdered(cfg: Settings, m: Phase, q: Parser)
    requires MayComplete(cfg, q) && HeaderLengthOk(q) && AtLineEnd(m, q) && !q.flags.trailing
    ensures LineOrdered(m, OnHeadersAlmostDone(cfg, q, LF))
  {
    hide OnHeadersDone, CompleteMessage, BodyPhase, Agrees;
    HeadersAlmostDoneSound(cfg, q, LF);
    if !(q.flags.chunked && q.flags.contentLength) {
      HeadersDoneOrdered(Answered(cfg, q.(state := Header(HeadersDone), upgrade := WantsUpgrade(q))), LF);
    }
  }

  lemma HeadersAlmostDoneOrdered(cfg: Settings, m: Phase, q: Parser, ch: byte)
    requires MayComplete(cfg, q) && HeaderLengthOk(q) && AtLineEnd(m, q)
    ensures LineOrdered(m, OnHeadersAlmostDone(cfg, q, ch))
  {
    hide LineOrdered;
    if ch != LF {
      StrictOrdered(cfg, m, q, ch);
    } else if q.flags.trailing {
      TrailerEndOrdered(cfg, m, q);
    } else {
      HeadersEndOrdered(cfg, m, q);
    }
  }

  lemma StrictOrdered(cfg: Settings, m: Phase, q: Parser, ch: byte)
    requires AtLineEnd(m, q) && ch != LF
    ensures LineOrdered(m, OnHeadersAlmostDone(cfg, q, ch))
  {
  }

  lemma OneNotice(q: Parser, leave: bool)
    ensures CompleteMessage(q, leave).fx.notices == [CompleteMessage(q, leave).fx.notices[0]]
  {
  }

  lemma FieldStartOrdered(cfg: Settings, m: Phase, q: Parser, ch: byte)
    requires MayComplete(cfg, q) && HeaderLengthOk(q) && AtLineEnd(m, q)
    ensures LineOrdered(m, OnFieldStart(cfg, q, ch))
  {
    hide OnHeadersAlmostDone, Sound, NoItem, Token;
    FieldStartSound(cfg, q, ch);
    HeadersAlmostDoneOrdered(cfg, m, q.(state := Header(HeadersAlmostDone)), ch);
  }

  lemma LineIsOrdered(m: Phase, s: State, out: Outcome)
    requires ResumeMark(s) == None && LineOrdered(m, out)
    ensures Ordered(m, s, out)
  {
    hide After;
  }

  lemma EmptyValueOrdered(m: Phase, s: State, out: Outcome)
    requires ResumeMark(s) == None && LineOrdered(AfterItem(m, Value, 0), out)
    ensures Ordered(m, s, Join(Close(Empty(Value)), out))
  {
    hide Agrees, After;
    assert [] + out.fx.notices == out.fx.notices;
  }

  lemma FieldOrdered(m: Phase, q: Parser, ch: byte)
    requires q.errno == OK && q.state == Header(HeaderField) && InNamePhase(m, q)
    ensures Ordered(m, q.state, OnField(q, ch))
  {
    hide FieldState;
  }

  /** A value begins or goes on. */
  predicate ValueOrdered(out: Outcome, flags: Flags, typ: ParserType) {
    && out.fx.close == Keep && out.fx.notices == []
    && (out.q.errno == OK ==> out.q.state == Header(HeaderValue))
    && out.q.flags.trailing == flags.trailing && out.q.typ == typ
  }

  lemma ValueStartOrdered(q: Parser, ch: byte)
    requires q.errno == OK
    ensures ValueOrdered(OnValueStart(q, ch), q.flags, q.typ) && ValueBegins(OnValueStart(q, ch))
  {
    hide Lower, OnFirstDigit;
    FirstDigitOrdered(q.(state := Header(HeaderValue), index := 0), ch);
  }

  lemma FirstDigitOrdered(q: Parser, ch: byte)
    requires q.errno == OK && q.state == Header(HeaderValue)
    ensures ValueOrdered(OnFirstDigit(q, ch), q.flags, q.typ) && ValueBegins(OnFirstDigit(q, ch))
  {
    hide IsNum, DigitValue;
  }

  lemma DiscardWsOrdered(m: Phase, q: Parser, ch: byte)
    requires q.errno == OK && q.state == Header(HeaderValueDiscardWs) && InNamePhase(m, q)
    ensures Ordered(m, q.state, OnDiscardWs(q, ch))
  {
    hide OnValueStart;
    ValueStartOrdered(q, ch);
  }

  predicate SameMessage(a: Parser, b: Parser) {
    a.flags.trailing == b.flags.trailing && a.typ == b.typ
  }

  lemma LengthOrdered(q: Parser, ch: byte)
    ensures SameMessage(q, OnLengthDigit(q, ch).q)
  {
    hide PushDecimal;
  }

  lemma TokenOrdered(q: Parser, ch: byte)
    ensures SameMessage(q, OnConnectionToken(q, ch).q)
  {
    hide ConnectionFlag;
    TokenKeeps(q);
  }

  lemma MatchOrdered(q: Parser, ch: byte, literal: string, full: HState, miss: HState)
    ensures SameMessage(q, MatchValue(q, literal, ch, full, miss).q)
  {
    hide Match;
  }

  lemma ValueCharOrdered(q: Parser, ch: byte)
    requires q.errno == OK && q.state == Header(HeaderValue)
    ensures ValueOrdered(OnValueChar(q, ch), q.flags, q.typ) && OnValueChar(q, ch).fx.open == None
  {
    hide OnLengthDigit, OnConnectionToken, MatchValue, TokenStart;
    ValueCharStays(q, ch);
    LengthOrdered(q, ch);
    TokenOrdered(q, ch);
    MatchOrdered(q, ch, CHUNKED, TransferEncodingChunked, General);
    MatchOrdered(q, ch, KEEP_ALIVE, ConnectionKeepAlive, MatchingConnectionToken);
    MatchOrdered(q, ch, CLOSE, ConnectionClose, MatchingConnectionToken);
    MatchOrdered(q, ch, UPGRADE, ConnectionUpgrade, MatchingConnectionToken);
  }

  lemma ValueLineOrdered(cfg: Settings, m: Phase, q: Parser, ch: byte)
    requires q.errno == OK && q.state == Header(HeaderValue) && InValuePhase(m, q)
    ensures Ordered(m, q.state, OnValue(cfg, q, ch))
  {
    hide OnValueChar;
    ValueCharOrdered(q, ch);
  }

  lemma LwsOrdered(cfg: Settings, m: Phase, q: Parser, ch: byte)
    requires Inv(cfg, q) && q.state == Header(HeaderValueLws) && InValuePhase(m, q)
    ensures Ordered(m, q.state, OnLws(cfg, q, ch))
  {
    hide OnValueStart, OnFieldStart, FinishHeader, StateOk;
    if ch == ' ' || ch == TAB {
      ValueStartOrdered(q.(state := Header(HeaderValueStart),
                           hstate := if q.hstate.ContentLengthNum? then ContentLengthWs else q.hstate), ch);
    } else {
      FinishedHeader(cfg, q);
      var q1 := q.(flags := FinishHeader(q), state := Header(HeaderFieldStart));
      FieldStartOrdered(cfg, m, q1, ch);
      LineIsOrdered(m, q.state, OnFieldStart(cfg, q1, ch));
    }
  }

  lemma DiscardLwsOrdered(cfg: Settings, m: Phase, q: Parser, ch: byte)
    requires Inv(cfg, q) && q.state == Header(HeaderValueDiscardLws) && InNamePhase(m, q)
    ensures Ordered(m, q.state, OnDiscardLws(cfg, q, ch))
  {
    hide OnFieldStart, FinishHeader, StateOk;
    if !(ch == ' ' || ch == TAB) {
      FinishedHeader(cfg, q);
      var q1 := q.(flags := FinishHeader(q), state := Header(HeaderFieldStart));
      FieldStartOrdered(cfg, AfterItem(m, Value, 0), q1, ch);
      EmptyValueOrdered(m, q.state, OnFieldStart(cfg, q1, ch));
    }
  }

  lemma AlmostDoneOrdered(m: Phase, q: Parser, ok: bool, e: Errno)
    requires q.state == Header(HeaderAlmostDone) || q.state == Header(HeaderValueDiscardWsAlmostDone)
    requires e != OK && q.errno == OK && Agrees(m, q)
    ensures var out := Require(ok, q, e, if q.state == Header(HeaderAlmostDone) then Header(HeaderValueLws)
                                         else Header(HeaderValueDiscardLws));
            Ordered(m, q.state, out)
  {
  }

  lemma HeaderOrdered(cfg: Settings, m: Phase, q: Parser, ch: byte)
    requires Inv(cfg, q) && q.state.Header? && Agrees(m, q)
    ensures Ordered(m, q.state, OnHeader(cfg, q, ch))
  {
    hide Ordered, OnFieldStart, OnField, OnDiscardWs, OnDiscardLws, OnValue, OnLws, OnHeadersAlmostDone;
    match q.state
    case Header(HeaderFieldStart) =>
      FieldStartOrdered(cfg, m, q, ch); LineIsOrdered(m, q.state, OnFieldStart(cfg, q, ch));
    case Header(HeaderField) => FieldOrdered(m, q, ch);
    case Header(HeaderValueDiscardWs) => DiscardWsOrdered(m, q, ch);
    case Header(HeaderValueDiscardLws) => DiscardLwsOrdered(cfg, m, q, ch);
    case Header(HeaderValue) => ValueLineOrdered(cfg, m, q, ch);
    case Header(HeaderValueLws) => LwsOrdered(cfg, m, q, ch);
    case Header(HeadersAlmostDone) =>
      HeadersAlmostDoneOrdered(cfg, m, q, ch); LineIsOrdered(m, q.state, OnHeadersAlmostDone(cfg, q, ch));
    case _ => AlmostDoneOrdered(m, q, ch == LF, if q.state == Header(HeaderAlmostDone) then LF_EXPECTED else STRICT);
  }

  // ------------------------------------------------------------------ body

  lemma ChunkSizeOrdered(m: Phase, q: Parser, ch: byte)
    requires q.errno == OK
    requires q.state in {ChunkLine(ChunkSizeStart), ChunkLine(ChunkSize), ChunkLine(ChunkParameters)}
    requires m == Chunks
    ensures Ordered(m, q.state, OnChunkLine(q, ch))
  {
    hide PushHex, Unhex;
  }

  lemma ChunkSizeEndOrdered(m: Phase, q: Parser, ch: byte)
    requires q.errno == OK && q.state == ChunkLine(ChunkSizeAlmostDone) && m == Chunks
    ensures Ordered(m, q.state, OnChunkLine(q, ch))
  {
  }

  lemma ChunkDataOrdered(m: Phase, q: Parser, ch: byte)
    requires q.errno == OK && q.state == ChunkBody(ChunkData) && m == Chunk(q.contentLength)
    ensures Ordered(m, q.state, OnChunkBody(q, ch))
  {
  }

  lemma ChunkDataEndOrdered(m: Phase, q: Parser, ch: byte)
    requires q.errno == OK && (q.state == ChunkBody(ChunkDataAlmostDone) || q.state == ChunkBody(ChunkDataDone))
    requires q.contentLength == 0 && m == Chunk(0)
    ensures Ordered(m, q.state, OnChunkBody(q, ch))
  {
  }

  lemma BodyOrdered(m: Phase, q: Parser, ch: byte)
    requires q.errno == OK && (q.state == Content(BodyIdentity) || q.state == Content(BodyIdentityEof))
    requires m == (if q.state == Content(BodyIdentity) then Sized(q.contentLength) else UntilEof)
    ensures Ordered(m, q.state, OnBody(q, ch))
  {
  }

  // ------------------------------------------------------------------ every byte, every input

  lemma ContentPoints(cfg: Settings, q: Parser)
    requires Inv(cfg, q) && q.state.Content?
    ensures q.state == Content(BodyIdentity) || q.state == Content(BodyIdentityEof)
  {
  }

  lemma SwitchOrdered(cfg: Settings, m: Phase, q: Parser, ch: byte)
    requires Inv(cfg, if q.state == ChunkLine(ChunkSizeStart) then q.(nread := 0) else q) && Agrees(m, q)
    ensures Ordered(m, q.state, Switch(cfg, q, ch))
  {
    hide Ordered, OnStart, OnStatusLine, OnReqMethod, OnSpacesBeforeUrl, OnUrl, OnReqVersion, OnHeader,
         OnChunkLine, OnChunkBody, OnBody;
    match q.state
    case Start(_) => StartOrdered(m, q, ch);
    case StatusLine(_) => StatusLineOrdered(m, q, ch);
    case RequestStart(ReqMethod) => ReqMethodOrdered(m, q, ch);
    case RequestStart(ReqSpacesBeforeUrl) => SpacesBeforeUrlOrdered(m, q, ch);
    case Target(_) => UrlOrdered(m, q, ch);
    case Version(_) => ReqVersionOrdered(m, q, ch);
    case Header(_) => HeaderOrdered(cfg, m, q, ch);
    case ChunkLine(ChunkSizeAlmostDone) => ChunkSizeEndOrdered(m, q, ch);
    case ChunkLine(_) => ChunkSizeOrdered(m, q, ch);
    case ChunkBody(ChunkData) => ChunkDataOrdered(m, q, ch);
    case ChunkBody(_) => ChunkDataEndOrdered(m, q, ch);
    case Content(_) =>
      ContentPoints(cfg, q);
      BodyOrdered(m, q, ch);
  }

  lemma CountAgrees(cfg: Settings, m: Phase, q: Parser)
    requires Inv(cfg, q) && Agrees(m, q) && Count(q, 1).nread <= cfg.maxHeaderSize
    ensures Agrees(m, Count(q, 1))
    ensures Inv(cfg, if q.state == ChunkLine(ChunkSizeStart) then Count(q, 1).(nread := 0) else Count(q, 1))
  {
    if q.state != ChunkLine(ChunkSizeStart) {
      CountInv(cfg, q);
    } else {
      assert Count(q, 1).(nread := 0) == q;
    }
  }

  lemma StepOrdered(cfg: Settings, m: Phase, q: Parser, ch: byte)
    requires Inv(cfg, q) && Agrees(m, q)
    ensures Ordered(m, q.state, Step(cfg, q, ch))
  {
    hide Switch, Inv, Agrees;
    if !ParsingHeader(q.state) {
      NotChunkSizeStart(q.state);
      SwitchOrdered(cfg, m, q, ch);
    } else if Count(q, 1).nread <= cfg.maxHeaderSize {
      CountAgrees(cfg, m, q);
      SwitchOrdered(cfg, m, Count(q, 1), ch);
    } else {
      AgreesNotWrong(m, q);
      OverflowOrdered(m, q);
    }
  }

  lemma NotChunkSizeStart(s: State)
    requires !ParsingHeader(s)
    ensures s != ChunkLine(ChunkSizeStart)
  {
  }

  lemma AgreesNotWrong(m: Phase, q: Parser)
    requires Agrees(m, q)
    ensures m != Wrong
  {
  }

  lemma OverflowOrdered(m: Phase, q: Parser)
    requires m != Wrong
    ensures Ordered(m, q.state, Fail(Count(q, 1), HEADER_OVERFLOW))
  {
  }

  /** The configurations a connection can reach. */
  predicate Good(cfg: Settings, c: Conf) {
    && Accepted(c.trace)
    && (c.q.errno == OK ==> Inv(cfg, c.q) && Agrees(Monitor(Idle, c.trace), c.q))
  }

  lemma AdvanceGood(cfg: Settings, c: Conf, ch: byte)
    requires Good(cfg, c)
    ensures Good(cfg, Advance(cfg, c, ch))
    ensures c.q.errno != AssertionFailed ==> Advance(cfg, c, ch).q.errno != AssertionFailed
  {
    if c.q.errno == OK {
      var m := Monitor(Idle, c.trace);
      hide Step, Inv, Agrees, AfterByte, ByteEvents;
      StepSound(cfg, c.q, ch);
      StepOrdered(cfg, m, c.q, ch);
      var out := Step(cfg, c.q, ch);
      MonitorByte(m, c.q.state, out, ch);
      MonitorFeedAll(Idle, c.trace, ByteEvents(c.q.state, out, ch));
    }
  }

  lemma InitGood(cfg: Settings, t: ParserType)
    requires cfg.maxHeaderSize < UINT32_MODULUS
    ensures Good(cfg, Conf(Init(t), []))
  {
  }

  /** In every state that any input leads to, the registers fit together, no assert() has failed and the
      callbacks are a beginning of well-formed messages. */
  lemma {:induction false} RunGood(cfg: Settings, t: ParserType, input: seq<byte>)
    requires cfg.maxHeaderSize < UINT32_MODULUS
    ensures Good(cfg, Run(cfg, Conf(Init(t), []), input))
    ensures Run(cfg, Conf(Init(t), []), input).q.errno != AssertionFailed
    decreases |input|
  {
    hide Good, Advance;
    if input == [] {
      InitGood(cfg, t);
    } else {
      RunGood(cfg, t, input[..|input| - 1]);
      AdvanceGood(cfg, Run(cfg, Conf(Init(t), []), input[..|input| - 1]), input[|input| - 1]);
    }
  }
}
