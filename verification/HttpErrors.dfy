/** What the error codes mean: each names the part of a message in which the byte stands that was refused. */
module HttpErrors {
  import opened HttpTypes
  import opened HttpUrlChar
  import opened HttpStep
  import opened HttpRun
  import opened HttpInvariant

  /** Whether a byte that is read in state s may be refused with e. */
  predicate Blames(s: State, e: Errno) {
    match e
    case OK => true
    case HEADER_OVERFLOW => ParsingHeader(s)
    case CLOSED_CONNECTION => s == Start(Dead)
    case INVALID_METHOD => s == Start(StartReq) || s == Start(StartReqOrRes) || s == RequestStart(ReqMethod)
    case INVALID_URL => s == RequestStart(ReqSpacesBeforeUrl) || s.Target?
    case INVALID_VERSION => s.StatusLine? || s.Version?
    case INVALID_STATUS => s == StatusLine(ResFirstStatusCode) || s == StatusLine(ResStatusCode)
    case INVALID_CONSTANT => s == Start(StartRes) || s == StatusLine(ResOrRespH) || s == Version(ReqHttpStart)
    case STRICT => s.StatusLine? || s.Version? || s.Header? || s.ChunkLine? || s.ChunkBody?
    case LF_EXPECTED => s == Version(ReqLineAlmostDone) || s == Header(HeaderAlmostDone)
    case INVALID_HEADER_TOKEN => s.Header?
    case INVALID_CONTENT_LENGTH => s.Header? || s == ChunkLine(ChunkSize)
    case UNEXPECTED_CONTENT_LENGTH => s.Header?
    case INVALID_CHUNK_SIZE => s == ChunkLine(ChunkSizeStart) || s == ChunkLine(ChunkSize)
    case INVALID_EOF_STATE => false
    case AssertionFailed => false
  }

  /** The same for one branch of the switch, which does not look at the limit, and whose assert() may fail. */
  predicate BranchBlames(s: State, e: Errno) { (Blames(s, e) && e != HEADER_OVERFLOW) || e == AssertionFailed }

  lemma StartBlames(q: Parser, ch: byte)
    requires q.errno == OK && q.state.Start?
    ensures BranchBlames(q.state, OnStart(q, ch).q.errno)
    ensures OnStart(q, ch).q.errno == CLOSED_CONNECTION <==> q.state == Start(Dead) && ch != CR && ch != LF
  {
    hide FirstMethod;
    match q.state.start
    case Dead =>
    case StartReq =>
    case StartRes =>
    case StartReqOrRes =>
  }

  lemma StatusLineBlames(q: Parser, ch: byte)
    requires q.errno == OK && q.state.StatusLine?
    ensures BranchBlames(q.state, OnStatusLine(q, ch).q.errno)
  {
    hide BranchBlames, IsNum, OnStatusStart, OnStatusEnd;
    var e := OnStatusLine(q, ch).q.errno;
    StatusEndFine(q, ch);
    assert e in {OK, STRICT, INVALID_VERSION}
        || (e == INVALID_CONSTANT && q.state.status == ResOrRespH)
        || (e == INVALID_STATUS && (q.state.status == ResFirstStatusCode || q.state.status == ResStatusCode));
    StatusErrors(q.state, e);
  }

  lemma StatusEndFine(q: Parser, ch: byte)
    requires q.errno == OK
    ensures OnStatusStart(q, ch).q.errno == OK && OnStatusEnd(q, ch, Flush(Status)).q.errno == OK
  {
  }

  lemma StatusErrors(s: State, e: Errno)
    requires s.StatusLine?
    requires e in {OK, STRICT, INVALID_VERSION} || (e == INVALID_CONSTANT && s.status == ResOrRespH)
             || (e == INVALID_STATUS && (s.status == ResFirstStatusCode || s.status == ResStatusCode))
    ensures BranchBlames(s, e)
  {
  }

  lemma RequestStartBlames(q: Parser, ch: byte)
    requires q.errno == OK
    ensures BranchBlames(RequestStart(ReqMethod), OnReqMethod(q, ch).q.errno)
    ensures BranchBlames(RequestStart(ReqSpacesBeforeUrl), OnSpacesBeforeUrl(q, ch).q.errno)
  {
    hide ParseUrlChar, MethodString, NextMethod;
  }

  lemma TargetBlames(q: Parser, ch: byte)
    requires q.errno == OK && q.state.Target?
    ensures BranchBlames(q.state, OnUrl(q, ch).q.errno)
  {
    hide ParseUrlChar;
  }

  lemma VersionBlames(q: Parser, ch: byte)
    requires q.errno == OK && q.state.Version?
    ensures BranchBlames(q.state, OnReqVersion(q, ch).q.errno)
  {
    hide BranchBlames, IsNum;
    var e := OnReqVersion(q, ch).q.errno;
    assert e in {OK, STRICT, INVALID_VERSION}
        || (e == INVALID_CONSTANT && q.state.version == ReqHttpStart)
        || (e == LF_EXPECTED && q.state.version == ReqLineAlmostDone);
    VersionErrors(q.state, e);
  }

  lemma VersionErrors(s: State, e: Errno)
    requires s.Version?
    requires e in {OK, STRICT, INVALID_VERSION} || (e == INVALID_CONSTANT && s.version == ReqHttpStart)
             || (e == LF_EXPECTED && s.version == ReqLineAlmostDone)
    ensures BranchBlames(s, e)
  {
  }

  lemma BlockEndBlames(cfg: Settings, q: Parser, ch: byte)
    requires q.errno == OK
    ensures OnHeadersAlmostDone(cfg, q, ch).q.errno in {OK, STRICT, UNEXPECTED_CONTENT_LENGTH}
    ensures OnHeadersDone(q, ch).q.errno in {OK, STRICT}
  {
    hide ShouldKeepAlive, WantsUpgrade;
  }

  lemma NameBlames(cfg: Settings, q: Parser, ch: byte)
    requires q.errno == OK
    ensures OnFieldStart(cfg, q, ch).q.errno in {OK, STRICT, UNEXPECTED_CONTENT_LENGTH, INVALID_HEADER_TOKEN}
    ensures OnField(q, ch).q.errno in {OK, INVALID_HEADER_TOKEN, AssertionFailed}
  {
    hide OnHeadersAlmostDone, FieldState;
    BlockEndBlames(cfg, q.(state := Header(HeadersAlmostDone)), ch);
  }

  lemma ValueBlames(cfg: Settings, q: Parser, ch: byte)
    requires q.errno == OK
    ensures OnValueStart(q, ch).q.errno in {OK, INVALID_CONTENT_LENGTH, UNEXPECTED_CONTENT_LENGTH}
    ensures OnValue(cfg, q, ch).q.errno in {OK, INVALID_HEADER_TOKEN, INVALID_CONTENT_LENGTH, AssertionFailed}
    ensures OnDiscardWs(q, ch).q.errno in {OK, INVALID_CONTENT_LENGTH, UNEXPECTED_CONTENT_LENGTH}
  {
    hide Match, TokenStart, ConnectionFlag;
  }

  lemma LwsBlames(cfg: Settings, q: Parser, ch: byte)
    requires q.errno == OK
    ensures BranchBlames(Header(HeaderValueLws), OnLws(cfg, q, ch).q.errno)
  {
    hide OnFieldStart, OnValueStart, FinishHeader;
    NameBlames(cfg, q.(flags := FinishHeader(q), state := Header(HeaderFieldStart)), ch);
    ValueBlames(cfg, q.(state := Header(HeaderValueStart),
                        hstate := if q.hstate.ContentLengthNum? then ContentLengthWs else q.hstate), ch);
  }

  lemma DiscardLwsBlames(cfg: Settings, q: Parser, ch: byte)
    requires q.errno == OK
    ensures BranchBlames(Header(HeaderValueDiscardLws), OnDiscardLws(cfg, q, ch).q.errno)
  {
    hide OnFieldStart, FinishHeader;
    NameBlames(cfg, q.(flags := FinishHeader(q), state := Header(HeaderFieldStart)), ch);
  }

  lemma HeaderBlames(cfg: Settings, q: Parser, ch: byte)
    requires q.errno == OK && q.state.Header?
    ensures BranchBlames(q.state, OnHeader(cfg, q, ch).q.errno)
  {
    hide OnHeadersAlmostDone, OnHeadersDone, OnFieldStart, OnField, OnValueStart, OnValue, OnDiscardWs, OnLws,
         OnDiscardLws;
    match q.state.header
    case HeaderFieldStart => NameBlames(cfg, q, ch);
    case HeaderField => NameBlames(cfg, q, ch);
    case HeaderValueLws => LwsBlames(cfg, q, ch);
    case HeaderValueDiscardLws => DiscardLwsBlames(cfg, q, ch);
    case HeadersAlmostDone => BlockEndBlames(cfg, q, ch);
    case HeadersDone => BlockEndBlames(cfg, q, ch);
    case _ => ValueBlames(cfg, q, ch);
  }

  lemma BodyBlames(q: Parser, ch: byte)
    requires q.errno == OK
    ensures q.state.ChunkLine? ==> BranchBlames(q.state, OnChunkLine(q, ch).q.errno)
    ensures q.state.ChunkBody? ==> BranchBlames(q.state, OnChunkBody(q, ch).q.errno)
    ensures q.state.Content? ==> BranchBlames(q.state, OnBody(q, ch).q.errno)
  {
    hide ShouldKeepAlive;
  }

  /** One byte. The limit is exceeded exactly if it is counted and the count was at the limit. */
  lemma StepBlames(cfg: Settings, q: Parser, ch: byte)
    requires Inv(cfg, q) && cfg.maxHeaderSize + 1 < UINT32_MODULUS
    ensures Blames(q.state, Step(cfg, q, ch).q.errno)
    ensures Step(cfg, q, ch).q.errno == HEADER_OVERFLOW <==> ParsingHeader(q.state) && q.nread == cfg.maxHeaderSize
    ensures Step(cfg, q, ch).q.errno == CLOSED_CONNECTION
       <==> q.state == Start(Dead) && ch != CR && ch != LF && q.nread < cfg.maxHeaderSize
  {
    hide Switch, StateOk, BranchBlames, Blames;
    StepSound(cfg, q, ch);
    SwitchBlames(cfg, if ParsingHeader(q.state) then Count(q, 1) else q, ch);
    BranchIs(q.state, Step(cfg, q, ch).q.errno);
  }

  lemma BranchIs(s: State, e: Errno)
    ensures BranchBlames(s, e) && e != AssertionFailed ==> Blames(s, e) && e != HEADER_OVERFLOW
    ensures ParsingHeader(s) ==> Blames(s, HEADER_OVERFLOW)
  {
  }

  lemma SwitchBlames(cfg: Settings, q: Parser, ch: byte)
    requires q.errno == OK
    ensures BranchBlames(q.state, Switch(cfg, q, ch).q.errno)
    ensures Switch(cfg, q, ch).q.errno == CLOSED_CONNECTION <==> q.state == Start(Dead) && ch != CR && ch != LF
  {
    hide OnStart, OnStatusLine, OnReqMethod, OnSpacesBeforeUrl, OnUrl, OnReqVersion, OnHeader, OnChunkLine, OnChunkBody,
         OnBody;
    match q.state
    case Start(_) => StartBlames(q, ch);
    case StatusLine(_) => StatusLineBlames(q, ch);
    case RequestStart(_) => RequestStartBlames(q, ch);
    case Target(_) => TargetBlames(q, ch);
    case Version(_) => VersionBlames(q, ch);
    case Header(_) => HeaderBlames(cfg, q, ch);
    case _ => BodyBlames(q, ch);
  }

  /** For every input: an error is reported at one byte, in a state that the error names; the bytes before it were
      read without an error. */
  lemma {:induction false} RunBlames(cfg: Settings, c: Conf, w: seq<byte>) returns (i: nat)
    requires Inv(cfg, c.q) && cfg.maxHeaderSize + 1 < UINT32_MODULUS && Run(cfg, c, w).q.errno != OK
    ensures i < |w| && Run(cfg, c, w[..i]).q.errno == OK && Inv(cfg, Run(cfg, c, w[..i]).q)
    ensures Blames(Run(cfg, c, w[..i]).q.state, Run(cfg, c, w).q.errno)
    decreases |w|
  {
    hide Inv, Step, Blames, FeedAll, ByteEvents;
    InvOk(cfg, c.q);
    i := |w| - 1;
    var before := Run(cfg, c, w[..i]);
    if before.q.errno == OK {
      RunSound(cfg, c, w[..i]);
      StepBlames(cfg, before.q, w[i]);
    } else {
      i := RunBlames(cfg, c, w[..i]);
      assert w[..|w| - 1][..i] == w[..i];
    }
  }
}
