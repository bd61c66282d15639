/** Where a reported length comes from: a Content-Length line of the same header block shows it. */
module HttpOrigins {
  import opened Common
  import opened HttpTypes
  import opened HttpUrlChar
  import opened HttpStep
  import opened HttpRun
  import opened HttpInvariant
  import opened HttpOrder
  import opened HttpLength
  import opened HttpNames
  import opened HttpHeads

  // ------------------------------------------------------------------ one byte, backwards

  /** Between a name's colon and the value. */
  predicate AtGap(s: State) {
    || s == Header(HeaderValueDiscardWs) || s == Header(HeaderValueDiscardWsAlmostDone)
    || s == Header(HeaderValueDiscardLws)
  }

  predicate SameFlags(q: Parser, r: Parser) {
    r.flags.trailing == q.flags.trailing && r.flags.contentLength == q.flags.contentLength
  }

  /** Outside the header block nothing is reported, and only its beginning is reached: without a length, or in the
      trailer. */
  predicate Enters(out: Outcome) {
    && FirstHead(out.fx.notices, 0) == None
    && (out.q.errno == OK && out.q.state.Header? ==>
          out.q.state == Header(HeaderFieldStart) && (out.q.flags.contentLength ==> out.q.flags.trailing))
  }

  lemma StartEnters(q: Parser, ch: byte)
    requires q.state.Start?
    ensures Enters(OnStart(q, ch))
  {
    hide FirstMethod, FirstHead;
    NoHead(OnStart(q, ch).fx.notices, 0);
  }

  lemma StatusEnters(q: Parser, ch: byte)
    requires q.state.StatusLine? && Untouched(q)
    ensures Enters(OnStatusLine(q, ch))
  {
    hide FirstHead;
    NoHead([], 0);
  }

  lemma RequestEnters(q: Parser, ch: byte)
    ensures Enters(OnReqMethod(q, ch)) && Enters(OnSpacesBeforeUrl(q, ch))
  {
    hide MethodString, NextMethod, ParseUrlChar, FirstHead;
    NoHead([], 0);
    UrlCharStates(if q.verb == CONNECT then Target(ReqServerStart) else RequestStart(ReqSpacesBeforeUrl), ch);
  }

  lemma TargetEnters(q: Parser, ch: byte)
    requires RequestLineOk(q)
    ensures q.state.Target? ==> Enters(OnUrl(q, ch))
    ensures q.state.Version? ==> Enters(OnReqVersion(q, ch))
  {
    hide ParseUrlChar, FirstHead;
    NoHead([], 0);
    UrlCharStates(q.state, ch);
  }

  lemma ChunkLineEnters(q: Parser, ch: byte)
    requires q.state.ChunkLine?
    ensures Enters(OnChunkLine(q, ch))
  {
    hide PushHex, Unhex, FirstHead;
    NoHead(OnChunkLine(q, ch).fx.notices, 0);
  }

  lemma ChunkBodyEnters(q: Parser, ch: byte)
    requires q.state.ChunkBody?
    ensures Enters(OnChunkBody(q, ch))
  {
    hide FirstHead;
    NoHead(OnChunkBody(q, ch).fx.notices, 0);
  }

  lemma ContentEnters(q: Parser, ch: byte)
    requires q.state.Content?
    ensures Enters(OnBody(q, ch))
  {
    hide FirstHead, NewMessage, ShouldKeepAlive;
    NoHead(OnBody(q, ch).fx.notices, 0);
    assert NewMessage(q).Start? && NewMessage(q.(contentLength := 0)).Start? by { MessagesStart(q); }
  }

  lemma MessagesStart(q: Parser)
    ensures NewMessage(q).Start? && NewMessage(q.(contentLength := 0)).Start?
  {
    hide ShouldKeepAlive;
  }

  lemma LineEnters(cfg: Settings, q: Parser, ch: byte)
    requires Inv(cfg, q)
    ensures q.state.Start? ==> Enters(OnStart(q, ch))
    ensures q.state.StatusLine? ==> Enters(OnStatusLine(q, ch))
    ensures q.state == RequestStart(ReqMethod) ==> Enters(OnReqMethod(q, ch))
    ensures q.state == RequestStart(ReqSpacesBeforeUrl) ==> Enters(OnSpacesBeforeUrl(q, ch))
    ensures q.state.Target? ==> Enters(OnUrl(q, ch))
    ensures q.state.Version? ==> Enters(OnReqVersion(q, ch))
  {
    hide Enters, OnStart, OnStatusLine, OnReqMethod, OnSpacesBeforeUrl, OnUrl, OnReqVersion;
    match q.state
    case Start(_) => StartEnters(q, ch);
    case StatusLine(_) => StatusEnters(q, ch);
    case RequestStart(_) => RequestEnters(q, ch);
    case Target(_) => TargetEnters(q, ch);
    case Version(_) => TargetEnters(q, ch);
    case _ =>
  }

  lemma BodyEnters(cfg: Settings, q: Parser, ch: byte)
    ensures q.state.ChunkLine? ==> Enters(OnChunkLine(q, ch))
    ensures q.state.ChunkBody? ==> Enters(OnChunkBody(q, ch))
    ensures q.state.Content? ==> Enters(OnBody(q, ch))
  {
    hide Enters, OnChunkLine, OnChunkBody, OnBody;
    match q.state
    case ChunkLine(_) => ChunkLineEnters(q, ch);
    case ChunkBody(_) => ChunkBodyEnters(q, ch);
    case Content(_) => ContentEnters(q, ch);
    case _ =>
  }

  /** How a byte inside the header block got where it is. */
  predicate Back(q: Parser, ch: byte, out: Outcome) {
    out.q.errno == OK && out.q.state.Header? ==>
      && (out.q.state == Header(HeaderField) ==>
            IsToken(ch) && (q.state == Header(HeaderField) || HeaderMayStart(q)) && SameFlags(q, out.q))
      && (AtGap(out.q.state) ==>
            && SameFlags(q, out.q) && out.q.hstate == q.hstate
            && (if q.state == Header(HeaderField) then ch == ':' && out.q.state == Header(HeaderValueDiscardWs)
                else AtGap(q.state) && ch in {' ', TAB, CR, LF}))
      && out.q.flags.trailing == q.flags.trailing
      && (out.q.flags.contentLength && !q.flags.contentLength ==>
            q.state == Header(HeaderValueDiscardWs) && q.hstate.ContentLength? && IsNum(ch))
      && FirstHead(out.fx.notices, 0) == None
  }

  /** A branch that moves on to the next part of a line, or into its value, and sets no length. */
  predicate Passes(q: Parser, out: Outcome) {
    out.q.errno == OK && out.q.state.Header? ==>
      && SameFlags(q, out.q) && FirstHead(out.fx.notices, 0) == None
      && out.q.state != Header(HeaderField) && !AtGap(out.q.state)
  }

  lemma PassesBack(q: Parser, ch: byte, out: Outcome)
    requires Passes(q, out)
    ensures Back(q, ch, out)
  {
    hide FirstHead, HeaderMayStart;
  }

  /** The end of the header block leaves it. */
  lemma HeadersEndPasses(cfg: Settings, q: Parser, ch: byte)
    ensures Passes(q, OnHeadersAlmostDone(cfg, q, ch))
  {
    hide FirstHead, OnHeadersDone, Answered;
    if ch == LF {
      HeadersDoneLeaves(Answered(cfg, q.(state := Header(HeadersDone), upgrade := WantsUpgrade(q))), ch);
    }
  }

  lemma HeadersDoneLeaves(q: Parser, ch: byte)
    ensures !(OnHeadersDone(q, ch).q.errno == OK && OnHeadersDone(q, ch).q.state.Header?) || ch != LF
  {
  }

  lemma FieldStartBack(cfg: Settings, q: Parser, ch: byte)
    ensures var out := OnFieldStart(cfg, q, ch);
            out.q.errno == OK && out.q.state.Header? ==>
              && SameFlags(q, out.q) && FirstHead(out.fx.notices, 0) == None && !AtGap(out.q.state)
              && (out.q.state == Header(HeaderField) ==> IsToken(ch))
  {
    hide OnHeadersAlmostDone, FieldStartState, FirstHead, Token;
    NoHead([], 0);
    HeadersEndPasses(cfg, q.(state := Header(HeadersAlmostDone)), ch);
  }

  lemma FieldBack(q: Parser, ch: byte)
    requires q.state == Header(HeaderField)
    ensures Back(q, ch, OnField(q, ch))
  {
    hide FieldState, FieldIndex, Token, FirstHead;
    NoHead([], 0);
  }

  lemma ValueStartBack(q: Parser, ch: byte)
    ensures var out := OnValueStart(q, ch);
            out.q.errno == OK ==>
              && out.q.state == Header(HeaderValue) && out.fx.notices == []
              && out.q.flags.trailing == q.flags.trailing
              && (out.q.flags.contentLength && !q.flags.contentLength ==> q.hstate.ContentLength? && IsNum(ch))
              && (q.flags.contentLength ==> out.q.flags.contentLength)
  {
    hide Lower;
  }

  lemma GapBack(cfg: Settings, q: Parser, ch: byte)
    requires q.state == Header(HeaderValueDiscardWs)
    ensures Back(q, ch, OnDiscardWs(q, ch))
  {
    hide OnValueStart, FirstHead, HeaderMayStart;
    NoHead([], 0);
    ValueStartBack(q, ch);
  }

  lemma GapLineBack(cfg: Settings, q: Parser, ch: byte)
    requires q.errno == OK && q.state == Header(HeaderValueDiscardLws)
    ensures Back(q, ch, OnDiscardLws(cfg, q, ch))
  {
    hide OnFieldStart, FinishHeader, FirstHead;
    NoHead([], 0);
    FinishKeeps(q);
    FieldStartBack(cfg, q.(flags := FinishHeader(q), state := Header(HeaderFieldStart)), ch);
    SameNotices(OnFieldStart(cfg, q.(flags := FinishHeader(q), state := Header(HeaderFieldStart)), ch).fx.notices);
  }

  lemma SameNotices(notices: seq<Event>)
    ensures [] + notices == notices
  {
  }

  lemma ValueLineBack(cfg: Settings, q: Parser, ch: byte)
    requires q.errno == OK && q.state == Header(HeaderValueLws) && !q.hstate.ContentLength?
    ensures Back(q, ch, OnLws(cfg, q, ch))
  {
    hide OnFieldStart, OnValueStart, FinishHeader, FirstHead;
    NoHead([], 0);
    if ch == ' ' || ch == TAB {
      ValueStartBack(q.(state := Header(HeaderValueStart),
                        hstate := if q.hstate.ContentLengthNum? then ContentLengthWs else q.hstate), ch);
    } else {
      FinishKeeps(q);
      FieldStartBack(cfg, q.(flags := FinishHeader(q), state := Header(HeaderFieldStart)), ch);
    }
  }

  lemma ValueBack(cfg: Settings, q: Parser, ch: byte)
    requires q.state == Header(HeaderValue)
    ensures Passes(q, OnValue(cfg, q, ch))
  {
    hide OnValueChar, IsHeaderChar, FirstHead;
    NoHead([], 0);
    ValueCharStays(q, ch);
    ValueCharFlags(q, ch);
  }

  lemma ValueCharFlags(q: Parser, ch: byte)
    ensures SameFlags(q, OnValueChar(q, ch).q)
  {
    hide PushDecimal, Match, Lower, TokenStart, ConnectionFlag;
    TokenKeeps(q);
  }

  lemma HeaderBack(cfg: Settings, q: Parser, ch: byte)
    requires Inv(cfg, q) && q.state.Header?
    ensures Back(q, ch, OnHeader(cfg, q, ch))
  {
    hide Back, Passes, OnFieldStart, OnField, OnDiscardWs, OnDiscardLws, OnValue, OnLws, OnHeadersAlmostDone;
    match q.state.header
    case HeaderFieldStart => StartsBack(cfg, q, ch);
    case HeaderField => FieldBack(q, ch);
    case HeaderValueDiscardWs => GapBack(cfg, q, ch);
    case HeaderValueDiscardLws => GapLineBack(cfg, q, ch);
    case HeaderValue =>
      ValueBack(cfg, q, ch); PassesBack(q, ch, OnValue(cfg, q, ch));
    case HeaderValueLws => ValueLineBack(cfg, q, ch);
    case HeadersAlmostDone =>
      HeadersEndPasses(cfg, q, ch); PassesBack(q, ch, OnHeadersAlmostDone(cfg, q, ch));
    case HeaderAlmostDone => LineFeedBack(q, ch);
    case HeaderValueDiscardWsAlmostDone => GapFeedBack(q, ch);
    case _ =>
  }

  lemma StartsBack(cfg: Settings, q: Parser, ch: byte)
    requires q.errno == OK && q.state == Header(HeaderFieldStart)
    ensures Back(q, ch, OnFieldStart(cfg, q, ch))
  {
    hide OnFieldStart, FirstHead;
    FieldStartBack(cfg, q, ch);
  }

  lemma LineFeedBack(q: Parser, ch: byte)
    requires q.state == Header(HeaderAlmostDone)
    ensures Back(q, ch, Require(ch == LF, q, LF_EXPECTED, Header(HeaderValueLws)))
  {
  }

  lemma GapFeedBack(q: Parser, ch: byte)
    requires q.state == Header(HeaderValueDiscardWsAlmostDone)
    ensures Back(q, ch, Require(ch == LF, q, STRICT, Header(HeaderValueDiscardLws)))
  {
  }

  /** The same for a whole step, from wherever it comes. */
  lemma StepBack(cfg: Settings, q: Parser, ch: byte)
    requires Inv(cfg, q)
    ensures q.state.Header? ==> Back(q, ch, Step(cfg, q, ch))
    ensures !q.state.Header? ==> Enters(Step(cfg, q, ch))
  {
    hide Back, Enters, OnStart, OnStatusLine, OnReqMethod, OnSpacesBeforeUrl, OnUrl, OnReqVersion, OnHeader,
         OnChunkLine, OnChunkBody, OnBody, StateOk;
    if ParsingHeader(q.state) && Count(q, 1).nread > cfg.maxHeaderSize {
      OverflowBack(q, ch, Fail(Count(q, 1), HEADER_OVERFLOW));
    } else if q.state == ChunkLine(ChunkSizeStart) {
      BodyEnters(cfg, Count(q, 1), ch);
    } else {
      var q1 := if ParsingHeader(q.state) then Count(q, 1) else q;
      assert Inv(cfg, q1) by { if ParsingHeader(q.state) { CountInv(cfg, q); } }
      LineEnters(cfg, q1, ch);
      BodyEnters(cfg, q1, ch);
      if q.state.Header? {
        HeaderBack(cfg, q1, ch);
        CountBack(q, ch, OnHeader(cfg, q1, ch));
      }
    }
  }

  lemma OverflowBack(q: Parser, ch: byte, out: Outcome)
    requires out.q.errno != OK && out.fx == NOTHING
    ensures Back(q, ch, out) && Enters(out)
  {
  }

  lemma CountBack(q: Parser, ch: byte, out: Outcome)
    requires Back(Count(q, 1), ch, out)
    ensures Back(q, ch, out)
  {
    hide FirstHead;
  }

  // ------------------------------------------------------------------ the input, backwards

  /** The configuration of a connection behind an input. */
  function Reached(cfg: Settings, typ: ParserType, x: seq<byte>): Conf { Run(cfg, Conf(Init(typ), []), x) }

  /** Behind x the parser is fine. */
  predicate Fine(cfg: Settings, typ: ParserType, x: seq<byte>) {
    Reached(cfg, typ, x).q.errno == OK && Inv(cfg, Reached(cfg, typ, x).q)
  }

  /** The last byte of an input behind which the parser is in a header block, inside a line. */
  lemma LastByte(cfg: Settings, typ: ParserType, x: seq<byte>)
    requires cfg.maxHeaderSize < UINT32_MODULUS
    requires Reached(cfg, typ, x).q.errno == OK && Reached(cfg, typ, x).q.state.Header?
    ensures x != [] && Fine(cfg, typ, x) && Fine(cfg, typ, x[..|x| - 1])
    ensures var q, ch := Reached(cfg, typ, x[..|x| - 1]).q, x[|x| - 1];
            && Step(cfg, q, ch).q == Reached(cfg, typ, x).q
            && (if q.state.Header? then Back(q, ch, Step(cfg, q, ch)) else Enters(Step(cfg, q, ch)))
  {
    hide Step, Inv, Back, Enters, Run;
    RunGood(cfg, typ, x);
    if x == [] {
      RunNothing(cfg, Conf(Init(typ), []));
    } else {
      var n := |x| - 1;
      assert x[..n + 1] == x;
      RunPrefix(cfg, Conf(Init(typ), []), x, n);
      RunGood(cfg, typ, x[..n]);
      AdvanceRegisters(cfg, Reached(cfg, typ, x[..n]), x[n]);
      StepBack(cfg, Reached(cfg, typ, x[..n]).q, x[n]);
    }
  }

  /** Nothing is reported between two points of the same header block. */
  lemma SilentByte(cfg: Settings, typ: ParserType, x: seq<byte>, n: nat)
    requires cfg.maxHeaderSize < UINT32_MODULUS
    requires Reached(cfg, typ, x).q.errno == OK && Reached(cfg, typ, x).q.state.Header?
    requires x != [] && Reached(cfg, typ, x[..|x| - 1]).q.state.Header?
    requires n <= |Reached(cfg, typ, x[..|x| - 1]).trace| && FirstHead(Reached(cfg, typ, x[..|x| - 1]).trace, n) == None
    ensures n <= |Reached(cfg, typ, x).trace| && FirstHead(Reached(cfg, typ, x).trace, n) == None
  {
    LastByte(cfg, typ, x);
    hide Step, Inv, FirstHead, ByteEvents, Run;
    var m := |x| - 1;
    assert x[..m + 1] == x;
    RunPrefix(cfg, Conf(Init(typ), []), x, m);
    var c, ch := Reached(cfg, typ, x[..m]), x[m];
    var out := Step(cfg, c.q, ch);
    HeadFeedAll(c.trace, n, ByteEvents(c.q.state, out, ch));
    HeadOfByte(c.q.state, out, ch);
  }

  /** A header line may begin behind a, and x lies in the same header block with nothing reported in between. */
  predicate LineFrom(cfg: Settings, typ: ParserType, a: seq<byte>, x: seq<byte>) {
    && Fine(cfg, typ, a) && HeaderMayStart(Reached(cfg, typ, a).q)
    && Reached(cfg, typ, a).q.flags.trailing == Reached(cfg, typ, x).q.flags.trailing
    && |Reached(cfg, typ, a).trace| <= |Reached(cfg, typ, x).trace|
    && FirstHead(Reached(cfg, typ, x).trace, |Reached(cfg, typ, a).trace|) == None
  }

  lemma LineFromHere(cfg: Settings, typ: ParserType, a: seq<byte>)
    requires Fine(cfg, typ, a) && HeaderMayStart(Reached(cfg, typ, a).q)
    ensures LineFrom(cfg, typ, a, a)
  {
    hide Run, Inv;
    NoHead(Reached(cfg, typ, a).trace, |Reached(cfg, typ, a).trace|);
  }

  /** One byte further. */
  lemma LineFromOn(cfg: Settings, typ: ParserType, a: seq<byte>, x: seq<byte>)
    requires cfg.maxHeaderSize < UINT32_MODULUS
    requires Reached(cfg, typ, x).q.errno == OK && Reached(cfg, typ, x).q.state.Header?
    requires x != [] && Reached(cfg, typ, x[..|x| - 1]).q.state.Header? && LineFrom(cfg, typ, a, x[..|x| - 1])
    ensures LineFrom(cfg, typ, a, x)
  {
    LastByte(cfg, typ, x);
    hide Run, Inv, Step, FirstHead, Reached;
    SilentByte(cfg, typ, x, |Reached(cfg, typ, a).trace|);
  }

  lemma NameByte(cfg: Settings, typ: ParserType, x: seq<byte>)
    requires cfg.maxHeaderSize < UINT32_MODULUS && Reached(cfg, typ, x).q.errno == OK
    requires Reached(cfg, typ, x).q.state == Header(HeaderField)
    ensures x != [] && IsToken(x[|x| - 1]) && Fine(cfg, typ, x[..|x| - 1])
    ensures var q := Reached(cfg, typ, x[..|x| - 1]).q;
            q.state.Header? && (q.state == Header(HeaderField) || HeaderMayStart(q))
  {
    LastByte(cfg, typ, x);
    hide Run, Inv, Step, FirstHead, Reached, Token;
  }

  lemma {:induction false} NameOrigin(cfg: Settings, typ: ParserType, x: seq<byte>)
    returns (a: seq<byte>, name: seq<byte>)
    requires cfg.maxHeaderSize < UINT32_MODULUS && Reached(cfg, typ, x).q.errno == OK
    requires Reached(cfg, typ, x).q.state == Header(HeaderField)
    ensures x == a + name && name != [] && Tokens(name) && LineFrom(cfg, typ, a, x)
    decreases |x|
  {
    hide Run, Inv, Reached, LineFrom, Token, Fine, HeaderMayStart;
    NameByte(cfg, typ, x);
    FineOk(cfg, typ, x[..|x| - 1]);
    var n := |x| - 1;
    assert x == x[..n] + [x[n]];
    if Reached(cfg, typ, x[..n]).q.state == Header(HeaderField) {
      a, name := NameOrigin(cfg, typ, x[..n]);
      name := name + [x[n]];
    } else {
      a, name := x[..n], [x[n]];
      LineFromHere(cfg, typ, a);
    }
    LineFromOn(cfg, typ, a, x);
  }

  lemma FineOk(cfg: Settings, typ: ParserType, x: seq<byte>)
    requires Fine(cfg, typ, x)
    ensures Reached(cfg, typ, x).q.errno == OK
  {
  }

  /** Blanks, and line breaks between them. */
  predicate Gap(gap: seq<byte>) { forall i :: 0 <= i < |gap| ==> gap[i] in {' ', TAB, CR, LF} }

  lemma GapByte(cfg: Settings, typ: ParserType, x: seq<byte>)
    requires cfg.maxHeaderSize < UINT32_MODULUS
    requires Reached(cfg, typ, x).q.errno == OK && AtGap(Reached(cfg, typ, x).q.state)
    ensures x != [] && Fine(cfg, typ, x[..|x| - 1]) && Reached(cfg, typ, x).q.state.Header?
    ensures var q, ch := Reached(cfg, typ, x[..|x| - 1]).q, x[|x| - 1];
            && q.state.Header? && Reached(cfg, typ, x).q.hstate == q.hstate
            && (if q.state == Header(HeaderField) then ch == ':' else AtGap(q.state) && ch in {' ', TAB, CR, LF})
  {
    LastByte(cfg, typ, x);
    hide Run, Inv, Step, FirstHead, Reached;
  }

  /** Behind a name, its colon and a gap. */
  predicate NameAndGap(cfg: Settings, typ: ParserType, x: seq<byte>, a: seq<byte>, name: seq<byte>, gap: seq<byte>) {
    && x == (a + name) + ([':'] + gap) && name != [] && Tokens(name) && Gap(gap)
    && LineFrom(cfg, typ, a, x)
    && Reached(cfg, typ, a + name).q.errno == OK
    && Reached(cfg, typ, a + name).q.hstate == Reached(cfg, typ, x).q.hstate
  }

  lemma {:induction false} GapOrigin(cfg: Settings, typ: ParserType, x: seq<byte>)
    returns (a: seq<byte>, name: seq<byte>, gap: seq<byte>)
    requires cfg.maxHeaderSize < UINT32_MODULUS
    requires Reached(cfg, typ, x).q.errno == OK && AtGap(Reached(cfg, typ, x).q.state)
    ensures NameAndGap(cfg, typ, x, a, name, gap)
    decreases |x|
  {
    hide Run, Inv, Reached, LineFrom, Token, Fine, AtGap;
    GapByte(cfg, typ, x);
    FineOk(cfg, typ, x[..|x| - 1]);
    var n := |x| - 1;
    assert x == x[..n] + [x[n]];
    if Reached(cfg, typ, x[..n]).q.state == Header(HeaderField) {
      a, name := NameOrigin(cfg, typ, x[..n]);
      gap := [];
      assert [':'] + gap == [x[n]];
    } else {
      a, name, gap := GapOrigin(cfg, typ, x[..n]);
      assert x == (a + name) + ([':'] + (gap + [x[n]]));
      gap := gap + [x[n]];
    }
    LineFromOn(cfg, typ, a, x);
  }

  // ------------------------------------------------------------------ the line that set the length

  /** The length flag is set by the first digit of a Content-Length value, and stays for the header block. */
  lemma FlagByte(cfg: Settings, typ: ParserType, x: seq<byte>)
    requires cfg.maxHeaderSize < UINT32_MODULUS && Reached(cfg, typ, x).q.errno == OK
    requires Declared(Reached(cfg, typ, x).q)
    ensures x != [] && Fine(cfg, typ, x[..|x| - 1]) && Reached(cfg, typ, x).q.state.Header?
    ensures var q, ch := Reached(cfg, typ, x[..|x| - 1]).q, x[|x| - 1];
            q.state.Header? && (Declared(q) || (AwaitsLength(q) && IsNum(ch)))
  {
    LastByte(cfg, typ, x);
    hide Run, Inv, Step, FirstHead, Reached;
  }

  /** In a header block, and a length has been declared. */
  predicate Declared(q: Parser) { q.state.Header? && q.flags.contentLength && !q.flags.trailing }

  /** In front of the first digit. */
  predicate AwaitsLength(q: Parser) {
    q.state == Header(HeaderValueDiscardWs) && q.hstate.ContentLength? && !q.flags.contentLength && !q.flags.trailing
  }

  lemma {:induction false} FlagOrigin(cfg: Settings, typ: ParserType, x: seq<byte>)
    returns (a: seq<byte>, name: seq<byte>, gap: seq<byte>, rest: seq<byte>)
    requires cfg.maxHeaderSize < UINT32_MODULUS && Reached(cfg, typ, x).q.errno == OK
    requires Declared(Reached(cfg, typ, x).q)
    ensures var y := (a + name) + ([':'] + gap);
            && x == y + rest && rest != [] && IsNum(rest[0]) && NameAndGap(cfg, typ, y, a, name, gap)
            && Fine(cfg, typ, y) && AwaitsLength(Reached(cfg, typ, y).q)
    ensures LineFrom(cfg, typ, a, x)
    decreases |x|
  {
    hide Run, Inv, Reached, LineFrom, Tokens, Fine, Declared, Gap;
    FlagByte(cfg, typ, x);
    FineOk(cfg, typ, x[..|x| - 1]);
    var n := |x| - 1;
    assert x == x[..n] + [x[n]];
    if Declared(Reached(cfg, typ, x[..n]).q) {
      a, name, gap, rest := FlagOrigin(cfg, typ, x[..n]);
      rest := rest + [x[n]];
    } else {
      a, name, gap := GapOrigin(cfg, typ, x[..n]);
      rest := [x[n]];
    }
    LineFromOn(cfg, typ, a, x);
  }

  lemma OnlyContentLength(l: seq<char>)
    requires Class(l) == ContentLength
    ensures l == CONTENT_LENGTH
  {
  }

  lemma WordWithin(name: seq<byte>)
    requires Tokens(name) || Digits(name)
    ensures LF !in name
  {
    hide Token;
    if Tokens(name) {
      forall i | 0 <= i < |name| ensures name[i] != LF { NotLineEnd(name[i]); }
    }
  }

  /** The name in front of a length is Content-Length. */
  lemma NameIsLength(cfg: Settings, c: Conf, name: seq<byte>)
    requires cfg.maxHeaderSize + 1 < UINT32_MODULUS && Inv(cfg, c.q) && HeaderMayStart(c.q)
    requires name != [] && Tokens(name)
    requires Run(cfg, c, name).q.errno == OK && Run(cfg, c, name).q.hstate == ContentLength
    ensures LowerName(name) == CONTENT_LENGTH
  {
    hide Run, Inv, Class, NameMachine, LowerName, Tokens, FirstHead;
    WordWithin(name);
    assert c.q.state.Header? by { MayStartInHeader(c.q); }
    RunOnLine(cfg, c, name);
    NameRun(cfg, c, name);
    NameRecognised(name);
    OnlyContentLength(LowerName(name));
  }

  lemma MayStartInHeader(q: Parser)
    requires HeaderMayStart(q)
    ensures q.state.Header?
  {
  }

  /** The digits behind it are what the register holds. */
  lemma DigitsRead(cfg: Settings, c: Conf, digits: seq<byte>)
    requires cfg.maxHeaderSize + 1 < UINT32_MODULUS && Inv(cfg, c.q) && AwaitsLength(c.q)
    requires digits != [] && Digits(digits) && Run(cfg, c, digits).q.errno == OK
    ensures Holding(Run(cfg, c, digits).q, Decimal(digits)) && Inv(cfg, Run(cfg, c, digits).q)
  {
    hide Run, Inv, Decimal, FitsDecimal, FirstHead;
    var first, rest := digits[0], digits[1..];
    assert [first] + rest == digits && [] + [first] == [first];
    WordWithin(digits);
    assert c.q.errno == OK by { InvOk(cfg, c.q); }
    RunOnLine(cfg, c, digits);
    LengthValueStarts(cfg, c, [], first);
    ContentLengthExact(cfg, Run(cfg, c, [first]), first, rest);
    RunConcat(cfg, c, [first], rest);
    ReadingHolds(cfg, Run(cfg, c, digits).q, digits);
  }

  /** What has been reported stays reported. */
  lemma {:induction false} HeadStays(cfg: Settings, c: Conf, w: seq<byte>, n: nat)
    requires n <= |c.trace|
    ensures var t := Run(cfg, c, w).trace;
            n <= |t| && (FirstHead(c.trace, n).Some? ==> FirstHead(t, n) == FirstHead(c.trace, n))
    decreases |w|
  {
    hide Step, FeedAll, ByteEvents, FirstHead;
    if w != [] {
      var m := |w| - 1;
      var before := Run(cfg, c, w[..m]);
      HeadStays(cfg, c, w[..m], n);
      HeadFeedAll(before.trace, n, ByteEvents(before.q.state, Step(cfg, before.q, w[m]), w[m]));
    }
  }

  /** A Content-Length line, with what may stand between the colon and the digits. */
  predicate ShowsLength(name: seq<byte>, gap: seq<byte>, digits: seq<byte>, b: seq<byte>) {
    && name != [] && Tokens(name) && LowerName(name) == CONTENT_LENGTH && Gap(gap)
    && digits != [] && Digits(digits) && (b != [] ==> !IsNum(b[0]))
  }

  function LineAt(a: seq<byte>, name: seq<byte>, gap: seq<byte>, digits: seq<byte>, b: seq<byte>): seq<byte> {
    ((a + name) + ([':'] + gap)) + (digits + b)
  }

  lemma RegisterIs(cfg: Settings, c: Conf, digits: seq<byte>, b: seq<byte>, start: nat)
    requires cfg.maxHeaderSize + 1 < UINT32_MODULUS && Inv(cfg, c.q) && AwaitsLength(c.q)
    requires digits != [] && Digits(digits) && (b != [] ==> !IsNum(b[0])) && start <= |c.trace|
    requires var r := Run(cfg, c, digits + b); r.q.errno == OK && FirstHead(r.trace, start) == None
    ensures Run(cfg, c, digits + b).q.contentLength == Decimal(digits)
  {
    hide Run, Inv, Decimal, FirstHead, AwaitsLength;
    var c2 := Run(cfg, c, digits);
    RunConcat(cfg, c, digits, b);
    if c2.q.errno != OK {
      assert (digits + b)[..|digits|] == digits;
      RunStuck(cfg, c, digits + b, |digits|);
    }
    DigitsRead(cfg, c, digits);
    HeadStays(cfg, c, digits, start);
    HeadStays(cfg, c2, b, start);
    RunSettled(cfg, c2, b, start, Decimal(digits));
  }

  /** Whenever a length has been declared in a header block, a Content-Length line of that block shows it. */
  lemma LengthOrigin(cfg: Settings, typ: ParserType, x: seq<byte>)
    returns (a: seq<byte>, name: seq<byte>, gap: seq<byte>, digits: seq<byte>, b: seq<byte>)
    requires cfg.maxHeaderSize + 1 < UINT32_MODULUS && Reached(cfg, typ, x).q.errno == OK
    requires Declared(Reached(cfg, typ, x).q)
    ensures x == LineAt(a, name, gap, digits, b) && ShowsLength(name, gap, digits, b) && LineFrom(cfg, typ, a, x)
    ensures Reached(cfg, typ, x).q.contentLength == Decimal(digits)
  {
    hide Run, Inv, Decimal, FirstHead, Tokens, LowerName, Gap, Declared, HeaderMayStart;
    var rest;
    a, name, gap, rest := FlagOrigin(cfg, typ, x);
    digits := Leading(rest);
    b := rest[|digits|..];
    assert rest == digits + b;
    var c0 := Conf(Init(typ), []);
    var y := (a + name) + ([':'] + gap);
    RunConcat(cfg, c0, a, name);
    NameIsLength(cfg, Reached(cfg, typ, a), name);
    RunConcat(cfg, c0, y, rest);
    RegisterIs(cfg, Reached(cfg, typ, y), digits, b, |Reached(cfg, typ, a).trace|);
  }

  // ------------------------------------------------------------------ the report

  /** What a report says about the registers it was made from. */
  predicate Reports(q: Parser, notices: seq<Event>) {
    match FirstHead(notices, 0)
    case None => true
    case Some(h) => !q.flags.trailing && (h.declared.Some? ==> Declared(q) && q.contentLength == h.declared.value)
  }

  lemma HeadersEndReports(cfg: Settings, q: Parser, ch: byte)
    requires q.state.Header? && HeaderLengthOk(q)
    ensures Reports(q, OnHeadersAlmostDone(cfg, q, ch).fx.notices)
  {
    hide FirstHead, OnHeadersDone, CompleteMessage;
    NoHead([], 0);
    if ch == LF && q.flags.trailing {
      TrailerReports(q);
    } else if ch == LF && !(q.flags.chunked && q.flags.contentLength) {
      var q1 := Answered(cfg, q.(state := Header(HeadersDone), upgrade := WantsUpgrade(q)));
      HeadOfTwo(HeadersComplete(HeadOf(q1)), OnHeadersDone(q1, ch).fx.notices);
    }
  }

  lemma TrailerReports(q: Parser)
    ensures FirstHead([ChunkComplete] + CompleteMessage(q, q.upgrade).fx.notices, 0) == None
  {
    hide FirstHead;
    NoHead([ChunkComplete] + CompleteMessage(q, q.upgrade).fx.notices, 0);
  }

  lemma FieldStartReports(cfg: Settings, q: Parser, ch: byte)
    requires q.state.Header? && HeaderLengthOk(q)
    ensures Reports(q, OnFieldStart(cfg, q, ch).fx.notices)
  {
    hide FirstHead, OnHeadersAlmostDone, FieldStartState, Token;
    NoHead([], 0);
    HeadersEndReports(cfg, q.(state := Header(HeadersAlmostDone)), ch);
  }

  lemma FinishedReports(cfg: Settings, q: Parser, ch: byte)
    requires q.state.Header? && HeaderLengthOk(q) && q.errno == OK
    ensures var q1 := q.(flags := FinishHeader(q), state := Header(HeaderFieldStart));
            Reports(q, OnFieldStart(cfg, q1, ch).fx.notices)
  {
    hide FirstHead, OnFieldStart, FinishHeader, Token;
    FinishKeeps(q);
    FieldStartReports(cfg, q.(flags := FinishHeader(q), state := Header(HeaderFieldStart)), ch);
  }

  lemma SilentReports(q: Parser, notices: seq<Event>)
    requires notices == []
    ensures Reports(q, notices)
  {
    hide FirstHead;
    NoHead([], 0);
  }

  lemma LineEndReports(cfg: Settings, q: Parser, ch: byte)
    requires q.state.Header? && HeaderLengthOk(q) && q.errno == OK
    ensures Reports(q, OnLws(cfg, q, ch).fx.notices) && Reports(q, OnDiscardLws(cfg, q, ch).fx.notices)
  {
    hide OnFieldStart, OnValueStart, FinishHeader, Reports, HeaderLengthOk;
    FinishedReports(cfg, q, ch);
    SilentReports(q, []);
    var q1 := q.(flags := FinishHeader(q), state := Header(HeaderFieldStart));
    SameNotices(OnFieldStart(cfg, q1, ch).fx.notices);
    var q2 := q.(state := Header(HeaderValueStart),
                 hstate := if q.hstate.ContentLengthNum? then ContentLengthWs else q.hstate);
    ValueStartOnLine(q2, ch);
  }

  lemma HeaderReports(cfg: Settings, q: Parser, ch: byte)
    requires Inv(cfg, q) && q.state.Header?
    ensures Reports(q, OnHeader(cfg, q, ch).fx.notices)
  {
    hide Reports, OnFieldStart, OnField, OnDiscardWs, OnDiscardLws, OnValue, OnLws, OnHeadersAlmostDone;
    SilentReports(q, []);
    match q.state.header
    case HeaderFieldStart => FieldStartReports(cfg, q, ch);
    case HeaderField => ValueOnLine(cfg, q, ch);
    case HeaderValueDiscardWs => GapSilent(q, ch);
    case HeaderValueDiscardLws => LineEndReports(cfg, q, ch);
    case HeaderValue => ValueOnLine(cfg, q, ch);
    case HeaderValueLws => LineEndReports(cfg, q, ch);
    case HeadersAlmostDone => HeadersEndReports(cfg, q, ch);
    case HeaderAlmostDone =>
    case HeaderValueDiscardWsAlmostDone =>
    case _ =>
  }

  lemma GapSilent(q: Parser, ch: byte)
    ensures OnDiscardWs(q, ch).fx.notices == []
  {
    hide OnValueStart;
    ValueStartOnLine(q, ch);
  }

  lemma StepReports(cfg: Settings, q: Parser, ch: byte)
    requires Inv(cfg, q)
    ensures Reports(q, Step(cfg, q, ch).fx.notices)
  {
    hide Reports, Enters, OnHeader, Switch, StateOk;
    StepBack(cfg, q, ch);
    SilentReports(q, []);
    if !q.state.Header? {
      EntersReports(q, Step(cfg, q, ch));
    } else if Count(q, 1).nread <= cfg.maxHeaderSize {
      CountInv(cfg, q);
      HeaderIsSwitch(cfg, Count(q, 1), ch);
      HeaderReports(cfg, Count(q, 1), ch);
      CountReports(q, OnHeader(cfg, Count(q, 1), ch).fx.notices);
    }
  }

  lemma HeaderIsSwitch(cfg: Settings, q: Parser, ch: byte)
    requires q.state.Header?
    ensures Switch(cfg, q, ch) == OnHeader(cfg, q, ch)
  {
    hide OnHeader;
  }

  lemma EntersReports(q: Parser, out: Outcome)
    requires Enters(out)
    ensures Reports(q, out.fx.notices)
  {
    hide FirstHead;
  }

  lemma CountReports(q: Parser, notices: seq<Event>)
    requires Reports(Count(q, 1), notices)
    ensures Reports(q, notices)
  {
    hide FirstHead;
  }

  /** For every input: when the next byte makes the parser call on_headers_complete with a declared length, a
      Content-Length line of the same header block shows exactly that number. */
  lemma ReportedLength(cfg: Settings, typ: ParserType, x: seq<byte>, ch: byte)
    returns (a: seq<byte>, name: seq<byte>, gap: seq<byte>, digits: seq<byte>, b: seq<byte>)
    requires cfg.maxHeaderSize + 1 < UINT32_MODULUS && Reached(cfg, typ, x).q.errno == OK
    requires var h := FirstHead(Step(cfg, Reached(cfg, typ, x).q, ch).fx.notices, 0); h.Some? && h.value.declared.Some?
    ensures x == LineAt(a, name, gap, digits, b) && ShowsLength(name, gap, digits, b) && LineFrom(cfg, typ, a, x)
    ensures FirstHead(Step(cfg, Reached(cfg, typ, x).q, ch).fx.notices, 0).value.declared == Some(Decimal(digits))
  {
    hide Run, Inv, Step, Decimal, FirstHead, ShowsLength, LineFrom, LineAt;
    RunGood(cfg, typ, x);
    assert Inv(cfg, Reached(cfg, typ, x).q);
    StepReports(cfg, Reached(cfg, typ, x).q, ch);
    a, name, gap, digits, b := LengthOrigin(cfg, typ, x);
  }
}
