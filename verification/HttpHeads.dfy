/** What on_headers_complete is told about the length, for whole inputs: a Content-Length line settles it, and
    the body that follows has exactly that many bytes. */
module HttpHeads {
  import opened Common
  import opened HttpTypes
  import opened HttpStep
  import opened HttpRun
  import opened HttpInvariant
  import opened HttpMarks
  import opened HttpOrder
  import opened HttpBodyLoop
  import opened HttpLength
  import opened HttpNames
  import opened HttpBodies

  // ------------------------------------------------------------------ the first head in a trace

  /** What the first on_headers_complete from index n on reports. */
  function FirstHead(t: seq<Event>, n: nat): Option<Head> {
    if |t| <= n then None
    else
      var before := FirstHead(t[..|t| - 1], n);
      if before.Some? then before
      else if t[|t| - 1].HeadersComplete? then Some(t[|t| - 1].head) else None
  }

  lemma {:induction false} NoHead(t: seq<Event>, n: nat)
    requires forall i :: n <= i < |t| ==> !t[i].HeadersComplete?
    ensures FirstHead(t, n) == None
  {
    if n < |t| {
      NoHead(t[..|t| - 1], n);
    }
  }

  lemma {:induction false} HeadAt(t: seq<Event>, n: nat, k: nat)
    requires n <= k < |t| && t[k].HeadersComplete? && forall i :: n <= i < k ==> !t[i].HeadersComplete?
    ensures FirstHead(t, n) == Some(t[k].head)
    decreases |t|
  {
    if k == |t| - 1 {
      NoHead(t[..k], n);
    } else {
      HeadAt(t[..|t| - 1], n, k);
    }
  }

  /** Glueing runs of bytes does not matter. */
  lemma HeadFeed(t: seq<Event>, n: nat, e: Event)
    requires n <= |t|
    ensures |Feed(t, e)| >= |t|
    ensures FirstHead(Feed(t, e), n)
         == if FirstHead(t, n).Some? then FirstHead(t, n) else if e.HeadersComplete? then Some(e.head) else None
  {
    var u := Feed(t, e);
    if |u| == |t| {
      assert u[..|u| - 1] == t[..|t| - 1];
    } else {
      assert u[..|u| - 1] == t;
    }
  }

  lemma {:induction false} HeadFeedAll(t: seq<Event>, n: nat, events: seq<Event>)
    requires n <= |t|
    ensures |FeedAll(t, events)| >= |t|
    ensures FirstHead(FeedAll(t, events), n)
         == if FirstHead(t, n).Some? then FirstHead(t, n) else FirstHead(events, 0)
    decreases |events|
  {
    hide Feed;
    if events != [] {
      HeadFeedAll(t, n, events[..|events| - 1]);
      HeadFeed(FeedAll(t, events[..|events| - 1]), n, events[|events| - 1]);
    }
  }

  lemma {:induction false} HeadConcat(a: seq<Event>, b: seq<Event>)
    ensures FirstHead(a + b, 0) == if FirstHead(a, 0).Some? then FirstHead(a, 0) else FirstHead(b, 0)
    decreases |b|
  {
    if b == [] {
      assert a + b == a;
    } else {
      assert (a + b)[..|a + b| - 1] == a + b[..|b| - 1];
      HeadConcat(a, b[..|b| - 1]);
    }
  }

  lemma HeadOfByte(s: State, out: Outcome, ch: byte)
    ensures FirstHead(ByteEvents(s, out, ch), 0) == FirstHead(out.fx.notices, 0)
  {
    hide FirstHead, ResumeMark;
    var closing, notices := ClosingEvents(s, out.fx.close, ch), out.fx.notices;
    var opening := if out.q.errno == OK then OpenEvents(s, out.fx, ch) else [];
    HeadConcat(closing + notices, opening);
    HeadConcat(closing, notices);
    NoHead(closing, 0);
    NoHead(opening, 0);
  }

  lemma HeadOfTwo(a: Event, rest: seq<Event>)
    requires a.HeadersComplete?
    ensures FirstHead([a] + rest, 0) == Some(a.head)
  {
    hide FirstHead;
    HeadAt([a] + rest, 0, 0);
  }

  // ------------------------------------------------------------------ one byte of the header block

  /** A length has been declared and its register holds n. */
  predicate Holding(q: Parser, n: nat) {
    q.state.Header? && q.flags.contentLength && !q.flags.trailing && q.contentLength == n
  }

  /** Inside the digits of a Content-Length value. */
  predicate InLength(q: Parser) { q.state == Header(HeaderValue) && q.hstate.ContentLengthNum? }

  predicate Kept(out: Outcome, n: nat) {
    match FirstHead(out.fx.notices, 0)
    case Some(h) => h.declared == Some(n) && !h.chunked
    case None => out.q.errno == OK ==> Holding(out.q, n) && !InLength(out.q)
  }

  lemma KeptSilently(out: Outcome, n: nat)
    requires out.fx.notices == [] && (out.q.errno == OK ==> Holding(out.q, n) && !InLength(out.q))
    ensures Kept(out, n)
  {
  }

  lemma HeadersEndKept(cfg: Settings, q: Parser, ch: byte, n: nat)
    requires Holding(q, n) && n != NO_LENGTH
    ensures Kept(OnHeadersAlmostDone(cfg, q, ch), n)
  {
    hide OnHeadersDone, FirstHead;
    NoHead([], 0);
    if ch == LF && !q.flags.chunked {
      var q1 := Answered(cfg, q.(state := Header(HeadersDone), upgrade := WantsUpgrade(q)));
      HeadOfTwo(HeadersComplete(HeadOf(q1)), OnHeadersDone(q1, ch).fx.notices);
    }
  }

  lemma FieldStartKept(cfg: Settings, q: Parser, ch: byte, n: nat)
    requires Holding(q, n) && n != NO_LENGTH
    ensures Kept(OnFieldStart(cfg, q, ch), n)
  {
    hide OnHeadersAlmostDone, FieldStartState, Kept, FirstHead;
    HeadersEndKept(cfg, q.(state := Header(HeadersAlmostDone)), ch, n);
    if ch != LF {
      KeptSilently(OnFieldStart(cfg, q, ch), n);
    }
  }

  /** A branch that only moves on in the header block. */
  predicate Moved(out: Outcome, n: nat) {
    out.fx.notices == [] && (out.q.errno == OK ==> Holding(out.q, n) && !InLength(out.q))
  }

  lemma FieldMoved(q: Parser, ch: byte, n: nat)
    requires Holding(q, n)
    ensures Moved(OnField(q, ch), n)
  {
    hide FieldState, FieldIndex;
  }

  /** A second length is refused, and any other value leaves the register alone. */
  lemma ValueStartMoved(q: Parser, ch: byte, n: nat)
    requires Holding(q, n)
    ensures Moved(OnValueStart(q, ch), n)
  {
    hide Lower, OnFirstDigit;
    SecondDigitMoved(q.(state := Header(HeaderValue), index := 0), ch, n);
  }

  lemma SecondDigitMoved(q: Parser, ch: byte, n: nat)
    requires Holding(q, n)
    ensures OnFirstDigit(q, ch).q.errno != OK && OnFirstDigit(q, ch).fx == NOTHING
  {
  }

  lemma MatchMoved(q: Parser, ch: byte, literal: string, full: HState, miss: HState)
    requires !q.hstate.ContentLengthNum? && !full.ContentLengthNum? && !miss.ContentLengthNum?
    ensures var out := MatchValue(q, literal, ch, full, miss);
            && out.q.flags == q.flags && out.q.contentLength == q.contentLength && out.fx == NOTHING
            && out.q.state == Header(HeaderValue) && !out.q.hstate.ContentLengthNum?
  {
  }

  lemma ValueCharMoved(q: Parser, ch: byte, n: nat)
    requires Holding(q, n) && ValueState(q.hstate) && (q.hstate.ContentLengthNum? ==> !IsNum(ch))
    ensures Moved(OnValueChar(q, ch), n)
  {
    hide MatchValue, Lower, PushDecimal;
    if q.hstate.MatchingTransferEncodingChunked? {
      MatchMoved(q, ch, CHUNKED, TransferEncodingChunked, General);
    } else if q.hstate.MatchingConnectionKeepAlive? {
      MatchMoved(q, ch, KEEP_ALIVE, ConnectionKeepAlive, MatchingConnectionToken);
    } else if q.hstate.MatchingConnectionClose? {
      MatchMoved(q, ch, CLOSE, ConnectionClose, MatchingConnectionToken);
    } else if q.hstate.MatchingConnectionUpgrade? {
      MatchMoved(q, ch, UPGRADE, ConnectionUpgrade, MatchingConnectionToken);
    }
  }

  lemma ValueMoved(cfg: Settings, q: Parser, ch: byte, n: nat)
    requires Holding(q, n) && ValueState(q.hstate) && (q.hstate.ContentLengthNum? ==> !IsNum(ch))
    ensures Moved(OnValue(cfg, q, ch), n)
  {
    hide OnValueChar, IsHeaderChar;
    ValueCharMoved(q, ch, n);
  }

  lemma DiscardWsMoved(q: Parser, ch: byte, n: nat)
    requires Holding(q, n) && NameState(q.hstate)
    ensures Moved(OnDiscardWs(q, ch), n)
  {
    hide OnValueStart;
    ValueStartMoved(q, ch, n);
  }

  lemma HeadsJoin(e: Effects, out: Outcome, n: nat)
    requires e.notices == [] && Kept(out, n)
    ensures Kept(Join(e, out), n)
  {
    assert e.notices + out.fx.notices == out.fx.notices;
  }

  lemma LineEndKept(cfg: Settings, q: Parser, ch: byte, n: nat)
    requires Holding(q, n) && n != NO_LENGTH
    ensures Kept(OnLws(cfg, q, ch), n) && Kept(OnDiscardLws(cfg, q, ch), n)
  {
    hide OnValueStart, OnFieldStart, FinishHeader, Kept;
    FinishKeeps(q);
    FieldStartKept(cfg, q.(flags := FinishHeader(q), state := Header(HeaderFieldStart)), ch, n);
    HeadsJoin(Close(Empty(Value)),
              OnFieldStart(cfg, q.(flags := FinishHeader(q), state := Header(HeaderFieldStart)), ch), n);
    if ch == ' ' || ch == TAB {
      var q1 := q.(state := Header(HeaderValueStart),
                   hstate := if q.hstate.ContentLengthNum? then ContentLengthWs else q.hstate);
      ValueStartMoved(q1, ch, n);
      KeptSilently(OnValueStart(q1, ch), n);
      KeptSilently(Go(q, Header(HeaderValueDiscardWs)), n);
    } else {
      KeptSilently(Fail(q, INVALID_CONTENT_LENGTH), n);
    }
  }

  lemma HeaderKept(cfg: Settings, q: Parser, ch: byte, n: nat)
    requires Inv(cfg, q) && Holding(q, n) && (InLength(q) ==> !IsNum(ch))
    ensures Kept(OnHeader(cfg, q, ch), n)
  {
    hide Kept, OnFieldStart, OnField, OnDiscardWs, OnDiscardLws, OnValue, OnLws, OnHeadersAlmostDone;
    match q.state.header
    case HeaderFieldStart => FieldStartKept(cfg, q, ch, n);
    case HeaderField =>
      FieldMoved(q, ch, n); KeptSilently(OnField(q, ch), n);
    case HeaderValueDiscardWs =>
      DiscardWsMoved(q, ch, n); KeptSilently(OnDiscardWs(q, ch), n);
    case HeaderValueDiscardLws => LineEndKept(cfg, q, ch, n);
    case HeaderValue =>
      ValueMoved(cfg, q, ch, n); KeptSilently(OnValue(cfg, q, ch), n);
    case HeaderValueLws => LineEndKept(cfg, q, ch, n);
    case HeadersAlmostDone => HeadersEndKept(cfg, q, ch, n);
    case HeaderAlmostDone => KeptSilently(OnHeader(cfg, q, ch), n);
    case HeaderValueDiscardWsAlmostDone => KeptSilently(OnHeader(cfg, q, ch), n);
    case _ =>
  }

  /** Once declared, the length stays what it is until on_headers_complete reports it. */
  lemma StepKept(cfg: Settings, q: Parser, ch: byte, n: nat)
    requires Inv(cfg, q) && Holding(q, n) && (InLength(q) ==> !IsNum(ch))
    ensures Kept(Step(cfg, q, ch), n)
  {
    hide Kept, OnHeader, StateOk;
    if Count(q, 1).nread > cfg.maxHeaderSize {
      KeptSilently(Fail(Count(q, 1), HEADER_OVERFLOW), n);
    } else {
      CountInv(cfg, q);
      HeaderKept(cfg, Count(q, 1), ch, n);
    }
  }

  // ------------------------------------------------------------------ the rest of the header block

  /** Either nothing is reported yet and the register still holds n, or n is what was reported first. */
  predicate Settled(cfg: Settings, c: Conf, start: nat, n: nat) {
    && start <= |c.trace|
    && (match FirstHead(c.trace, start)
        case Some(h) => h.declared == Some(n) && !h.chunked
        case None => c.q.errno == OK ==> Inv(cfg, c.q) && Holding(c.q, n))
  }

  /** The next byte does not continue the digits. */
  predicate LengthComplete(c: Conf, start: nat) {
    c.q.errno == OK && FirstHead(c.trace, start) == None ==> !InLength(c.q)
  }

  lemma AdvanceSettled(cfg: Settings, c: Conf, ch: byte, start: nat, n: nat)
    requires Settled(cfg, c, start, n) && (!IsNum(ch) || LengthComplete(c, start))
    ensures Settled(cfg, Advance(cfg, c, ch), start, n) && LengthComplete(Advance(cfg, c, ch), start)
  {
    hide Step, Inv, FirstHead, Holding, InLength, ByteEvents;
    if c.q.errno == OK {
      var out := Step(cfg, c.q, ch);
      HeadFeedAll(c.trace, start, ByteEvents(c.q.state, out, ch));
      HeadOfByte(c.q.state, out, ch);
      if FirstHead(c.trace, start) == None {
        StepKept(cfg, c.q, ch, n);
        StepSound(cfg, c.q, ch);
      }
    }
  }

  lemma {:induction false} RunSettled(cfg: Settings, c: Conf, b: seq<byte>, start: nat, n: nat)
    requires Settled(cfg, c, start, n) && (b != [] && IsNum(b[0]) ==> LengthComplete(c, start))
    ensures Settled(cfg, Run(cfg, c, b), start, n)
    ensures b != [] ==> LengthComplete(Run(cfg, c, b), start)
    decreases |b|
  {
    hide Advance, Settled, LengthComplete;
    if b != [] {
      var init, ch := b[..|b| - 1], b[|b| - 1];
      RunSettled(cfg, c, init, start, n);
      AdvanceSettled(cfg, Run(cfg, c, init), ch, start, n);
    }
  }

  // ------------------------------------------------------------------ inside one line

  /** A branch that moves on in the line. */
  predicate OnLine(q: Parser, out: Outcome) {
    && out.fx.notices == [] && (out.q.errno == OK ==> out.q.state.Header?)
    && out.q.nread == q.nread && out.q.flags.trailing == q.flags.trailing
  }

  lemma ValueStartOnLine(q: Parser, ch: byte)
    ensures OnLine(q, OnValueStart(q, ch))
  {
    hide Lower, OnFirstDigit;
    FirstDigitOnLine(q.(state := Header(HeaderValue), index := 0), ch);
  }

  lemma FirstDigitOnLine(q: Parser, ch: byte)
    requires q.state.Header?
    ensures OnLine(q, OnFirstDigit(q, ch))
  {
  }

  /** The branches of a value's characters stay in the value and touch neither the count nor the trailer. */
  predicate InValueLine(q: Parser, out: Outcome) {
    out.fx == NOTHING && out.q.state.Header? && out.q.nread == q.nread && out.q.flags.trailing == q.flags.trailing
  }

  lemma LengthDigitOnLine(q: Parser, ch: byte)
    requires q.state.Header?
    ensures InValueLine(q, OnLengthDigit(q, ch))
  {
    hide PushDecimal;
  }

  lemma TokenOnLine(q: Parser, ch: byte)
    requires q.state.Header?
    ensures InValueLine(q, OnConnectionToken(q, ch))
  {
    hide ConnectionFlag;
    TokenKeeps(q);
  }

  lemma MatchOnLine(q: Parser, ch: byte, literal: string, full: HState, miss: HState)
    requires q.state.Header?
    ensures InValueLine(q, MatchValue(q, literal, ch, full, miss))
  {
    hide Match, Lower;
  }

  lemma ValueCharOnLine(q: Parser, ch: byte)
    requires q.state.Header?
    ensures InValueLine(q, OnValueChar(q, ch))
  {
    hide OnLengthDigit, OnConnectionToken, MatchValue, TokenStart, Lower;
    match q.hstate
    case ContentLength => LengthDigitOnLine(q, ch);
    case ContentLengthNum => LengthDigitOnLine(q, ch);
    case MatchingTransferEncodingChunked => MatchOnLine(q, ch, CHUNKED, TransferEncodingChunked, General);
    case MatchingConnectionKeepAlive => MatchOnLine(q, ch, KEEP_ALIVE, ConnectionKeepAlive, MatchingConnectionToken);
    case MatchingConnectionClose => MatchOnLine(q, ch, CLOSE, ConnectionClose, MatchingConnectionToken);
    case MatchingConnectionUpgrade => MatchOnLine(q, ch, UPGRADE, ConnectionUpgrade, MatchingConnectionToken);
    case ConnectionKeepAlive => TokenOnLine(q, ch);
    case ConnectionClose => TokenOnLine(q, ch);
    case ConnectionUpgrade => TokenOnLine(q, ch);
    case _ =>
  }

  lemma ValueOnLine(cfg: Settings, q: Parser, ch: byte)
    requires q.state.Header?
    ensures OnLine(q, OnValue(cfg, q, ch)) && OnLine(q, OnField(q, ch))
  {
    hide OnValueChar, FieldState, FieldIndex, IsHeaderChar;
    ValueCharOnLine(q, ch);
  }

  lemma FieldStartOnLine(cfg: Settings, q: Parser, ch: byte)
    requires ch != LF
    ensures OnLine(q, OnFieldStart(cfg, q, ch))
  {
    hide FieldStartState;
  }

  lemma LwsOnLine(cfg: Settings, q: Parser, ch: byte)
    requires ch != LF && q.state.Header?
    ensures OnLine(q, OnLws(cfg, q, ch)) && OnLine(q, OnDiscardLws(cfg, q, ch))
  {
    hide OnValueStart, OnFieldStart, FinishHeader;
    FinishKeeps(q);
    ValueStartOnLine(q.(state := Header(HeaderValueStart),
                        hstate := if q.hstate.ContentLengthNum? then ContentLengthWs else q.hstate), ch);
    FieldStartOnLine(cfg, q.(flags := FinishHeader(q), state := Header(HeaderFieldStart)), ch);
  }

  lemma HeaderOnLine(cfg: Settings, q: Parser, ch: byte)
    requires q.state.Header? && q.state != Header(HeadersDone) && ch != LF
    ensures OnLine(q, OnHeader(cfg, q, ch))
  {
    hide OnValueStart, OnFieldStart, OnLws, OnDiscardLws, OnValue, OnField;
    ValueStartOnLine(q, ch);
    ValueOnLine(cfg, q, ch);
    FieldStartOnLine(cfg, q, ch);
    LwsOnLine(cfg, q, ch);
  }

  lemma StepOnLine(cfg: Settings, q: Parser, ch: byte)
    requires Inv(cfg, q) && q.state.Header? && ch != LF && cfg.maxHeaderSize + 1 < UINT32_MODULUS
    ensures var out := Step(cfg, q, ch);
            && out.fx.notices == []
            && (out.q.errno == OK ==> out.q.state.Header? && out.q.nread == q.nread + 1 <= cfg.maxHeaderSize
                                      && out.q.flags.trailing == q.flags.trailing)
  {
    hide OnHeader;
    HeaderOnLine(cfg, Count(q, 1), ch);
  }

  predicate OnOneLine(cfg: Settings, c: Conf, r: Conf, n: nat) {
    && |c.trace| <= |r.trace| && FirstHead(r.trace, |c.trace|) == None
    && (r.q.errno == OK ==> Inv(cfg, r.q) && r.q.state.Header? && r.q.nread == c.q.nread + n <= cfg.maxHeaderSize
                            && r.q.flags.trailing == c.q.flags.trailing)
  }

  lemma AdvanceOnLine(cfg: Settings, c: Conf, r: Conf, n: nat, ch: byte)
    requires OnOneLine(cfg, c, r, n) && ch != LF && cfg.maxHeaderSize + 1 < UINT32_MODULUS
    ensures OnOneLine(cfg, c, Advance(cfg, r, ch), n + 1)
  {
    hide Step, Inv, FirstHead, ByteEvents;
    if r.q.errno == OK {
      StepOnLine(cfg, r.q, ch);
      StepSound(cfg, r.q, ch);
      var out := Step(cfg, r.q, ch);
      HeadFeedAll(r.trace, |c.trace|, ByteEvents(r.q.state, out, ch));
      HeadOfByte(r.q.state, out, ch);
      NoHead(out.fx.notices, 0);
    }
  }

  lemma {:induction false} RunOnLine(cfg: Settings, c: Conf, w: seq<byte>)
    requires Inv(cfg, c.q) && c.q.state.Header? && LF !in w && cfg.maxHeaderSize + 1 < UINT32_MODULUS
    ensures OnOneLine(cfg, c, Run(cfg, c, w), |w|)
    decreases |w|
  {
    hide Advance, FirstHead, StateOk;
    if w == [] {
      NoHead(c.trace, |c.trace|);
    } else {
      RunOnLine(cfg, c, w[..|w| - 1]);
      AdvanceOnLine(cfg, c, Run(cfg, c, w[..|w| - 1]), |w| - 1, w[|w| - 1]);
    }
  }

  // ------------------------------------------------------------------ from a Content-Length line to the body

  /** A Content-Length line: name, colon, blanks, digits. What comes behind the digits is not part of it. */
  predicate LengthLine(name: seq<byte>, ws: seq<byte>, digits: seq<byte>) {
    && name != [] && Tokens(name) && LowerName(name) == CONTENT_LENGTH
    && Blanks(ws) && digits != [] && Digits(digits)
  }

  function LengthText(name: seq<byte>, ws: seq<byte>, digits: seq<byte>): seq<byte> { name + [':'] + ws + digits }

  lemma LineIsOne(name: seq<byte>, ws: seq<byte>, digits: seq<byte>)
    requires LengthLine(name, ws, digits)
    ensures LF !in LengthText(name, ws, digits)
  {
    hide LowerName, Token;
    forall i | 0 <= i < |name| ensures name[i] != LF { NotLineEnd(name[i]); }
  }

  /** The line is read to its end only if it is the first of its kind and its number fits; then the register
      holds the number. */
  lemma LineRead(cfg: Settings, c: Conf, name: seq<byte>, ws: seq<byte>, digits: seq<byte>)
    requires cfg.maxHeaderSize + 1 < UINT32_MODULUS && Inv(cfg, c.q)
    requires HeaderMayStart(c.q) && !c.q.flags.trailing && LengthLine(name, ws, digits)
    ensures var r := Run(cfg, c, LengthText(name, ws, digits));
            && OnOneLine(cfg, c, r, |LengthText(name, ws, digits)|)
            && (r.q.errno == OK ==> !c.q.flags.contentLength && FitsDecimal(digits) && Holding(r.q, Decimal(digits)))
  {
    hide Run, Inv, LowerName, Tokens, Blanks, Decimal, FitsDecimal, FirstHead;
    LineIsOne(name, ws, digits);
    RunOnLine(cfg, c, LengthText(name, ws, digits));
    var first, rest := digits[0], digits[1..];
    assert [first] + rest == digits;
    assert LengthText(name, ws, digits) == (name + [':']) + ((ws + [first]) + rest);
    assert LengthText(name, ws, digits) == ((name + [':']) + (ws + [first])) + rest;
    if Run(cfg, c, LengthText(name, ws, digits)).q.errno == OK {
      if c.q.flags.contentLength {
        SecondLengthRefused(cfg, c, name, ws, first);
        assert LengthText(name, ws, digits)[..|name| + |ws| + 2] == (name + [':']) + (ws + [first]);
        RunStuck(cfg, c, LengthText(name, ws, digits), |name| + |ws| + 2);
      } else {
        ContentLengthHeader(cfg, c, name, ws, first, rest);
        ReadingHolds(cfg, Run(cfg, c, LengthText(name, ws, digits)).q, digits);
      }
    }
  }

  lemma ReadingHolds(cfg: Settings, q: Parser, digits: seq<byte>)
    requires Inv(cfg, q) && Digits(digits) && ReadingLength(q, digits) && !q.flags.trailing
    ensures Holding(q, Decimal(digits))
  {
    hide Decimal;
  }

  /** Wherever a header line may begin: if a Content-Length line follows, with anything behind its digits, and
      on_headers_complete is called, then it is told exactly that number. The line was then the only one of its
      kind so far, and the message is not chunked. */
  lemma DeclaredLength(cfg: Settings, c: Conf, name: seq<byte>, ws: seq<byte>, digits: seq<byte>, b: seq<byte>)
    requires cfg.maxHeaderSize + 1 < UINT32_MODULUS && Inv(cfg, c.q)
    requires HeaderMayStart(c.q) && !c.q.flags.trailing && LengthLine(name, ws, digits)
    requires b != [] ==> !IsNum(b[0])
    ensures var h := FirstHead(Run(cfg, c, LengthText(name, ws, digits) + b).trace, |c.trace|);
            h.Some? ==> !c.q.flags.contentLength && FitsDecimal(digits)
                        && h.value.declared == Some(Decimal(digits)) && !h.value.chunked
  {
    hide Run, LengthText, Inv, Decimal, FitsDecimal, FirstHead, Holding, LowerName, HeaderMayStart;
    LineRead(cfg, c, name, ws, digits);
    var c1 := Run(cfg, c, LengthText(name, ws, digits));
    RunConcat(cfg, c, LengthText(name, ws, digits), b);
    if c1.q.errno == OK {
      RunSettled(cfg, c1, b, |c.trace|, Decimal(digits));
    } else {
      assert b[..0] == [] && Run(cfg, c1, b[..0]) == c1 by { RunNothing(cfg, c1); }
      RunStuck(cfg, c1, b, 0);
    }
  }

  /** For every input of a connection: if a header block contains a Content-Length line and on_headers_complete
      is called behind it (at index k of the callbacks), it reports exactly the number shown; and when
      on_message_complete follows (at index m) and the body was neither declined nor handed over to another
      protocol, on_body has been given exactly that many bytes. */
  lemma ContentLengthBody(cfg: Settings, typ: ParserType, a: seq<byte>, name: seq<byte>, ws: seq<byte>,
                          digits: seq<byte>, b: seq<byte>, k: nat, m: nat)
    requires cfg.maxHeaderSize + 1 < UINT32_MODULUS
    requires var q := Run(cfg, Conf(Init(typ), []), a).q; HeaderMayStart(q) && !q.flags.trailing
    requires LengthLine(name, ws, digits) && (b != [] ==> !IsNum(b[0]))
    requires var t := Run(cfg, Conf(Init(typ), []), a + (LengthText(name, ws, digits) + b)).trace;
             var n := |Run(cfg, Conf(Init(typ), []), a).trace|;
             && n <= k < m < |t| && t[k].HeadersComplete? && (forall i :: n <= i < k ==> !t[i].HeadersComplete?)
             && t[m].MessageComplete? && Incomplete(t[k + 1..m])
    ensures var t := Run(cfg, Conf(Init(typ), []), a + (LengthText(name, ws, digits) + b)).trace;
            && t[k].head.declared == Some(Decimal(digits))
            && (!t[k].head.skip && !t[k].head.tunnel ==> |BodyOf(t[k + 1..m])| == Decimal(digits))
  {
    hide Run, LengthText, Inv, Decimal, LengthLine, HeaderMayStart, BodyOf, FirstHead, Incomplete;
    var c0 := Conf(Init(typ), []);
    var c := Run(cfg, c0, a);
    assert c.q.errno == OK by { LineOk(c.q); }
    RunGood(cfg, typ, a);
    RunConcat(cfg, c0, a, LengthText(name, ws, digits) + b);
    var t := Run(cfg, c, LengthText(name, ws, digits) + b).trace;
    DeclaredLength(cfg, c, name, ws, digits, b);
    HeadAt(t, |c.trace|, k);
    RunGood(cfg, typ, a + (LengthText(name, ws, digits) + b));
    MessageBody(t, k, m);
    NoBody();
  }

  lemma LineOk(q: Parser)
    requires HeaderMayStart(q)
    ensures q.errno == OK
  {
  }

  // ------------------------------------------------------------------ the bytes of a body of known size

  /** Where such a body begins: on_headers_complete was the last callback. */
  predicate SizedBegins(c: Conf) {
    c.q.errno == OK && c.q.state == Content(BodyIdentity)
    && c.trace != [] && c.trace[|c.trace| - 1].HeadersComplete?
  }

  lemma PartOfBody(cfg: Settings, c: Conf, d: seq<byte>)
    requires Inv(cfg, c.q) && SizedBegins(c) && 0 < |d| < c.q.contentLength
    ensures Run(cfg, c, d) == Conf(BodyAfter(c.q, |d|), c.trace + [Data(Body, d)])
    ensures Inv(cfg, BodyAfter(c.q, |d|))
  {
    hide Inv, BodyAfter, Run;
    assert d[..0] == [];
    RunNothing(cfg, c);
    BodyGrows(cfg, c, d, 0, |d|, c.q, c.trace);
    assert d[..0 + |d|] == d && d[0..|d|] == d;
  }

  lemma FeedTwo(t: seq<Event>, d: Event, done: Event)
    ensures FeedAll(t, [d] + [done]) == Feed(Feed(t, d), done)
  {
    hide Feed;
    FeedAllSnoc(t, [d], done);
    FeedOne(t, d);
  }

  lemma FeedLast(t: seq<Event>, d: seq<byte>, ch: byte, done: Event)
    requires t != [] && !t[|t| - 1].Data? && !done.Data?
    ensures Feed(Feed(t + [Data(Body, d)], Data(Body, [ch])), done) == t + [Data(Body, d + [ch]), done]
    ensures Feed(Feed(t, Data(Body, [ch])), done) == t + [Data(Body, [ch]), done]
  {
    assert (t + [Data(Body, d)])[..|t|] == t;
  }

  /** All the bytes of the body: they are delivered as they were sent, and the message is complete. */
  lemma WholeBody(cfg: Settings, c: Conf, d: seq<byte>) returns (done: Event)
    requires Inv(cfg, c.q) && SizedBegins(c) && |d| == c.q.contentLength
    ensures d != [] && done.MessageComplete? && Run(cfg, c, d).trace == c.trace + [Data(Body, d), done]
    ensures var out := CompleteMessage(c.q.(contentLength := 0), c.q.upgrade);
            && out.fx.notices == [done] && Run(cfg, c, d).q == out.q
            && (LeavesAt(cfg, c, d, |d| - 1) <==> out.leave)
  {
    hide Run, Inv, FeedAll, Feed, BodyAfter, CompleteMessage, LeavesAt;
    assert 0 < |d| by { SizedNotEmpty(cfg, c.q); }
    var n := |d| - 1;
    var ch := d[n];
    assert d == d[..n] + [ch] && d[..n + 1] == d;
    RunNothing(cfg, c);
    if n > 0 {
      PartOfBody(cfg, c, d[..n]);
    } else {
      assert d[..n] == [];
    }
    AlmostEmptyBody(c.q);
    var r := Run(cfg, c, d[..n]);
    assert r.q == BodyAfter(c.q, n) && Inv(cfg, r.q) by { BodyAfterNone(cfg, c.q); }
    LastBodyRun(cfg, c, d, n, r.q, r.trace);
    OneDone(r.q.(contentLength := 0), r.q.upgrade);
    done := CompleteMessage(r.q.(contentLength := 0), r.q.upgrade).fx.notices[0];
    FeedTwo(r.trace, Data(Body, [ch]), done);
    FeedLast(c.trace, d[..n], ch, done);
  }

  lemma SizedNotEmpty(cfg: Settings, q: Parser)
    requires Inv(cfg, q) && q.state == Content(BodyIdentity)
    ensures 0 < q.contentLength
  {
  }

  lemma BodyAfterNone(cfg: Settings, q: Parser)
    requires q.state == Content(BodyIdentity) && 0 < q.contentLength
    ensures BodyAfter(q, 0) == q
  {
  }

  lemma OneDone(q: Parser, leave: bool)
    ensures var n := CompleteMessage(q, leave).fx.notices; |n| == 1 && n == [n[0]] && n[0].MessageComplete?
  {
  }

  /** For every connection input a + x that has just entered a body of known size behind a: if the message ends,
      at index m of the callbacks, then the bytes given to on_body are exactly the first bytes of x, as many as
      were declared. */
  lemma SizedBody(cfg: Settings, typ: ParserType, a: seq<byte>, x: seq<byte>, m: nat)
    requires cfg.maxHeaderSize < UINT32_MODULUS && SizedBegins(Run(cfg, Conf(Init(typ), []), a))
    requires var t := Run(cfg, Conf(Init(typ), []), a + x).trace;
             var n := |Run(cfg, Conf(Init(typ), []), a).trace|;
             n <= m < |t| && t[m].MessageComplete? && Incomplete(t[n..m])
    ensures var c := Run(cfg, Conf(Init(typ), []), a);
            c.q.contentLength <= |x|
            && BodyOf(Run(cfg, Conf(Init(typ), []), a + x).trace[|c.trace|..m]) == x[..c.q.contentLength]
  {
    hide Run, Inv, BodyOf, Incomplete, Agrees;
    var c := Run(cfg, Conf(Init(typ), []), a);
    RunGood(cfg, typ, a);
    RunConcat(cfg, Conf(Init(typ), []), a, x);
    RunNothing(cfg, c);
    var t, start, n := Run(cfg, c, x).trace, |c.trace|, c.q.contentLength;
    if |x| < n {
      if x != [] {
        PartOfBody(cfg, c, x);
      }
    } else {
      var d, rest := x[..n], x[n..];
      assert x == d + rest;
      var done := WholeBody(cfg, c, d);
      RunConcat(cfg, c, d, rest);
      var c1 := Run(cfg, c, d);
      RunKeeps(cfg, c1, rest, start + 2);
      EndIsSecond(t, c1.trace, start, d, m);
    }
  }

  lemma EndIsSecond(t: seq<Event>, before: seq<Event>, start: nat, d: seq<byte>, m: nat)
    requires start <= m < |t| && t[m].MessageComplete? && Incomplete(t[start..m])
    requires |before| == start + 2 <= |t| && t[..start + 2] == before
    requires before[start] == Data(Body, d) && before[start + 1].MessageComplete?
    ensures BodyOf(t[start..m]) == d
  {
    assert t[start] == t[..start + 2][start] && t[start + 1] == t[..start + 2][start + 1];
    forall i | start <= i < m ensures !t[i].MessageComplete? {
      assert t[i] == t[start..m][i - start];
    }
    assert m == start + 1 && t[start..m] == [Data(Body, d)];
    OneBody(d);
  }

  lemma OneBody(d: seq<byte>)
    ensures BodyOf([Data(Body, d)]) == d
  {
    NoBody();
    assert [Data(Body, d)][..0] == [];
  }
}
