/** Whole messages: from the text of a start line, its header lines and its body to every callback, and the decision
    whether the connection goes on. */
module HttpMessages {
  import opened Common
  import opened HttpTypes
  import opened HttpStep
  import opened HttpRun
  import opened HttpInvariant
  import opened HttpMarks
  import HttpBodyLoop
  import opened HttpLength
  import opened HttpHeads
  import opened HttpChunks
  import opened HttpNames
  import opened HttpRequestLines
  import opened HttpStatusLines
  import opened HttpVersions
  import opened HttpLines
  import opened HttpBlocks

  // ------------------------------------------------------------------ what the text decides

  /** The body lasts as long as the connection. */
  predicate EndsWithConnection(h: Head) {
    && h.response && h.status / 100 != 1 && h.status != 204 && h.status != 304
    && !h.skip && !h.chunked && h.declared == None
  }

  /** Another message may follow: from version 1.1 on unless an item says close, before that only if one says
      keep-alive; and never where the body ends with the connection. */
  ghost predicate GoesOn(major: nat, minor: nat, ls: seq<Line>, h: Head) {
    && !EndsWithConnection(h)
    && if major > 0 && minor > 0 then !Said(ls, CLOSE) else Said(ls, KEEP_ALIVE)
  }

  /** What the registers have to say for it: these lines have been read since the start line. */
  ghost predicate Heard(q: Parser, ls: seq<Line>) {
    (q.flags.close <==> Said(ls, CLOSE)) && (q.flags.keepAlive <==> Said(ls, KEEP_ALIVE))
  }

  /** The length and the coding that were reported are still those of the registers. */
  predicate Framed(q: Parser, h: Head) {
    && (h.response <==> !q.typ.Request?) && h.status == q.status && (h.skip <==> q.flags.skipBody)
    && (h.chunked <==> q.flags.chunked) && (h.chunked || (h.declared == None <==> q.contentLength == NO_LENGTH))
  }

  lemma Decided(q: Parser, ls: seq<Line>, h: Head)
    requires Heard(q, ls) && Framed(q, h)
    ensures ShouldKeepAlive(q) <==> GoesOn(q.major, q.minor, ls, h)
  {
  }

  /** The last byte of w is where a call returns, as what follows belongs to another protocol. */
  predicate Departs(cfg: Settings, c: Conf, w: seq<byte>) { w != [] && LeavesAt(cfg, c, w, |w| - 1) }

  lemma DepartsBehind(cfg: Settings, c: Conf, a: seq<byte>, b: seq<byte>)
    requires b != []
    ensures Departs(cfg, c, a + b) <==> Departs(cfg, Run(cfg, c, a), b)
  {
    hide Run, Step;
    var n := |b| - 1;
    assert (a + b)[..|a + b| - 1] == a + b[..n] && (a + b)[|a + b| - 1] == b[n];
    RunConcat(cfg, c, a, b[..n]);
  }

  /** The connection is wanted for another protocol, by the request itself or by the answer to its header block. */
  predicate Switches(cfg: Settings, p: Parser) { p.upgrade || cfg.onHeadersComplete(p) == SkipBodyAndUpgrade }

  /** Between messages: k is what on_message_complete has reported. */
  predicate Ended(q: Parser, r: Parser, k: bool) {
    r == q.(state := if !k then Start(Dead) else if q.typ.Request? then Start(StartReq) else Start(StartRes))
  }

  lemma CompletesWith(q: Parser, leave: bool)
    ensures var out := CompleteMessage(q, leave); var k := ShouldKeepAlive(q);
            out.fx == Tell(MessageComplete(k)) && Ended(q, out.q, k) && out.leave == leave
  {
  }

  // ------------------------------------------------------------------ the end of the header block

  /** At the end of the header block: the line end that remains to be read is a line feed. */
  lemma BlockCloses(cfg: Settings, c: Conf)
    requires HeaderMayStart(c.q) && HeaderRoom(cfg, c.q, 1)
    ensures Advance(cfg, c, CR)
         == Conf(LineConf(c).q.(state := Header(HeadersAlmostDone), nread := c.q.nread + 1), LineConf(c).trace)
  {
    hide FeedAll, Feed, FinishHeader, OnHeadersAlmostDone;
    AdvanceRegisters(cfg, c, CR);
    var out := Step(cfg, c.q, CR);
    if c.q.state == Header(HeaderValueDiscardLws) {
      assert ByteEvents(c.q.state, out, CR) == [Data(Value, [])];
      FeedOne(c.trace, Data(Value, []));
    } else {
      assert ByteEvents(c.q.state, out, CR) == [];
      FeedAllNone(c.trace);
    }
    CountsFirst(c.q);
  }

  lemma CountsFirst(q: Parser)
    ensures LineRegisters(Count(q, 1)) == Count(LineRegisters(q), 1)
  {
  }

  /** A line feed right at the place where a header line may begin ends the block too. */
  lemma LineFeedCloses(cfg: Settings, c: Conf)
    requires HeaderMayStart(c.q) && HeaderRoom(cfg, c.q, 1)
    ensures var out := OnHeadersAlmostDone(cfg, LineConf(c).q.(state := Header(HeadersAlmostDone),
                                                              nread := c.q.nread + 1), LF);
            && Step(cfg, c.q, LF).leave == out.leave
            && (out.fx == Effects(Keep, out.fx.notices, None) ==>
                  Advance(cfg, c, LF) == Conf(out.q, FeedAll(LineConf(c).trace, out.fx.notices)))
  {
    hide FeedAll, Feed, FinishHeader, OnHeadersAlmostDone;
    AdvanceRegisters(cfg, c, LF);
    CountsFirst(c.q);
    var out := OnHeadersAlmostDone(cfg, LineConf(c).q.(state := Header(HeadersAlmostDone), nread := c.q.nread + 1), LF);
    var step := Step(cfg, c.q, LF);
    if c.q.state == Header(HeaderValueDiscardLws) {
      assert step == Join(Close(Empty(Value)), out);
      if out.fx == Effects(Keep, out.fx.notices, None) {
        assert ByteEvents(c.q.state, step, LF) == [Data(Value, [])] + out.fx.notices;
        FeedAllConcat(c.trace, [Data(Value, [])], out.fx.notices);
        FeedOne(c.trace, Data(Value, []));
      }
    } else {
      assert step == out;
      assert out.fx == Effects(Keep, out.fx.notices, None) ==> ByteEvents(c.q.state, step, LF) == out.fx.notices;
    }
  }

  lemma AlmostCloses(cfg: Settings, c: Conf)
    requires c.q.state == Header(HeadersAlmostDone) && HeaderRoom(cfg, c.q, 1)
    ensures var out := OnHeadersAlmostDone(cfg, c.q.(nread := c.q.nread + 1), LF);
            && Step(cfg, c.q, LF).leave == out.leave
            && (out.fx == Effects(Keep, out.fx.notices, None) ==>
                  Advance(cfg, c, LF) == Conf(out.q, FeedAll(c.trace, out.fx.notices)))
  {
    hide FeedAll, OnHeadersAlmostDone;
    var out := OnHeadersAlmostDone(cfg, c.q.(nread := c.q.nread + 1), LF);
    assert Step(cfg, c.q, LF) == out;
    assert out.fx == Effects(Keep, out.fx.notices, None) ==> ByteEvents(c.q.state, out, LF) == out.fx.notices;
  }

  /** The registers in which the last line feed of a header block finds the parser. */
  function Closing(c: Conf, cr: bool): Parser {
    LineConf(c).q.(state := Header(HeadersAlmostDone), nread := c.q.nread + |Eol(cr)|)
  }

  lemma BlockEnd(cfg: Settings, c: Conf, cr: bool)
    requires HeaderMayStart(c.q) && HeaderRoom(cfg, c.q, |Eol(cr)|)
    ensures var out := OnHeadersAlmostDone(cfg, Closing(c, cr), LF);
            && (Departs(cfg, c, Eol(cr)) <==> out.leave)
            && (out.fx == Effects(Keep, out.fx.notices, None) ==>
                  Run(cfg, c, Eol(cr)) == Conf(out.q, FeedAll(LineConf(c).trace, out.fx.notices)))
  {
    hide Run, Advance, Step, OnHeadersAlmostDone, LineConf, HeaderMayStart;
    RunNothing(cfg, c);
    RegistersOf(c);
    if cr {
      BlockCloses(cfg, c);
      RunNext(cfg, c, [], CR);
      AlmostCloses(cfg, Advance(cfg, c, CR));
      RunNext(cfg, c, [CR], LF);
      assert [] + [CR] == [CR] && [CR] + [LF] == Eol(cr) && Eol(cr)[..1] == [CR];
    } else {
      LineFeedCloses(cfg, c);
      RunNext(cfg, c, [], LF);
      assert [] + [LF] == Eol(cr) && Eol(cr)[..0] == [];
    }
  }

  // ------------------------------------------------------------------ what on_headers_complete decides

  predicate HasBytes(h: Head) { h.chunked || (h.declared.Some? && h.declared.value > 0) }

  /** Nothing more of the message follows its header block. */
  predicate EndsAtOnce(h: Head) { h.tunnel || h.skip || (!HasBytes(h) && !EndsWithConnection(h)) }

  /** The registers behind the header block. */
  function Headed(q: Parser, p: Parser, reply: Reply): Parser {
    q.(nread := 0, upgrade := p.upgrade || reply == SkipBodyAndUpgrade,
       flags := q.flags.(skipBody := q.flags.skipBody || reply != Proceed))
  }

  function BodyState(h: Head): State {
    if h.chunked then ChunkLine(ChunkSizeStart)
    else if h.declared.Some? then Content(BodyIdentity) else Content(BodyIdentityEof)
  }

  /** What the parser asks on_headers_complete, and what it reports: told by the flags. */
  ghost predicate Asked(cfg: Settings, q: Parser, p: Parser, h: Head) {
    var reply := cfg.onHeadersComplete(p);
    && p == q.(state := Header(HeadersDone), upgrade := p.upgrade)
    && (p.upgrade <==> if q.flags.upgrade && q.flags.connectionUpgrade then q.typ == Request || q.status == 101
                       else q.verb == CONNECT)
    && h.response == (q.typ == Response) && h.status == q.status && h.chunked == q.flags.chunked
    && h.declared == (if q.contentLength == NO_LENGTH then None else Some(q.contentLength))
    && (h.skip <==> reply != Proceed)
    && (h.tunnel <==> (p.upgrade || reply == SkipBodyAndUpgrade) && (q.verb == CONNECT || h.skip || !HasBytes(h)))
  }

  /** The registers with an answer taken into account. */
  function Replied(q: Parser, reply: Reply): Parser {
    q.(flags := q.flags.(skipBody := q.flags.skipBody || reply != Proceed),
       upgrade := q.upgrade || reply == SkipBodyAndUpgrade)
  }

  lemma AnswerIs(cfg: Settings, q: Parser)
    ensures Answered(cfg, q) == Replied(q, cfg.onHeadersComplete(q))
  {
    match cfg.onHeadersComplete(q)
    case Proceed => assert q.flags.(skipBody := q.flags.skipBody || false) == q.flags;
    case SkipBody =>
    case SkipBodyAndUpgrade =>
  }

  lemma Asks(cfg: Settings, q: Parser) returns (p: Parser, h: Head)
    requires q.typ != Both && q.errno == OK && !q.flags.skipBody
    ensures Asked(cfg, q, p, h)
    ensures var q1 := Answered(cfg, q.(state := Header(HeadersDone), upgrade := WantsUpgrade(q)));
            h == HeadOf(q1) && q1 == Replied(p, cfg.onHeadersComplete(p))
  {
    hide Answered;
    p := q.(state := Header(HeadersDone), upgrade := WantsUpgrade(q));
    AnswerIs(cfg, p);
    h := HeadOf(Answered(cfg, p));
  }

  /** How a header block ends that is no trailer. */
  ghost predicate Closed(q: Parser, p: Parser, h: Head, reply: Reply, ls: seq<Line>, out: Outcome) {
    var r := Headed(q, p, reply);
    && (out.leave <==> h.tunnel)
    && (if EndsAtOnce(h)
        then && out.fx == Effects(Keep, [HeadersComplete(h), MessageComplete(GoesOn(q.major, q.minor, ls, h))], None)
             && Ended(r, out.q, GoesOn(q.major, q.minor, ls, h))
        else && out.fx == Effects(Keep, [HeadersComplete(h)], None)
             && out.q == r.(state := BodyState(h)) && Heard(r, ls) && Framed(r, h))
  }

  lemma DoneCloses(q: Parser, h: Head, ls: seq<Line>)
    requires q.typ != Both && q.errno == OK && Heard(q, ls) && h == HeadOf(q)
    ensures var out := OnHeadersDone(q, LF); var r := q.(nread := 0); var k := GoesOn(q.major, q.minor, ls, h);
            && (out.leave <==> h.tunnel) && out.fx.close == Keep && out.fx.open == None
            && (if EndsAtOnce(h) then out.fx.notices == [MessageComplete(k)] && Ended(r, out.q, k)
                else out.fx.notices == [] && out.q == r.(state := BodyState(h)))
            && Framed(r, h)
  {
    hide ShouldKeepAlive, GoesOn;
    var r := q.(nread := 0);
    assert Framed(r, h);
    Decided(r, ls, h);
    hide CompleteMessage;
    CompletesWith(r, true);
    CompletesWith(r, false);
  }

  lemma AlmostIs(cfg: Settings, q: Parser, q1: Parser, h: Head)
    requires q1 == Answered(cfg, q.(state := Header(HeadersDone), upgrade := WantsUpgrade(q))) && h == HeadOf(q1)
    requires !q.flags.trailing && !(q.flags.chunked && q.flags.contentLength)
    ensures OnHeadersAlmostDone(cfg, q, LF) == Join(Tell(HeadersComplete(h)), OnHeadersDone(q1, LF))
  {
    hide OnHeadersDone, HeadOf, WantsUpgrade, Answered;
  }

  lemma JoinIs(h: Head, out: Outcome)
    requires out.fx.close == Keep && out.fx.open == None
    ensures var j := Join(Tell(HeadersComplete(h)), out);
            && j.q == out.q && j.leave == out.leave
            && (out.fx.notices == [] ==> j.fx == Effects(Keep, [HeadersComplete(h)], None))
            && (|out.fx.notices| == 1 ==> j.fx == Effects(Keep, [HeadersComplete(h), out.fx.notices[0]], None))
  {
  }

  /** Where the registers only differ in the state. */
  lemma StateNot(q: Parser, s: State, t: State, ls: seq<Line>, h: Head)
    ensures q.(state := s).(state := t) == q.(state := t)
    ensures Heard(q.(state := s), ls) <==> Heard(q, ls)
    ensures Framed(q.(state := s), h) <==> Framed(q, h)
    ensures forall r, k :: Ended(q.(state := s), r, k) <==> Ended(q, r, k)
  {
  }

  /** The last line feed of a header block, in the flags' terms. */
  lemma HeadersEnd(cfg: Settings, q: Parser, ls: seq<Line>) returns (p: Parser, h: Head)
    requires q.typ != Both && q.errno == OK && !q.flags.skipBody && !q.flags.trailing && Heard(q, ls)
    requires !(q.flags.chunked && q.flags.contentLength)
    ensures Asked(cfg, q, p, h)
    ensures Closed(q, p, h, cfg.onHeadersComplete(p), ls, OnHeadersAlmostDone(cfg, q, LF))
  {
    hide OnHeadersDone, OnHeadersAlmostDone, HeadOf, GoesOn, WantsUpgrade, Asked, Answered, Replied, Headed,
         EndsAtOnce, BodyState, Framed, Ended, Join, Said;
    p, h := Asks(cfg, q);
    var reply := cfg.onHeadersComplete(p);
    var q1 := Answered(cfg, q.(state := Header(HeadersDone), upgrade := WantsUpgrade(q)));
    PartsOf(cfg, q, p, h);
    StateAside(q, p, reply);
    DoneCloses(q1, h, ls);
    AlmostIs(cfg, q, q1, h);
    JoinIs(h, OnHeadersDone(q1, LF));
    StateNot(q1.(nread := 0), q.state, BodyState(h), ls, h);
    var r := Headed(q, p, reply);
    assert r == q1.(nread := 0).(state := q.state);
    assert Heard(r, ls) && Framed(r, h);
  }

  lemma PartsOf(cfg: Settings, q: Parser, p: Parser, h: Head)
    requires Asked(cfg, q, p, h)
    ensures p == q.(state := Header(HeadersDone), upgrade := p.upgrade)
  {
  }

  lemma StateAside(q: Parser, p: Parser, reply: Reply)
    requires p == q.(state := Header(HeadersDone), upgrade := p.upgrade)
    ensures Replied(p, reply).(nread := 0, state := q.state) == Headed(q, p, reply)
    ensures var r := Replied(p, reply); r.typ == q.typ && r.errno == q.errno && r.major == q.major && r.minor == q.minor
    ensures var f := Replied(p, reply).flags; f.close == q.flags.close && f.keepAlive == q.flags.keepAlive
  {
  }

  // ------------------------------------------------------------------ header blocks

  /** What on_headers_complete is told behind the lines ls, where q are the registers behind the start line: told by
      the text. Its answer is the one that the application gives. */
  ghost predicate Reported(cfg: Settings, q: Parser, ls: seq<Line>, p: Parser, h: Head) {
    var reply := cfg.onHeadersComplete(p);
    && p.typ == q.typ && p.verb == q.verb && p.major == q.major && p.minor == q.minor && p.status == q.status
    && (p.upgrade <==> if SaidUpgrade(ls) && Said(ls, UPGRADE) then q.typ == Request || q.status == 101
                       else q.verb == CONNECT)
    && h.response == (q.typ == Response) && h.status == q.status && (h.chunked <==> SaidChunked(ls))
    && (h.declared == None <==> !SaidSize(ls))
    && (forall i :: 0 <= i < |ls| && SizeName(ls[i].name) ==> h.declared == Some(Decimal(Leading(ls[i].value))))
    && (h.skip <==> reply != Proceed)
    && (h.tunnel <==> (p.upgrade || reply == SkipBodyAndUpgrade) && (q.verb == CONNECT || h.skip || !HasBytes(h)))
  }

  /** Which header blocks are accepted. */
  ghost predicate BlockFits(ls: seq<Line>) { SizesOk(NO_FLAGS, ls) && !(SaidChunked(ls) && SaidSize(ls)) }

  /** Behind the header block: the message is complete, or its body comes next. */
  ghost predicate Behind(q: Parser, t: seq<Event>, ls: seq<Line>, h: Head, r: Conf) {
    && r.q.errno == OK && r.q.nread == 0 && r.q.typ == q.typ && r.q.major == q.major && r.q.minor == q.minor
    && (if EndsAtOnce(h)
        then && r.trace == t + [HeadersComplete(h), MessageComplete(GoesOn(q.major, q.minor, ls, h))]
             && Ended(r.q, r.q, GoesOn(q.major, q.minor, ls, h))
        else && r.trace == t + [HeadersComplete(h)] && r.q.state == BodyState(h) && Heard(r.q, ls) && Framed(r.q, h)
             && (h.declared.Some? ==> r.q.contentLength == h.declared.value)
             && (r.q.flags.contentLength <==> SaidSize(ls)))
  }

  lemma SizeBelow(ls: seq<Line>, i: nat, f: Flags)
    requires i < |ls| && SizesOk(f, ls) && SizeName(ls[i].name)
    ensures Decimal(Leading(ls[i].value)) < NO_LENGTH
  {
    hide SizeName, Decimal, FitsDecimal, Leading;
    assert SizeFits(ls[i].value, ls[i].folds);
    FitsDecimalPrefix(Leading(ls[i].value));
  }

  lemma ReportedBy(cfg: Settings, q: Parser, ls: seq<Line>, e: Parser, p: Parser, h: Head)
    requires SameHead(q, e) && AllAdd(NO_FLAGS, ls, e.flags) && LengthIs(NO_LENGTH, ls, e.contentLength)
    requires SizesOk(NO_FLAGS, ls) && Asked(cfg, e, p, h)
    ensures Reported(cfg, q, ls, p, h)
  {
    hide Said, SaidChunked, SaidUpgrade, SizeName, HasBytes, Decimal, Leading, SizeFits;
    forall i | 0 <= i < |ls| && SizeName(ls[i].name) ensures h.declared == Some(Decimal(Leading(ls[i].value))) {
      SizeBelow(ls, i, NO_FLAGS);
    }
  }

  lemma FlagsOf(ls: seq<Line>, f: Flags)
    requires AllAdd(NO_FLAGS, ls, f)
    ensures (f.close <==> Said(ls, CLOSE)) && (f.keepAlive <==> Said(ls, KEEP_ALIVE)) && !f.trailing && !f.skipBody
    ensures (f.chunked <==> SaidChunked(ls)) && (f.contentLength <==> SaidSize(ls))
  {
    hide Said, SaidChunked, SaidUpgrade, SizeName;
  }

  lemma TwoNotices(t: seq<Event>, a: Event, b: Event)
    requires !a.Data? && !b.Data?
    ensures FeedAll(t, [a]) == t + [a] && FeedAll(t, [a, b]) == t + [a, b]
  {
    hide Feed;
    FeedOne(t, a);
    NoticeAppends(t, a);
    assert [a, b] == [a] + [b];
    FeedAllSnoc(t, [a], b);
    NoticeAppends(t + [a], b);
  }

  lemma BehindIs(q: Parser, e: Parser, t: seq<Event>, ls: seq<Line>, p: Parser, h: Head, reply: Reply, out: Outcome)
    requires SameHead(q, e) && e.errno == OK && Closed(e, p, h, reply, ls, out)
    requires e.flags.contentLength <==> SaidSize(ls)
    requires h.declared.Some? ==> e.contentLength == h.declared.value
    ensures Behind(q, t, ls, h, Conf(out.q, FeedAll(t, out.fx.notices)))
    ensures out.fx == Effects(Keep, out.fx.notices, None) && (out.leave <==> h.tunnel)
    ensures !EndsAtOnce(h) ==> (out.q.upgrade <==> p.upgrade || reply == SkipBodyAndUpgrade)
  {
    hide EndsAtOnce, GoesOn, Heard, Framed, BodyState, FeedAll, SaidSize;
    StateNot(Headed(e, p, reply), BodyState(h), BodyState(h), ls, h);
    TwoNotices(t, HeadersComplete(h), MessageComplete(GoesOn(q.major, q.minor, ls, h)));
  }

  lemma ClosingParts(c: Conf, cr: bool)
    requires HeaderMayStart(c.q)
    ensures var e, q := Closing(c, cr), LineConf(c).q;
            SameHead(q, e) && e.flags == q.flags && e.contentLength == q.contentLength && e.errno == OK
  {
    hide FinishHeader;
  }

  lemma SameHeads(a: Parser, b: Parser, d: Parser)
    requires SameHead(a, b) && SameHead(b, d)
    ensures SameHead(a, d)
  {
  }

  lemma RefusedBlock(cfg: Settings, c: Conf, cr: bool)
    requires Refused(c.q)
    ensures Run(cfg, c, Eol(cr)).q.errno != OK
  {
    hide Run, Advance;
    var first, rest := Eol(cr)[0], Eol(cr)[1..];
    assert Eol(cr) == [first] + rest;
    RefusedFails(cfg, c, first);
    RunOne(cfg, c, first);
    RunConcat(cfg, c, [first], rest);
    Stuck(cfg, Advance(cfg, c, first), rest);
  }

  lemma ClashFails(cfg: Settings, c: Conf, cr: bool)
    requires HeaderMayStart(c.q) && HeaderRoom(cfg, c.q, |Eol(cr)|) && !LineConf(c).q.flags.trailing
    requires LineConf(c).q.flags.chunked && LineConf(c).q.flags.contentLength
    ensures Run(cfg, c, Eol(cr)).q.errno != OK
  {
    hide Run, Step, LineConf, OnHeadersDone;
    BlockEnd(cfg, c, cr);
    ClosingParts(c, cr);
  }

  /** Behind the start line: header lines, an empty line, and what on_headers_complete is told, whether the message
      is complete then, and whether another may follow. */
  lemma HeadRun(cfg: Settings, c: Conf, ls: seq<Line>, cr: bool) returns (p: Parser, h: Head)
    requires c.q.state == Header(HeaderFieldStart) && c.q.typ != Both && Untouched(c.q) && LinesFit(cfg, ls)
    requires HeaderRoom(cfg, c.q, |BlockText(ls)| + |Eol(cr)|)
    ensures var r := Run(cfg, c, BlockText(ls) + Eol(cr));
            && (r.q.errno == OK <==> BlockFits(ls))
            && (r.q.errno == OK ==>
                  && Reported(cfg, c.q, ls, p, h) && Behind(c.q, FeedAll(c.trace, BlockEvents(ls)), ls, h, r)
                  && (Departs(cfg, c, BlockText(ls) + Eol(cr)) <==> h.tunnel)
                  && (!EndsAtOnce(h) ==> (r.q.upgrade <==> Switches(cfg, p))))
  {
    hide Run, Step, LineFits, FeedAll, OnHeadersAlmostDone, LineConf, SizesOk, Closing, Reported, Behind, Closed, Asked,
         SaidChunked, SaidSize, AllAdd, LengthIs, Refused, Departs, EndsAtOnce;
    p, h := c.q, Head(false, 0, false, None, false, false);
    assert HeaderMayStart(c.q) && LineConf(c) == c by { StartsPlain(c); }
    BlockRun(cfg, c, ls);
    var mid := Run(cfg, c, BlockText(ls));
    RunConcat(cfg, c, BlockText(ls), Eol(cr));
    DepartsBehind(cfg, c, BlockText(ls), Eol(cr));
    if !HeaderMayStart(mid.q) {
      RefusedBlock(cfg, mid, cr);
    } else {
      var q1 := LineConf(mid).q;
      FlagsOf(ls, q1.flags);
      if q1.flags.chunked && q1.flags.contentLength {
        ClashFails(cfg, mid, cr);
      } else {
        ClosingParts(mid, cr);
        var e := Closing(mid, cr);
        p, h := HeadersEnd(cfg, e, ls);
        SameHeads(c.q, q1, e);
        ReportedBy(cfg, c.q, ls, e, p, h);
        AskedLength(cfg, e, p, h);
        BlockEnd(cfg, mid, cr);
        BehindIs(c.q, e, LineConf(mid).trace, ls, p, h, cfg.onHeadersComplete(p), OnHeadersAlmostDone(cfg, e, LF));
        BehindOk(c.q, LineConf(mid).trace, ls, h, Run(cfg, mid, Eol(cr)));
      }
    }
  }

  lemma BehindOk(q: Parser, t: seq<Event>, ls: seq<Line>, h: Head, r: Conf)
    requires Behind(q, t, ls, h, r)
    ensures r.q.errno == OK
  {
  }

  lemma StartsPlain(c: Conf)
    requires c.q.errno == OK && c.q.state == Header(HeaderFieldStart)
    ensures HeaderMayStart(c.q) && LineConf(c) == c
  {
  }

  lemma AskedLength(cfg: Settings, q: Parser, p: Parser, h: Head)
    requires Asked(cfg, q, p, h)
    ensures h.declared.Some? ==> q.contentLength == h.declared.value
  {
  }

  // ------------------------------------------------------------------ bodies

  /** A body of known size: its bytes, and with the last of them the message is complete. */
  lemma SizedEnd(cfg: Settings, c: Conf, ls: seq<Line>, h: Head, d: seq<byte>)
    requires Inv(cfg, c.q) && SizedBegins(c) && |d| == c.q.contentLength
    requires Heard(c.q, ls) && Framed(c.q, h) && !h.chunked
    ensures var r := Run(cfg, c, d); var k := GoesOn(c.q.major, c.q.minor, ls, h);
            && r.trace == c.trace + [Data(Body, d), MessageComplete(k)]
            && r.q.errno == OK && r.q.typ == c.q.typ && r.q.nread == c.q.nread && Ended(r.q, r.q, k)
            && (Departs(cfg, c, d) <==> c.q.upgrade)
  {
    hide Run, Inv, GoesOn, ShouldKeepAlive, CompleteMessage, Said, LeavesAt;
    var q := c.q.(contentLength := 0);
    var done := WholeBody(cfg, c, d);
    assert c.q.contentLength < NO_LENGTH && c.q.errno == OK by { SizedBelow(cfg, c.q); }
    Decided(q, ls, h);
    CompletesWith(q, c.q.upgrade);
  }

  lemma SizedBelow(cfg: Settings, q: Parser)
    requires Inv(cfg, q) && q.state == Content(BodyIdentity)
    ensures q.contentLength < NO_LENGTH && q.errno == OK
  {
  }

  lemma SaidBoth(ls: seq<Line>, tls: seq<Line>, keyword: string)
    ensures Said(ls + tls, keyword) <==> Said(ls, keyword) || Said(tls, keyword)
  {
    hide Says;
    var all := ls + tls;
    assert forall i :: 0 <= i < |ls| ==> all[i] == ls[i];
    assert forall i :: 0 <= i < |tls| ==> all[|ls| + i] == tls[i];
  }

  /** The registers in the trailer. */
  lemma TrailerHeard(q: Parser, ls: seq<Line>, tls: seq<Line>, e: Parser, h: Head)
    requires Heard(q, ls) && Framed(q, h) && q.flags.chunked && q.typ == e.typ && q.status == e.status
    requires AllAdd(q.flags.(trailing := true), tls, e.flags)
    ensures Heard(e, ls + tls) && Framed(e, h) && e.flags.trailing
  {
    hide Said, SaidChunked, SaidUpgrade, SizeName;
    SaidBoth(ls, tls, CLOSE);
    SaidBoth(ls, tls, KEEP_ALIVE);
  }

  lemma TrailerCloses(cfg: Settings, e: Parser, ls: seq<Line>, h: Head)
    requires Heard(e, ls) && Framed(e, h) && e.flags.trailing
    ensures var out := OnHeadersAlmostDone(cfg, e, LF); var k := GoesOn(e.major, e.minor, ls, h);
            && out.fx == Effects(Keep, [ChunkComplete, MessageComplete(k)], None)
            && Ended(e, out.q, k) && (out.leave <==> e.upgrade)
  {
    hide ShouldKeepAlive, GoesOn, CompleteMessage;
    Decided(e, ls, h);
    CompletesWith(e, e.upgrade);
  }

  /** The trailer of a chunked message: more header lines, which take part in the decision. */
  lemma TrailerRun(cfg: Settings, c: Conf, q: Parser, ls: seq<Line>, h: Head, tls: seq<Line>, cr: bool)
    requires c.q.errno == OK && c.q.state == Header(HeaderFieldStart) && SameHead(q, c.q)
    requires c.q.flags == q.flags.(trailing := true) && q.flags.chunked && !q.flags.contentLength
    requires Heard(q, ls) && Framed(q, h) && LinesFit(cfg, tls)
    requires HeaderRoom(cfg, c.q, |BlockText(tls)| + |Eol(cr)|)
    ensures var r := Run(cfg, c, BlockText(tls) + Eol(cr)); var k := GoesOn(q.major, q.minor, ls + tls, h);
            && (r.q.errno == OK <==> SizesOk(NO_FLAGS, tls))
            && (r.q.errno == OK ==>
                  && r.trace == FeedAll(c.trace, BlockEvents(tls)) + [ChunkComplete, MessageComplete(k)]
                  && r.q.typ == q.typ && r.q.nread == c.q.nread + |BlockText(tls)| + |Eol(cr)| && Ended(r.q, r.q, k)
                  && (Departs(cfg, c, BlockText(tls) + Eol(cr)) <==> q.upgrade))
  {
    hide Run, Step, LineFits, FeedAll, OnHeadersAlmostDone, LineConf, Closing, AllAdd, LengthIs, Refused, GoesOn,
         Heard, Framed, SizesOk, Departs;
    assert HeaderMayStart(c.q) && LineConf(c) == c by { StartsPlain(c); }
    BlockRun(cfg, c, tls);
    SizesAlike(c.q.flags, tls);
    var mid := Run(cfg, c, BlockText(tls));
    RunConcat(cfg, c, BlockText(tls), Eol(cr));
    DepartsBehind(cfg, c, BlockText(tls), Eol(cr));
    if !HeaderMayStart(mid.q) {
      RefusedBlock(cfg, mid, cr);
    } else {
      var q1 := LineConf(mid).q;
      var e := Closing(mid, cr);
      ClosingParts(mid, cr);
      SameHeads(c.q, q1, e);
      SameHeads(q, c.q, e);
      TrailerHeard(q, ls, tls, e, h);
      TrailerCloses(cfg, e, ls + tls, h);
      BlockEnd(cfg, mid, cr);
      TwoNotices(LineConf(mid).trace, ChunkComplete, MessageComplete(GoesOn(q.major, q.minor, ls + tls, h)));
      ClosingCount(mid, cr);
    }
  }

  lemma SizesAlike(f: Flags, ls: seq<Line>)
    requires !f.contentLength
    ensures SizesOk(f, ls) <==> SizesOk(NO_FLAGS, ls)
  {
    hide SizeName, SizeFits;
  }

  lemma ClosingCount(c: Conf, cr: bool)
    ensures Closing(c, cr).nread == c.q.nread + |Eol(cr)|
  {
    hide FinishHeader;
  }

  /** What is sent of a chunked body. */
  function ChunkedText(chunks: seq<ChunkText>, last: seq<byte>, tls: seq<Line>, cr: bool): seq<byte> {
    Wire(chunks) + ((last + CRLF) + (BlockText(tls) + Eol(cr)))
  }

  /** A chunked body: chunks, the last line and a trailer. */
  lemma ChunkedEnd(cfg: Settings, c: Conf, ls: seq<Line>, h: Head, chunks: seq<ChunkText>, last: seq<byte>,
                   tls: seq<Line>, cr: bool)
    requires AtChunk(cfg, c.q) && Heard(c.q, ls) && Framed(c.q, h) && c.q.flags.chunked && !c.q.flags.contentLength
    requires GoodChunks(cfg, chunks) && LastLine(cfg, last) && LinesFit(cfg, tls)
    requires |BlockText(tls)| + |Eol(cr)| <= cfg.maxHeaderSize
    ensures var r := Run(cfg, c, ChunkedText(chunks, last, tls, cr));
            var k := GoesOn(c.q.major, c.q.minor, ls + tls, h);
            && (r.q.errno == OK <==> SizesOk(NO_FLAGS, tls))
            && (r.q.errno == OK ==>
                  && r.trace == FeedAll(c.trace + (Told(chunks) + [ChunkHeader(0)]), BlockEvents(tls))
                                + [ChunkComplete, MessageComplete(k)]
                  && r.q.typ == c.q.typ && r.q.nread == |BlockText(tls)| + |Eol(cr)| && Ended(r.q, r.q, k)
                  && (Departs(cfg, c, ChunkedText(chunks, last, tls, cr)) <==> c.q.upgrade))
  {
    hide Run, GoodChunks, LineFits, FeedAll, GoesOn, Heard, Framed, SizesOk, LineSize, GoodLine, Feed, Inv, Ended,
         Departs;
    ChunksRun(cfg, c, chunks);
    var c1 := Run(cfg, c, Wire(chunks));
    ChunkAnnounced(cfg, c1, last);
    var c2 := Run(cfg, c1, last + CRLF);
    FeedsHeader(c1.trace, 0);
    assert c2.trace == c.trace + (Told(chunks) + [ChunkHeader(0)]);
    TrailerStarts(cfg, c.q, c1.q);
    TrailerRun(cfg, c2, c.q, ls, h, tls, cr);
    RunConcat(cfg, c1, last + CRLF, BlockText(tls) + Eol(cr));
    RunConcat(cfg, c, Wire(chunks), (last + CRLF) + (BlockText(tls) + Eol(cr)));
    DepartsBehind(cfg, c1, last + CRLF, BlockText(tls) + Eol(cr));
    DepartsBehind(cfg, c, Wire(chunks), (last + CRLF) + (BlockText(tls) + Eol(cr)));
  }

  lemma TrailerStarts(cfg: Settings, q: Parser, q1: Parser)
    requires AtChunk(cfg, q) && q1 == q.(contentLength := q1.contentLength)
    ensures var a := Announced(q1, 0);
            && a.state == Header(HeaderFieldStart) && SameHead(q, a) && a.flags == q.flags.(trailing := true)
            && a.errno == OK && a.nread == 0 && cfg.maxHeaderSize < UINT32_MODULUS
  {
  }

  // ------------------------------------------------------------------ whole messages

  /** What is sent behind the header block. */
  datatype Body =
    | Nothing
    | Bytes(data: seq<byte>)
    | Pieces(chunks: seq<ChunkText>, last: seq<byte>, trailer: seq<Line>, cr: bool)

  function BodyText(b: Body): seq<byte> {
    match b case Nothing => [] case Bytes(d) => d case Pieces(ks, last, tls, cr) => ChunkedText(ks, last, tls, cr)
  }

  /** What is announced is what is sent. */
  ghost predicate BodyFits(cfg: Settings, h: Head, b: Body) {
    match b
    case Nothing => EndsAtOnce(h)
    case Bytes(d) => !EndsAtOnce(h) && !h.chunked && h.declared == Some(|d|)
    case Pieces(ks, last, tls, cr) =>
      && !EndsAtOnce(h) && h.chunked && GoodChunks(cfg, ks) && LastLine(cfg, last)
      && LinesFit(cfg, tls) && SizesOk(NO_FLAGS, tls) && |BlockText(tls)| + |Eol(cr)| <= cfg.maxHeaderSize
  }

  function BodyEvents(b: Body): seq<Event> {
    match b
    case Nothing => []
    case Bytes(d) => [Data(Kind.Body, d)]
    case Pieces(ks, last, tls, cr) => ((Told(ks) + [ChunkHeader(0)]) + BlockEvents(tls)) + [ChunkComplete]
  }

  /** The header lines of the message, those behind its body included. */
  function AllLines(ls: seq<Line>, b: Body): seq<Line> { if b.Pieces? then ls + b.trailer else ls }

  /** Not inside a header line. */
  predicate Apart(t: seq<Event>) {
    t == [] || !t[|t| - 1].Data? || (t[|t| - 1].kind != Field && t[|t| - 1].kind != Value)
  }

  /** An item of another kind than the last one is not glued to it. */
  lemma ItemApart(t: seq<Event>, e: Event)
    requires e.Data? && (t == [] || !t[|t| - 1].Data? || t[|t| - 1].kind != e.kind)
    ensures Feed(t, e) == t + [e]
  {
  }

  lemma AppendTwo(t: seq<Event>, a: Event, b: Event)
    ensures [a] + [b] == [a, b] && (t + [a]) + [b] == t + [a, b]
  {
  }

  lemma LineAppends(t: seq<Event>, l: Line)
    requires t == [] || !t[|t| - 1].Data? || t[|t| - 1].kind != Field
    ensures FeedAll(t, LineEvents(l)) == t + LineEvents(l)
  {
    var a, b := Data(Field, l.name), Data(Value, l.value + FoldsValue(l.folds));
    hide Feed, FeedAll, FoldsValue;
    ItemApart(t, a);
    ItemApart(t + [a], b);
    AppendTwo(t, a, b);
    FeedOne(t, a);
    FeedAllSnoc(t, [a], b);
  }

  /** Header lines are never glued to what stands before them. */
  lemma {:induction false} BlockAppends(t: seq<Event>, ls: seq<Line>)
    requires Apart(t)
    ensures FeedAll(t, BlockEvents(ls)) == t + BlockEvents(ls)
    ensures ls != [] ==> BlockEvents(ls) != [] && BlockEvents(ls)[|BlockEvents(ls)| - 1].Data?
                         && BlockEvents(ls)[|BlockEvents(ls)| - 1].kind == Value
    decreases |ls|
  {
    hide FeedAll;
    if ls == [] {
      FeedAllNone(t);
      assert t + [] == t;
    } else {
      var init, l := ls[..|ls| - 1], ls[|ls| - 1];
      BlockAppends(t, init);
      FeedAllConcat(t, BlockEvents(init), LineEvents(l));
      LineAppends(t + BlockEvents(init), l);
      assert t + BlockEvents(ls) == (t + BlockEvents(init)) + LineEvents(l);
    }
  }

  /** A message has come to its end: what was delivered of it, and whether another may follow. */
  ghost predicate Finished(q: Parser, t: seq<Event>, ls: seq<Line>, h: Head, b: Body, r: Conf) {
    var k := GoesOn(q.major, q.minor, AllLines(ls, b), h);
    && r.q.errno == OK && r.q.typ == q.typ && Ended(r.q, r.q, k)
    && r.q.nread == (if b.Pieces? then |BlockText(b.trailer)| + |Eol(b.cr)| else 0)
    && r.trace == (((t + BlockEvents(ls)) + [HeadersComplete(h)]) + BodyEvents(b)) + [MessageComplete(k)]
  }

  lemma BytesRun(cfg: Settings, q: Parser, t: seq<Event>, ls: seq<Line>, h: Head, c: Conf, d: seq<byte>)
    requires Behind(q, t + BlockEvents(ls), ls, h, c) && Inv(cfg, c.q) && BodyFits(cfg, h, Bytes(d))
    ensures Finished(q, t, ls, h, Bytes(d), Run(cfg, c, d)) && (Departs(cfg, c, d) <==> c.q.upgrade)
  {
    hide Run, Inv, GoesOn, Heard, Framed, EndsAtOnce, BlockEvents, Departs;
    var u := (t + BlockEvents(ls)) + [HeadersComplete(h)];
    assert c.q.errno == OK && SizedBegins(c);
    SizedEnd(cfg, c, ls, h, d);
    assert u + [Data(Kind.Body, d), MessageComplete(GoesOn(q.major, q.minor, ls, h))]
        == (u + [Data(Kind.Body, d)]) + [MessageComplete(GoesOn(q.major, q.minor, ls, h))];
  }

  lemma PiecesRun(cfg: Settings, q: Parser, t: seq<Event>, ls: seq<Line>, h: Head, c: Conf, b: Body)
    requires Behind(q, t + BlockEvents(ls), ls, h, c) && Inv(cfg, c.q) && cfg.maxHeaderSize + 1 < UINT32_MODULUS
    requires b.Pieces? && BodyFits(cfg, h, b) && !SaidSize(ls)
    ensures Finished(q, t, ls, h, b, Run(cfg, c, BodyText(b))) && (Departs(cfg, c, BodyText(b)) <==> c.q.upgrade)
  {
    hide Run, Inv, GoesOn, Heard, EndsAtOnce, GoodChunks, LinesFit, SizesOk, FeedAll, ChunkedText, LastLine, SaidSize,
         Departs;
    var u := (t + BlockEvents(ls)) + [HeadersComplete(h)];
    var told := Told(b.chunks) + [ChunkHeader(0)];
    ChunkedEnd(cfg, c, ls, h, b.chunks, b.last, b.trailer, b.cr);
    BlockAppends(c.trace + told, b.trailer);
    var k := GoesOn(q.major, q.minor, ls + b.trailer, h);
    Regroup(u, told, BlockEvents(b.trailer), ChunkComplete, MessageComplete(k));
  }

  lemma Regroup(u: seq<Event>, v: seq<Event>, w: seq<Event>, a: Event, b: Event)
    ensures ((u + v) + w) + [a, b] == (u + ((v + w) + [a])) + [b]
  {
  }

  lemma BodyRun(cfg: Settings, q: Parser, t: seq<Event>, ls: seq<Line>, h: Head, c: Conf, b: Body)
    requires Behind(q, t + BlockEvents(ls), ls, h, c) && Inv(cfg, c.q) && cfg.maxHeaderSize + 1 < UINT32_MODULUS
    requires BodyFits(cfg, h, b) && (h.chunked ==> !SaidSize(ls))
    ensures Finished(q, t, ls, h, b, Run(cfg, c, BodyText(b)))
    ensures b != Nothing ==> !EndsAtOnce(h) && (Departs(cfg, c, BodyText(b)) <==> c.q.upgrade)
  {
    hide Run, Inv, GoesOn, Heard, EndsAtOnce, GoodChunks, LinesFit, SizesOk, FeedAll, ChunkedText, LastLine, SaidSize,
         BlockEvents, Departs;
    match b
    case Nothing =>
      RunNothing(cfg, c);
      var u := (t + BlockEvents(ls)) + [HeadersComplete(h)];
      assert u + [] == u;
      assert u + [MessageComplete(GoesOn(q.major, q.minor, ls, h))]
          == (t + BlockEvents(ls)) + [HeadersComplete(h), MessageComplete(GoesOn(q.major, q.minor, ls, h))];
    case Bytes(d) => BytesRun(cfg, q, t, ls, h, c, d);
    case Pieces(_, _, _, _) => PiecesRun(cfg, q, t, ls, h, c, b);
  }

  /** Behind any start line: what the header lines and the body add to the callbacks, up to the end of the message. */
  lemma MessageRun(cfg: Settings, c: Conf, ls: seq<Line>, cr: bool, b: Body) returns (p: Parser, h: Head)
    requires Inv(cfg, c.q) && c.q.state == Header(HeaderFieldStart) && Untouched(c.q) && Apart(c.trace)
    requires LinesFit(cfg, ls) && cfg.maxHeaderSize + 1 < UINT32_MODULUS
    requires HeaderRoom(cfg, c.q, |BlockText(ls)| + |Eol(cr)|)
    ensures Run(cfg, c, BlockText(ls) + Eol(cr)).q.errno == OK <==> BlockFits(ls)
    ensures BlockFits(ls) ==> Reported(cfg, c.q, ls, p, h)
    ensures BlockFits(ls) && BodyFits(cfg, h, b)
        ==> && Finished(c.q, c.trace, ls, h, b, Run(cfg, c, (BlockText(ls) + Eol(cr)) + BodyText(b)))
            && (Departs(cfg, c, (BlockText(ls) + Eol(cr)) + BodyText(b)) <==> Switches(cfg, p))
  {
    hide Run, Inv, LinesFit, Reported, Behind, BodyFits, BlockFits, Finished, BodyText, Step, FeedAll, Departs,
         Switches, EndsAtOnce;
    assert c.q.typ != Both by { HeaderKind(cfg, c.q); }
    p, h := HeadRun(cfg, c, ls, cr);
    BlockAppends(c.trace, ls);
    if BlockFits(ls) && BodyFits(cfg, h, b) {
      var c1 := Run(cfg, c, BlockText(ls) + Eol(cr));
      RunSound(cfg, c, BlockText(ls) + Eol(cr));
      NoClash(cfg, c.q, ls, p, h);
      BodyRun(cfg, c.q, c.trace, ls, h, c1, b);
      RunConcat(cfg, c, BlockText(ls) + Eol(cr), BodyText(b));
      if b == Nothing {
        AtOnceSwitches(cfg, c.q, ls, p, h, b);
        assert (BlockText(ls) + Eol(cr)) + BodyText(b) == BlockText(ls) + Eol(cr) by { NoBody(); }
      } else {
        SomeBody(cfg, h, b);
        DepartsBehind(cfg, c, BlockText(ls) + Eol(cr), BodyText(b));
      }
    }
  }

  lemma NoBody()
    ensures BodyText(Nothing) == []
  {
  }

  lemma SomeBody(cfg: Settings, h: Head, b: Body)
    requires BodyFits(cfg, h, b) && b != Nothing
    ensures BodyText(b) != []
  {
    hide GoodChunks, LinesFit, SizesOk, BlockText, Wire, LastLine;
  }

  /** Where nothing follows the header block, the connection is handed over with it. */
  lemma AtOnceSwitches(cfg: Settings, q: Parser, ls: seq<Line>, p: Parser, h: Head, b: Body)
    requires Reported(cfg, q, ls, p, h) && BodyFits(cfg, h, b) && b == Nothing
    ensures h.tunnel <==> Switches(cfg, p)
  {
    hide Said, SaidChunked, SaidUpgrade, SaidSize;
  }

  /** A body that ends with the connection: every byte is delivered, and none ends the message. */
  lemma EndlessBody(cfg: Settings, c: Conf, d: seq<byte>)
    requires Inv(cfg, c.q) && c.q.state == Content(BodyIdentityEof)
    ensures Run(cfg, c, d) == Conf(c.q, if d == [] then c.trace else Feed(c.trace, Data(Kind.Body, d)))
    ensures forall i :: 0 <= i < |d| ==> !LeavesAt(cfg, c, d, i)
  {
    hide Inv, Run, Feed, LeavesAt;
    assert d[..0] == [] && d[..0 + |d|] == d && d[0..|d|] == d;
    RunNothing(cfg, c);
    HttpBodyLoop.BodyGrows(cfg, c, d, 0, |d|, c.q, c.trace);
  }

  /** A message whose body ends with the connection, as far as its bytes go. */
  lemma OpenMessage(cfg: Settings, c: Conf, ls: seq<Line>, cr: bool, d: seq<byte>) returns (p: Parser, h: Head)
    requires Inv(cfg, c.q) && c.q.state == Header(HeaderFieldStart) && Untouched(c.q) && Apart(c.trace)
    requires LinesFit(cfg, ls) && HeaderRoom(cfg, c.q, |BlockText(ls)| + |Eol(cr)|)
    ensures Run(cfg, c, BlockText(ls) + Eol(cr)).q.errno == OK <==> BlockFits(ls)
    ensures BlockFits(ls) ==> Reported(cfg, c.q, ls, p, h)
    ensures BlockFits(ls) && EndsWithConnection(h) && !h.tunnel ==>
              var r := Run(cfg, c, (BlockText(ls) + Eol(cr)) + d);
              && r.q.errno == OK && r.q.state == Content(BodyIdentityEof)
              && r.trace == ((c.trace + BlockEvents(ls)) + [HeadersComplete(h)])
                            + if d == [] then [] else [Data(Kind.Body, d)]
  {
    hide Run, Inv, LinesFit, Reported, Behind, BlockFits, Step, FeedAll, Departs, Switches, Feed, BlockText,
         BlockEvents;
    assert c.q.typ != Both by { HeaderKind(cfg, c.q); }
    p, h := HeadRun(cfg, c, ls, cr);
    BlockAppends(c.trace, ls);
    if BlockFits(ls) && EndsWithConnection(h) && !h.tunnel {
      var c1 := Run(cfg, c, BlockText(ls) + Eol(cr));
      RunSound(cfg, c, BlockText(ls) + Eol(cr));
      StaysOpen(c.q, c.trace + BlockEvents(ls), ls, h, c1);
      EndlessBody(cfg, c1, d);
      ItemApart(c1.trace, Data(Kind.Body, d));
      RunConcat(cfg, c, BlockText(ls) + Eol(cr), d);
    }
  }

  lemma StaysOpen(q: Parser, t: seq<Event>, ls: seq<Line>, h: Head, r: Conf)
    requires Behind(q, t, ls, h, r) && EndsWithConnection(h) && !h.tunnel
    ensures r.q.errno == OK && r.q.state == Content(BodyIdentityEof) && r.trace == t + [HeadersComplete(h)]
  {
    hide Heard, Framed, GoesOn, SaidSize;
  }

  lemma HeaderKind(cfg: Settings, q: Parser)
    requires Inv(cfg, q) && q.state.Header?
    ensures q.typ != Both
  {
  }

  lemma NoClash(cfg: Settings, q: Parser, ls: seq<Line>, p: Parser, h: Head)
    requires BlockFits(ls) && Reported(cfg, q, ls, p, h)
    ensures h.chunked ==> !SaidSize(ls)
  {
    hide SizesOk, SaidChunked, SaidSize, Said, SaidUpgrade;
  }

  lemma RequestedFacts(cfg: Settings, c: Conf, m: Method, j: nat, u: seq<byte>, x: Ending)
    requires c.q.errno == OK && EndingFits(x, m)
    ensures var r := Conf(Requested(c.q, m, j, u, x), c.trace + [MessageBegin, Data(Url, u)]);
            && r.q.errno == OK && r.q.state == Header(HeaderFieldStart) && Untouched(r.q) && Apart(r.trace)
            && r.q.nread == c.q.nread + |RequestText(m, j, u, x)|
  {
    hide RequestText;
  }

  /** A whole request: its line, its header lines and its body. The header block is accepted exactly if its lengths
      are; on_headers_complete is told what the text says; and if the body is the one announced, everything is
      delivered in order and the end of the message says whether another may follow. */
  lemma RequestMessage(cfg: Settings, c: Conf, m: Method, j: nat, u: seq<byte>, x: Ending, ls: seq<Line>, cr: bool,
                       b: Body) returns (p: Parser, h: Head)
    requires RequestMayStart(c.q) && Inv(cfg, c.q) && cfg.maxHeaderSize + 1 < UINT32_MODULUS
    requires TargetFits(u, m) && EndingFits(x, m) && LinesFit(cfg, ls)
    requires HeaderRoom(cfg, c.q, |RequestText(m, j, u, x)| + |BlockText(ls)| + |Eol(cr)|)
    ensures var head := RequestText(m, j, u, x) + (BlockText(ls) + Eol(cr));
            && (Run(cfg, c, head).q.errno == OK <==> BlockFits(ls))
            && (BlockFits(ls) ==> Reported(cfg, Requested(c.q, m, j, u, x), ls, p, h))
            && (BlockFits(ls) && BodyFits(cfg, h, b) ==>
                  && Finished(Requested(c.q, m, j, u, x), c.trace + [MessageBegin, Data(Url, u)], ls, h, b,
                              Run(cfg, c, head + BodyText(b)))
                  && (Departs(cfg, c, head + BodyText(b)) <==> Switches(cfg, p)))
  {
    hide Run, Inv, TargetFits, EndingFits, LinesFit, RequestText, Requested, Reported, BodyFits, BlockFits, Finished,
         BodyText, Apart, Untouched, Departs, Switches;
    var line := RequestText(m, j, u, x);
    RequestRun(cfg, c, m, j, u, x);
    RequestedFacts(cfg, c, m, j, u, x);
    var c1 := Run(cfg, c, line);
    RunSound(cfg, c, line);
    p, h := MessageRun(cfg, c1, ls, cr, b);
    RunConcat(cfg, c, line, BlockText(ls) + Eol(cr));
    RunConcat(cfg, c, line, (BlockText(ls) + Eol(cr)) + BodyText(b));
    DepartsBehind(cfg, c, line, (BlockText(ls) + Eol(cr)) + BodyText(b));
    assert (line + (BlockText(ls) + Eol(cr))) + BodyText(b) == line + ((BlockText(ls) + Eol(cr)) + BodyText(b));
  }

  /** The registers behind a status line. */
  function Responded(q: Parser, d: byte, e: byte, code: seq<byte>, n: nat): Parser
    requires IsNum(d) && IsNum(e) && Digits(code)
  {
    Fresh(q).(typ := Response, state := Header(HeaderFieldStart), major := DigitValue(d), minor := DigitValue(e),
              status := Decimal(code), index := 0, nread := q.nread + n)
  }

  lemma RespondedFacts(cfg: Settings, c: Conf, d: byte, e: byte, code: seq<byte>, r: seq<byte>, n: nat)
    requires c.q.errno == OK && IsNum(d) && IsNum(e) && Digits(code)
    ensures var a := Conf(Responded(c.q, d, e, code, n), c.trace + [MessageBegin, Data(Status, r)]);
            && a.q.errno == OK && a.q.state == Header(HeaderFieldStart) && Untouched(a.q) && Apart(a.trace)
            && a.q.nread == c.q.nread + n
  {
    hide Decimal;
  }

  /** A whole response. */
  lemma ResponseMessage(cfg: Settings, c: Conf, d: byte, e: byte, k: nat, code: seq<byte>, reason: Option<seq<byte>>,
                        nl: bool, ls: seq<Line>, cr: bool, b: Body) returns (p: Parser, h: Head)
    requires ResponseMayStart(c.q) && Inv(cfg, c.q) && cfg.maxHeaderSize + 1 < UINT32_MODULUS
    requires StatusFits(d, e, code, reason) && LinesFit(cfg, ls)
    requires HeaderRoom(cfg, c.q, |StatusText(d, e, k, code, reason, nl)| + |BlockText(ls)| + |Eol(cr)|)
    ensures var head := StatusText(d, e, k, code, reason, nl) + (BlockText(ls) + Eol(cr));
            var q := Responded(c.q, d, e, code, |StatusText(d, e, k, code, reason, nl)|);
            && (Run(cfg, c, head).q.errno == OK <==> BlockFits(ls))
            && (BlockFits(ls) ==> Reported(cfg, q, ls, p, h))
            && (BlockFits(ls) && BodyFits(cfg, h, b) ==>
                  && Finished(q, c.trace + [MessageBegin, Data(Status, ReasonText(reason))], ls, h, b,
                              Run(cfg, c, head + BodyText(b)))
                  && (Departs(cfg, c, head + BodyText(b)) <==> Switches(cfg, p)))
  {
    hide Run, LinesFit, StatusText, Reported, BodyFits, BlockFits, Finished, BodyText, Apart, Untouched, Decimal,
         StateOk, Departs, Switches;
    var line := StatusText(d, e, k, code, reason, nl);
    StatusRun(cfg, c, d, e, k, code, reason, nl);
    RespondedFacts(cfg, c, d, e, code, ReasonText(reason), |line|);
    var c1 := Run(cfg, c, line);
    RunSound(cfg, c, line);
    p, h := MessageRun(cfg, c1, ls, cr, b);
    RunConcat(cfg, c, line, BlockText(ls) + Eol(cr));
    RunConcat(cfg, c, line, (BlockText(ls) + Eol(cr)) + BodyText(b));
    DepartsBehind(cfg, c, line, (BlockText(ls) + Eol(cr)) + BodyText(b));
    assert (line + (BlockText(ls) + Eol(cr))) + BodyText(b) == line + ((BlockText(ls) + Eol(cr)) + BodyText(b));
  }

  // ------------------------------------------------------------------ between messages

  /** Behind a message: another one may begin, or nothing more is taken but line ends. */
  lemma AfterMessage(cfg: Settings, c: Conf, k: bool, ch: byte)
    requires c.q.typ != Both && Ended(c.q, c.q, k) && HeaderRoom(cfg, c.q, 1)
    ensures k ==> if c.q.typ.Request? then RequestMayStart(c.q) else ResponseMayStart(c.q)
    ensures !k ==> var r := Advance(cfg, c, ch);
                   r.trace == c.trace && r.q.errno == if ch == CR || ch == LF then OK else CLOSED_CONNECTION
  {
    hide FeedAll, FirstMethod;
    FeedAllNone(c.trace);
    if !k {
      assert ByteEvents(c.q.state, Step(cfg, c.q, ch), ch) == [];
    }
  }

  /** Line ends between messages are skipped. */
  lemma {:induction false} LineEndsBetween(cfg: Settings, c: Conf, w: seq<byte>)
    requires c.q.state.Start? && HeaderRoom(cfg, c.q, |w|) && forall i :: 0 <= i < |w| ==> w[i] == CR || w[i] == LF
    ensures Run(cfg, c, w) == Conf(c.q.(nread := c.q.nread + |w|), c.trace)
    decreases |w|
  {
    hide Advance;
    if w == [] {
      RunNothing(cfg, c);
    } else {
      LineEndsBetween(cfg, c, w[..|w| - 1]);
      SkipsLineEnd(cfg, Run(cfg, c, w[..|w| - 1]), w[|w| - 1]);
    }
  }

  lemma SkipsLineEnd(cfg: Settings, c: Conf, ch: byte)
    requires c.q.state.Start? && HeaderRoom(cfg, c.q, 1) && (ch == CR || ch == LF)
    ensures Advance(cfg, c, ch) == Conf(c.q.(nread := c.q.nread + 1), c.trace)
  {
    hide Advance, FirstMethod;
    QuietByte(cfg, c, ch);
  }
}
