/** Every message whose headers are reported begins with a start line, header lines and an empty line, and what is
    reported is what they say: the converse of reading them. */
module HttpMessageOrigins {
  import opened Common
  import opened HttpTypes
  import opened HttpUrlChar
  import opened HttpStep
  import opened HttpRun
  import opened HttpInvariant
  import opened HttpHeads
  import opened HttpLength
  import opened HttpOrigins
  import opened HttpVersions
  import opened HttpRequestLines
  import opened HttpStatusLines
  import opened HttpLines
  import opened HttpBlocks
  import opened HttpBlockOrigins
  import opened HttpMessages

  // ------------------------------------------------------------------ inside a start line

  predicate InStartLine(s: State) { s.StatusLine? || s.RequestStart? || s.Target? || s.Version? }

  predicate OneKind(q: Parser) { q.state == Start(StartReq) || q.state == Start(StartRes) }

  /** A byte of a start line that is no line feed stays in it. */
  predicate Stays(q: Parser, out: Outcome) {
    out.q.errno == OK ==> InStartLine(out.q.state) && out.q.nread == q.nread
  }

  lemma BeginStays(q: Parser, ch: byte)
    requires OneKind(q) && ch != CR && ch != LF
    ensures Stays(q, OnStart(q, ch))
  {
    hide FirstMethod;
  }

  lemma StatusStays(q: Parser, ch: byte)
    requires q.state.StatusLine? && ch != LF
    ensures Stays(q, OnStatusLine(q, ch))
  {
  }

  lemma MethodStays(q: Parser, ch: byte)
    ensures Stays(q, OnReqMethod(q, ch)) && Stays(q, OnSpacesBeforeUrl(q, ch))
  {
    hide MethodString, NextMethod, ParseUrlChar;
    UrlCharStates(if q.verb == CONNECT then Target(ReqServerStart) else RequestStart(ReqSpacesBeforeUrl), ch);
  }

  lemma UrlStays(q: Parser, ch: byte)
    requires q.state.Target? && ch != LF
    ensures Stays(q, OnUrl(q, ch))
  {
    hide ParseUrlChar;
    UrlCharStates(q.state, ch);
  }

  lemma VersionStays(q: Parser, ch: byte)
    requires q.state.Version? && ch != LF
    ensures Stays(q, OnReqVersion(q, ch))
  {
  }

  lemma SwitchStays(cfg: Settings, q: Parser, ch: byte)
    requires (InStartLine(q.state) && ch != LF) || (OneKind(q) && ch != CR && ch != LF)
    ensures Stays(q, Switch(cfg, q, ch))
  {
    hide Stays, OnStart, OnStatusLine, OnReqMethod, OnSpacesBeforeUrl, OnUrl, OnReqVersion;
    match q.state
    case Start(_) => BeginStays(q, ch);
    case StatusLine(_) => StatusStays(q, ch);
    case RequestStart(_) => MethodStays(q, ch);
    case Target(_) => UrlStays(q, ch);
    case Version(_) => VersionStays(q, ch);
    case _ =>
  }

  lemma ByteStays(cfg: Settings, c: Conf, ch: byte)
    requires (InStartLine(c.q.state) && ch != LF) || (OneKind(c.q) && ch != CR && ch != LF)
    requires Inv(cfg, c.q) && cfg.maxHeaderSize + 1 < UINT32_MODULUS && Advance(cfg, c, ch).q.errno == OK
    ensures var r := Advance(cfg, c, ch);
            && InStartLine(r.q.state) && r.q.nread == c.q.nread + 1 <= cfg.maxHeaderSize && Inv(cfg, r.q)
            && FirstHead(Step(cfg, c.q, ch).fx.notices, 0) == None
  {
    hide FeedAll, ByteEvents, Switch, FirstHead, StateOk, HttpOrigins.Back;
    AdvanceRegisters(cfg, c, ch);
    SwitchStays(cfg, Count(c.q, 1), ch);
    StepSound(cfg, c.q, ch);
    StepBack(cfg, c.q, ch);
  }

  /** No head is reported from index n of the callbacks on. */
  predicate Unreported(n: nat, r: Conf) { n <= |r.trace| && FirstHead(r.trace, n) == None }

  lemma StillUnreported(cfg: Settings, n: nat, r: Conf, ch: byte)
    requires Unreported(n, r) && r.q.errno == OK && FirstHead(Step(cfg, r.q, ch).fx.notices, 0) == None
    ensures Unreported(n, Advance(cfg, r, ch))
  {
    hide Step, FirstHead, ByteEvents;
    var out := Step(cfg, r.q, ch);
    HeadFeedAll(r.trace, n, ByteEvents(r.q.state, out, ch));
    HeadOfByte(r.q.state, out, ch);
  }

  lemma UnreportedYet(c: Conf)
    ensures Unreported(|c.trace|, c)
  {
    hide FirstHead;
    NoHead(c.trace, |c.trace|);
  }

  /** A start line up to its line feed: its bytes are counted, and nothing is reported. */
  lemma {:induction false} LineStays(cfg: Settings, c: Conf, n: nat, w: seq<byte>)
    requires Unreported(n, c)
    requires Inv(cfg, c.q) && OneKind(c.q) && cfg.maxHeaderSize + 1 < UINT32_MODULUS
    requires w != [] && w[0] != CR && LF !in w && Run(cfg, c, w).q.errno == OK
    ensures var r := Run(cfg, c, w);
            && InStartLine(r.q.state) && r.q.nread == c.q.nread + |w| <= cfg.maxHeaderSize && Inv(cfg, r.q)
            && Unreported(n, r)
    decreases |w|
  {
    hide Run, Advance, Step, Inv, FirstHead, Unreported;
    var k := |w| - 1;
    assert w == w[..k] + [w[k]];
    OkBefore(cfg, c, w[..k], [w[k]]);
    RunOne(cfg, Run(cfg, c, w[..k]), w[k]);
    if k == 0 {
      assert w[..0] == [];
      RunNothing(cfg, c);
    } else {
      LineStays(cfg, c, n, w[..k]);
    }
    ByteStays(cfg, Run(cfg, c, w[..k]), w[k]);
    StillUnreported(cfg, n, Run(cfg, c, w[..k]), w[k]);
  }

  // ------------------------------------------------------------------ in front of the start line

  lemma SkipCounts(cfg: Settings, c: Conf, ch: byte)
    requires Inv(cfg, c.q) && OneKind(c.q) && (ch == CR || ch == LF) && cfg.maxHeaderSize + 1 < UINT32_MODULUS
    requires Advance(cfg, c, ch).q.errno == OK
    ensures HeaderRoom(cfg, c.q, 1) && Advance(cfg, c, ch) == Conf(c.q.(nread := c.q.nread + 1), c.trace)
    ensures Inv(cfg, Advance(cfg, c, ch).q)
  {
    hide Advance;
    AdvanceRegisters(cfg, c, ch);
    SkipsIn(cfg, c, ch);
    SkipsLineEnd(cfg, c, ch);
  }

  lemma SkipsIn(cfg: Settings, c: Conf, ch: byte)
    requires Inv(cfg, c.q) && OneKind(c.q) && cfg.maxHeaderSize + 1 < UINT32_MODULUS
    requires Step(cfg, c.q, ch).q.errno == OK
    ensures HeaderRoom(cfg, c.q, 1)
  {
    hide Switch;
  }

  predicate LineEnd(ch: byte) { ch == CR || ch == LF }

  lemma {:induction false} SkipOrigin(cfg: Settings, c: Conf, s: seq<byte>)
    requires Inv(cfg, c.q) && OneKind(c.q) && cfg.maxHeaderSize + 1 < UINT32_MODULUS
    requires (forall i :: 0 <= i < |s| ==> LineEnd(s[i])) && Run(cfg, c, s).q.errno == OK
    ensures Run(cfg, c, s) == Conf(c.q.(nread := c.q.nread + |s|), c.trace) && Inv(cfg, Run(cfg, c, s).q)
    decreases |s|
  {
    hide Run, Advance, StateOk;
    if s == [] {
      RunNothing(cfg, c);
    } else {
      var n := |s| - 1;
      assert s == s[..n] + [s[n]];
      OkBefore(cfg, c, s[..n], [s[n]]);
      SkipOrigin(cfg, c, s[..n]);
      RunOne(cfg, Run(cfg, c, s[..n]), s[n]);
      SkipCounts(cfg, Run(cfg, c, s[..n]), s[n]);
    }
  }

  // ------------------------------------------------------------------ inside a header block

  lemma {:induction false} BlockStays(cfg: Settings, c: Conf, n: nat, w: seq<byte>)
    requires Unreported(n, c)
    requires Inv(cfg, c.q) && c.q.state.Header? && cfg.maxHeaderSize + 1 < UINT32_MODULUS
    requires Run(cfg, c, w).q.errno == OK && forall i :: 0 <= i <= |w| ==> Run(cfg, c, w[..i]).q.state.Header?
    ensures Unreported(n, Run(cfg, c, w)) && Inv(cfg, Run(cfg, c, w).q)
    decreases |w|
  {
    hide Run, Advance, Step, Inv, FirstHead, Unreported;
    if w == [] {
      RunNothing(cfg, c);
    } else {
      var k := |w| - 1;
      assert w == w[..k] + [w[k]] && w[..k + 1] == w;
      OkBefore(cfg, c, w[..k], [w[k]]);
      assert forall i :: 0 <= i <= k ==> w[..k][..i] == w[..i];
      BlockStays(cfg, c, n, w[..k]);
      var before := Run(cfg, c, w[..k]);
      RunOne(cfg, before, w[k]);
      AdvanceRegisters(cfg, before, w[k]);
      InvOk(cfg, before.q);
      StepSound(cfg, before.q, w[k]);
      StepBack(cfg, before.q, w[k]);
      BackSilent(before.q, w[k], Step(cfg, before.q, w[k]));
      StillUnreported(cfg, n, before, w[k]);
    }
  }

  lemma BackSilent(q: Parser, ch: byte, out: Outcome)
    requires Back(q, ch, out) && out.q.errno == OK && out.q.state.Header?
    ensures FirstHead(out.fx.notices, 0) == None
  {
    hide FirstHead;
  }

  /** Once a head has been reported the input has left the header block. */
  lemma LeftBlock(cfg: Settings, c: Conf, n: nat, z: seq<byte>) returns (k: nat)
    requires Inv(cfg, c.q) && c.q.state.Header? && cfg.maxHeaderSize + 1 < UINT32_MODULUS
    requires Unreported(n, c) && Run(cfg, c, z).q.errno == OK && !Unreported(n, Run(cfg, c, z))
    ensures k <= |z| && !Run(cfg, c, z[..k]).q.state.Header?
  {
    hide Run, Inv, Unreported;
    k := 0;
    while k < |z| && Run(cfg, c, z[..k]).q.state.Header?
      invariant k <= |z| && forall j :: 0 <= j < k ==> Run(cfg, c, z[..j]).q.state.Header?
    {
      k := k + 1;
    }
    if Run(cfg, c, z[..k]).q.state.Header? {
      assert z[..k] == z;
      BlockStays(cfg, c, n, z);
    }
  }

  lemma {:induction false} LinesSilent(ls: seq<Line>)
    ensures forall i :: 0 <= i < |BlockEvents(ls)| ==> !BlockEvents(ls)[i].HeadersComplete?
    decreases |ls|
  {
    if ls != [] {
      LinesSilent(ls[..|ls| - 1]);
    }
  }

  lemma HeadFirst(t: seq<Event>, n: nat, ls: seq<Line>, more: seq<Event>, h: Head)
    requires n <= |t| && FirstHead(t, n) == None && more != [] && more[0] == HeadersComplete(h)
    ensures var u := FeedAll(FeedAll(t, BlockEvents(ls)), more); n <= |u| && FirstHead(u, n) == Some(h)
  {
    hide FirstHead, FeedAll;
    LinesSilent(ls);
    NoHead(BlockEvents(ls), 0);
    HeadFeedAll(t, n, BlockEvents(ls));
    HeadFeedAll(FeedAll(t, BlockEvents(ls)), n, more);
    HeadAt(more, 0, 0);
  }

  lemma BehindReports(cfg: Settings, c: Conf, n: nat, ls: seq<Line>, h: Head, r: Conf)
    requires Unreported(n, c) && Behind(c.q, FeedAll(c.trace, BlockEvents(ls)), ls, h, r)
    ensures n <= |r.trace| && FirstHead(r.trace, n) == Some(h)
  {
    hide FirstHead, FeedAll, GoesOn, Heard, Framed, EndsAtOnce;
    var t, k := FeedAll(c.trace, BlockEvents(ls)), GoesOn(c.q.major, c.q.minor, ls, h);
    TwoNotices(t, HeadersComplete(h), MessageComplete(k));
    HeadFirst(c.trace, n, ls, [HeadersComplete(h)], h);
    HeadFirst(c.trace, n, ls, [HeadersComplete(h), MessageComplete(k)], h);
  }

  /** From the end of a start line on: once a head has been reported, the input begins with header lines that fit and
      an empty line, and that head is what they say. */
  lemma HeadOrigin(cfg: Settings, c: Conf, n: nat, z: seq<byte>)
    returns (ls: seq<Line>, cr: bool, rest: seq<byte>, p: Parser, h: Head)
    requires Inv(cfg, c.q) && c.q.state == Header(HeaderFieldStart) && Untouched(c.q)
    requires cfg.maxHeaderSize + 1 < UINT32_MODULUS
    requires Unreported(n, c) && Run(cfg, c, z).q.errno == OK && !Unreported(n, Run(cfg, c, z))
    ensures z == (BlockText(ls) + Eol(cr)) + rest && LinesFit(cfg, ls) && BlockFits(ls)
    ensures Reported(cfg, c.q, ls, p, h)
    ensures n <= |Run(cfg, c, z).trace| && FirstHead(Run(cfg, c, z).trace, n) == Some(h)
  {
    hide Run, Inv, FirstHead, LinesFit, BlockFits, Reported, Behind, Step, Untouched;
    var k := LeftBlock(cfg, c, n, z);
    ls, cr, rest := BlockOrigin(cfg, c, z, k);
    OkBefore(cfg, c, BlockText(ls) + Eol(cr), rest);
    HeaderKind(cfg, c.q);
    p, h := HeadRun(cfg, c, ls, cr);
    var r := Run(cfg, c, BlockText(ls) + Eol(cr));
    BehindReports(cfg, c, n, ls, h, r);
    HeadStays(cfg, r, rest, n);
  }

  // ------------------------------------------------------------------ the whole head of a message

  /** The input up to the first line feed behind leading line ends; without one nothing is reported. */
  lemma LineCut(cfg: Settings, c: Conf, x: seq<byte>) returns (skipped: seq<byte>, w: seq<byte>, z: seq<byte>)
    requires Inv(cfg, c.q) && OneKind(c.q) && cfg.maxHeaderSize + 1 < UINT32_MODULUS
    requires Run(cfg, c, x).q.errno == OK && !Unreported(|c.trace|, Run(cfg, c, x))
    ensures x == skipped + ((w + [LF]) + z) && (forall i :: 0 <= i < |skipped| ==> LineEnd(skipped[i]))
    ensures w != [] && w[0] != CR && LF !in w
    ensures var d := Conf(c.q.(nread := c.q.nread + |skipped|), c.trace);
            && Run(cfg, c, skipped) == d && Inv(cfg, d.q) && HeaderRoom(cfg, d.q, |w| + 1)
            && Run(cfg, d, w + [LF]).q.errno == OK && Run(cfg, c, x) == Run(cfg, Run(cfg, d, w + [LF]), z)
  {
    hide Run, Inv, Unreported, Front;
    var n := Front(x, LineEnd);
    skipped := x[..n];
    var y := x[n..];
    CutAt([], x, n);
    OkBefore(cfg, c, skipped, y);
    SkipOrigin(cfg, c, skipped);
    var d := Run(cfg, c, skipped);
    UnreportedYet(d);
    assert y == [] ==> x == skipped;
    var m := Front(y, ch => ch != LF);
    w := y[..m];
    CutAt([], y, m);
    if m == |y| {
      assert w == y;
      LineStays(cfg, d, |c.trace|, y);
      assert false;
      z := [];
    } else {
      z := y[m + 1..];
      assert y == (w + [LF]) + z;
      OkBefore(cfg, d, w + [LF], z);
      OkBefore(cfg, d, w, [LF]);
      assert w != [] by { assert y[0] == x[n]; }
      LineStays(cfg, d, |c.trace|, w);
      LineFeedRoom(cfg, d, w);
    }
  }

  lemma LineFeedRoom(cfg: Settings, c: Conf, w: seq<byte>)
    requires Run(cfg, c, w + [LF]).q.errno == OK && Inv(cfg, c.q) && cfg.maxHeaderSize + 1 < UINT32_MODULUS
    requires var r := Run(cfg, c, w).q;
             InStartLine(r.state) && r.errno == OK && r.nread == c.q.nread + |w| <= cfg.maxHeaderSize
    ensures HeaderRoom(cfg, c.q, |w| + 1)
  {
    hide Run, Switch, StateOk;
    RunNext(cfg, c, w, LF);
    AdvanceRegisters(cfg, Run(cfg, c, w), LF);
  }

  lemma LineSilent(c: Conf, item: Event)
    requires item.Data?
    ensures Unreported(|c.trace|, Conf(c.q, c.trace + [MessageBegin, item]))
  {
    hide FirstHead;
    NoHead(c.trace + [MessageBegin, item], |c.trace|);
  }

  lemma SameRegisters(q: Parser, r: Conf, t: seq<Event>)
    requires Unreported(|t|, Conf(q, r.trace))
    ensures Unreported(|t|, r)
  {
  }

  /** For every input from where only a request may begin: once a head has been reported, the input begins, line ends
      aside, with a request line, header lines and an empty line; and that head is what they say. */
  lemma ReportedRequest(cfg: Settings, c: Conf, x: seq<byte>)
    returns (skipped: seq<byte>, m: Method, j: nat, u: seq<byte>, e: Ending, ls: seq<Line>, cr: bool, rest: seq<byte>,
             p: Parser, h: Head)
    requires Inv(cfg, c.q) && c.q.state == Start(StartReq) && c.q.typ == Request
    requires cfg.maxHeaderSize + 1 < UINT32_MODULUS && Run(cfg, c, x).q.errno == OK
    requires !Unreported(|c.trace|, Run(cfg, c, x))
    ensures x == skipped + (RequestText(m, j, u, e) + ((BlockText(ls) + Eol(cr)) + rest))
    ensures (forall i :: 0 <= i < |skipped| ==> LineEnd(skipped[i]))
    ensures TargetFits(u, m) && EndingFits(e, m) && LinesFit(cfg, ls) && BlockFits(ls)
    ensures Reported(cfg, Requested(c.q.(nread := c.q.nread + |skipped|), m, j, u, e), ls, p, h)
    ensures FirstHead(Run(cfg, c, x).trace, |c.trace|) == Some(h)
  {
    hide Run, Inv, Unreported, TargetFits, EndingFits, LinesFit, BlockFits, Reported, RequestText, Requested, FirstHead,
         Untouched, HttpMessages.Apart;
    var w, z;
    skipped, w, z := LineCut(cfg, c, x);
    var d := Conf(c.q.(nread := c.q.nread + |skipped|), c.trace);
    m, j, u, e := HttpRequestLines.RequestOrigin(cfg, d, w);
    RequestRun(cfg, d, m, j, u, e);
    RequestedFacts(cfg, d, m, j, u, e);
    var c1 := Run(cfg, d, w + [LF]);
    RunSound(cfg, d, w + [LF]);
    LineSilent(c, Data(Url, u));
    SameRegisters(c.q, c1, c.trace);
    ls, cr, rest, p, h := HeadOrigin(cfg, c1, |c.trace|, z);
  }

  /** The same for responses. */
  lemma ReportedResponse(cfg: Settings, c: Conf, x: seq<byte>)
    returns (skipped: seq<byte>, t: Pieces, nl: bool, ls: seq<Line>, cr: bool, rest: seq<byte>, p: Parser, h: Head)
    requires Inv(cfg, c.q) && c.q.state == Start(StartRes) && c.q.typ == Response
    requires cfg.maxHeaderSize + 1 < UINT32_MODULUS && Run(cfg, c, x).q.errno == OK
    requires !Unreported(|c.trace|, Run(cfg, c, x))
    ensures x == skipped + (StatusText(t.d, t.e, t.k, t.code, t.reason, nl) + ((BlockText(ls) + Eol(cr)) + rest))
    ensures (forall i :: 0 <= i < |skipped| ==> LineEnd(skipped[i]))
    ensures StatusFits(t.d, t.e, t.code, t.reason) && LinesFit(cfg, ls) && BlockFits(ls)
    ensures Reported(cfg, Responded(c.q, t.d, t.e, t.code,
                                    |skipped| + |StatusText(t.d, t.e, t.k, t.code, t.reason, nl)|), ls, p, h)
    ensures FirstHead(Run(cfg, c, x).trace, |c.trace|) == Some(h)
  {
    hide Run, Inv, Unreported, LinesFit, BlockFits, Reported, StatusText, FirstHead, Untouched, HttpMessages.Apart,
         Decimal;
    var w, z;
    skipped, w, z := LineCut(cfg, c, x);
    var d := Conf(c.q.(nread := c.q.nread + |skipped|), c.trace);
    t, nl := StatusOrigin(cfg, d, w);
    StatusRun(cfg, d, t.d, t.e, t.k, t.code, t.reason, nl);
    RespondedFacts(cfg, d, t.d, t.e, t.code, ReasonText(t.reason), |w| + 1);
    var c1 := Run(cfg, d, w + [LF]);
    RunSound(cfg, d, w + [LF]);
    LineSilent(c, Data(Status, ReasonText(t.reason)));
    SameRegisters(c.q, c1, c.trace);
    ls, cr, rest, p, h := HeadOrigin(cfg, c1, |c.trace|, z);
  }
}
