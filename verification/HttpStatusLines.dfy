/** Status lines: which texts are taken for one, and what they leave in the registers. */
module HttpStatusLines {
  import opened Common
  import opened HttpTypes
  import opened HttpStep
  import opened HttpRun
  import opened HttpLength
  import opened HttpVersions

  /** Behind the code: nothing, or a blank and a reason, which may be empty. */
  function Tail(reason: Option<seq<byte>>): seq<byte> {
    match reason case None => [] case Some(r) => [' '] + r
  }

  function ReasonText(reason: Option<seq<byte>>): seq<byte> {
    match reason case None => [] case Some(r) => r
  }

  predicate OneLine(t: seq<byte>) { CR !in t && LF !in t }

  function Word(d: byte, e: byte): seq<byte> { ['H', 'T', 'T', 'P', '/'] + [d, '.', e, ' '] }

  function StatusText(d: byte, e: byte, k: nat, code: seq<byte>, reason: Option<seq<byte>>, cr: bool): seq<byte> {
    (((Word(d, e) + Spaces(k)) + code) + Tail(reason)) + Eol(cr)
  }

  /** Two digits, a code of at most three digits (leading zeros aside), and a reason without a line end. */
  predicate StatusFits(d: byte, e: byte, code: seq<byte>, reason: Option<seq<byte>>) {
    IsNum(d) && IsNum(e) && code != [] && Digits(code) && Decimal(code) <= 999 && OneLine(ReasonText(reason))
  }

  // ------------------------------------------------------------------ one byte

  /** A response may begin. */
  predicate ResponseMayStart(q: Parser) {
    (q.state == Start(StartRes) && q.typ == Response) || q.state == Start(StartReqOrRes)
  }

  lemma FirstByte(cfg: Settings, c: Conf)
    requires ResponseMayStart(c.q) && HeaderRoom(cfg, c.q, 1)
    ensures Advance(cfg, c, 'H')
         == Conf(Fresh(c.q).(state := StatusLine(if c.q.state == Start(StartRes) then ResH else ResOrRespH),
                             nread := c.q.nread + 1), c.trace + [MessageBegin])
  {
    hide FeedAll, Feed;
    var out := Step(cfg, c.q, 'H');
    assert ByteEvents(c.q.state, out, 'H') == [MessageBegin];
    FeedOne(c.trace, MessageBegin);
    NoticeAppends(c.trace, MessageBegin);
  }

  predicate Silent(p: StatusPoint) { !p.ResStatusStart? && !p.ResStatus? }

  lemma StatusByte(cfg: Settings, c: Conf, ch: byte)
    requires c.q.state.StatusLine? && HeaderRoom(cfg, c.q, 1) && Silent(c.q.state.status)
    requires c.q.state == StatusLine(ResStatusCode) ==> ch != CR && ch != LF
    ensures Advance(cfg, c, ch) == Conf(OnStatusLine(Count(c.q, 1), ch).q, c.trace)
  {
    hide Advance;
    assert Step(cfg, c.q, ch) == OnStatusLine(Count(c.q, 1), ch) && OnStatusLine(Count(c.q, 1), ch).fx == NOTHING;
    QuietByte(cfg, c, ch);
  }

  /** The bytes that only lead on. */
  predicate Leads(p: StatusPoint, ch: byte, next: State) {
    || (p == ResH && ch == 'T' && next == StatusLine(ResHT))
    || (p == ResHT && ch == 'T' && next == StatusLine(ResHTT))
    || (p == ResHTT && ch == 'P' && next == StatusLine(ResHTTP))
    || (p == ResHTTP && ch == '/' && next == StatusLine(ResHttpMajor))
    || (p == ResHttpDot && ch == '.' && next == StatusLine(ResHttpMinor))
    || (p == ResHttpEnd && ch == ' ' && next == StatusLine(ResFirstStatusCode))
    || (p == ResFirstStatusCode && ch == ' ' && next == StatusLine(ResFirstStatusCode))
    || (p == ResStatusCode && ch == ' ' && next == StatusLine(ResStatusStart))
    || (p == ResLineAlmostDone && ch == LF && next == Header(HeaderFieldStart))
  }

  lemma Lead(cfg: Settings, c: Conf, p: StatusPoint, ch: byte, next: State)
    requires c.q.state == StatusLine(p) && HeaderRoom(cfg, c.q, 1) && Leads(p, ch, next)
    ensures Advance(cfg, c, ch) == Conf(c.q.(state := next, nread := c.q.nread + 1), c.trace)
  {
    hide Advance;
    StatusByte(cfg, c, ch);
  }

  lemma LeadsOn()
    ensures Leads(ResH, 'T', StatusLine(ResHT)) && Leads(ResHT, 'T', StatusLine(ResHTT))
    ensures Leads(ResHTT, 'P', StatusLine(ResHTTP)) && Leads(ResHTTP, '/', StatusLine(ResHttpMajor))
    ensures Leads(ResHttpDot, '.', StatusLine(ResHttpMinor)) && Leads(ResHttpEnd, ' ', StatusLine(ResFirstStatusCode))
    ensures Leads(ResFirstStatusCode, ' ', StatusLine(ResFirstStatusCode))
    ensures Leads(ResStatusCode, ' ', StatusLine(ResStatusStart))
    ensures Leads(ResLineAlmostDone, LF, Header(HeaderFieldStart))
  {
  }

  lemma SecondByte(cfg: Settings, c: Conf)
    requires HeaderRoom(cfg, c.q, 1) && (c.q.state == StatusLine(ResH) || c.q.state == StatusLine(ResOrRespH))
    requires c.q.state == StatusLine(ResH) ==> c.q.typ == Response
    ensures Advance(cfg, c, 'T')
         == Conf(c.q.(typ := Response, state := StatusLine(ResHT), nread := c.q.nread + 1), c.trace)
  {
    hide Advance;
    StatusByte(cfg, c, 'T');
  }

  lemma VersionDigit(cfg: Settings, c: Conf, ch: byte)
    requires HeaderRoom(cfg, c.q, 1) && IsNum(ch)
    ensures c.q.state == StatusLine(ResHttpMajor) ==>
              Advance(cfg, c, ch)
              == Conf(c.q.(state := StatusLine(ResHttpDot), major := DigitValue(ch), nread := c.q.nread + 1), c.trace)
    ensures c.q.state == StatusLine(ResHttpMinor) ==>
              Advance(cfg, c, ch)
              == Conf(c.q.(state := StatusLine(ResHttpEnd), minor := DigitValue(ch), nread := c.q.nread + 1), c.trace)
  {
    hide Advance;
    if c.q.state == StatusLine(ResHttpMajor) || c.q.state == StatusLine(ResHttpMinor) {
      StatusByte(cfg, c, ch);
    }
  }

  lemma CodeDigit(cfg: Settings, c: Conf, ch: byte)
    requires HeaderRoom(cfg, c.q, 1) && IsNum(ch)
    ensures c.q.state == StatusLine(ResFirstStatusCode) ==>
              Advance(cfg, c, ch)
              == Conf(c.q.(state := StatusLine(ResStatusCode), status := DigitValue(ch), nread := c.q.nread + 1),
                      c.trace)
    ensures c.q.state == StatusLine(ResStatusCode) && c.q.status * 10 + DigitValue(ch) <= 999 ==>
              Advance(cfg, c, ch)
              == Conf(c.q.(status := c.q.status * 10 + DigitValue(ch), nread := c.q.nread + 1), c.trace)
  {
    hide Advance;
    if c.q.state == StatusLine(ResFirstStatusCode) || c.q.state == StatusLine(ResStatusCode) {
      StatusByte(cfg, c, ch);
    }
  }

  // ------------------------------------------------------------------ every such text is taken

  lemma ProtocolRun(cfg: Settings, c: Conf)
    requires ResponseMayStart(c.q) && HeaderRoom(cfg, c.q, 5)
    ensures Run(cfg, c, ['H', 'T', 'T', 'P', '/'])
         == Conf(Fresh(c.q).(typ := Response, state := StatusLine(ResHttpMajor), nread := c.q.nread + 5),
                 c.trace + [MessageBegin])
  {
    hide Run, Advance, Leads;
    RunNothing(cfg, c);
    LeadsOn();
    var w: seq<byte> := [];
    RunNext(cfg, c, w, 'H'); FirstByte(cfg, c); w := w + ['H'];
    RunNext(cfg, c, w, 'T'); SecondByte(cfg, Run(cfg, c, w)); w := w + ['T'];
    RunNext(cfg, c, w, 'T'); Lead(cfg, Run(cfg, c, w), ResHT, 'T', StatusLine(ResHTT)); w := w + ['T'];
    RunNext(cfg, c, w, 'P'); Lead(cfg, Run(cfg, c, w), ResHTT, 'P', StatusLine(ResHTTP)); w := w + ['P'];
    RunNext(cfg, c, w, '/'); Lead(cfg, Run(cfg, c, w), ResHTTP, '/', StatusLine(ResHttpMajor)); w := w + ['/'];
    assert w == ['H', 'T', 'T', 'P', '/'];
  }

  lemma NumbersRun(cfg: Settings, c: Conf, d: byte, e: byte)
    requires c.q.state == StatusLine(ResHttpMajor) && HeaderRoom(cfg, c.q, 4) && IsNum(d) && IsNum(e)
    ensures Run(cfg, c, [d, '.', e, ' '])
         == Conf(c.q.(state := StatusLine(ResFirstStatusCode), major := DigitValue(d), minor := DigitValue(e),
                      nread := c.q.nread + 4), c.trace)
  {
    hide Run, Advance, Leads;
    RunNothing(cfg, c);
    LeadsOn();
    var w: seq<byte> := [];
    RunNext(cfg, c, w, d); VersionDigit(cfg, Run(cfg, c, w), d); w := w + [d];
    RunNext(cfg, c, w, '.'); Lead(cfg, Run(cfg, c, w), ResHttpDot, '.', StatusLine(ResHttpMinor)); w := w + ['.'];
    RunNext(cfg, c, w, e); VersionDigit(cfg, Run(cfg, c, w), e); w := w + [e];
    RunNext(cfg, c, w, ' '); Lead(cfg, Run(cfg, c, w), ResHttpEnd, ' ', StatusLine(ResFirstStatusCode)); w := w + [' '];
    assert w == [d, '.', e, ' '];
  }

  lemma WordRun(cfg: Settings, c: Conf, d: byte, e: byte)
    requires ResponseMayStart(c.q) && HeaderRoom(cfg, c.q, 9) && IsNum(d) && IsNum(e)
    ensures Run(cfg, c, Word(d, e))
         == Conf(Fresh(c.q).(typ := Response, state := StatusLine(ResFirstStatusCode), major := DigitValue(d),
                             minor := DigitValue(e), nread := c.q.nread + 9), c.trace + [MessageBegin])
  {
    hide Run;
    ProtocolRun(cfg, c);
    NumbersRun(cfg, Run(cfg, c, ['H', 'T', 'T', 'P', '/']), d, e);
    RunConcat(cfg, c, ['H', 'T', 'T', 'P', '/'], [d, '.', e, ' ']);
  }

  lemma {:induction false} GapRun(cfg: Settings, c: Conf, k: nat)
    requires c.q.state == StatusLine(ResFirstStatusCode) && HeaderRoom(cfg, c.q, k)
    ensures Run(cfg, c, Spaces(k)) == Conf(c.q.(nread := c.q.nread + k), c.trace)
    decreases k
  {
    hide Advance, Leads;
    if k == 0 {
      RunNothing(cfg, c);
      assert Spaces(0) == [];
    } else {
      assert Spaces(k)[..k - 1] == Spaces(k - 1);
      GapRun(cfg, c, k - 1);
      LeadsOn();
      Lead(cfg, Run(cfg, c, Spaces(k - 1)), ResFirstStatusCode, ' ', StatusLine(ResFirstStatusCode));
    }
  }

  lemma {:induction false} CodeRun(cfg: Settings, c: Conf, code: seq<byte>)
    requires c.q.state == StatusLine(ResFirstStatusCode) && HeaderRoom(cfg, c.q, |code|)
    requires code != [] && Digits(code) && Decimal(code) <= 999
    ensures Run(cfg, c, code)
         == Conf(c.q.(state := StatusLine(ResStatusCode), status := Decimal(code), nread := c.q.nread + |code|),
                 c.trace)
    decreases |code|
  {
    hide Advance;
    var n := |code| - 1;
    assert code == code[..n] + [code[n]];
    if n == 0 {
      assert code[..0] == [] && Decimal(code[..0]) == 0;
      RunNothing(cfg, c);
      CodeDigit(cfg, c, code[0]);
    } else {
      CodeRun(cfg, c, code[..n]);
      CodeDigit(cfg, Run(cfg, c, code[..n]), code[n]);
    }
  }

  /** The first byte of the reason, and the others. */
  lemma ReasonByte(cfg: Settings, c: Conf, ch: byte)
    requires HeaderRoom(cfg, c.q, 1) && ch != CR && ch != LF
    ensures c.q.state == StatusLine(ResStatusStart) ==>
              Advance(cfg, c, ch)
              == Conf(c.q.(state := StatusLine(ResStatus), index := 0, nread := c.q.nread + 1),
                      Feed(c.trace, Data(Status, [ch])))
    ensures c.q.state == StatusLine(ResStatus) ==>
              Advance(cfg, c, ch) == Conf(c.q.(nread := c.q.nread + 1), Feed(c.trace, Data(Status, [ch])))
  {
    hide Feed, FeedAll;
    if c.q.state == StatusLine(ResStatusStart) || c.q.state == StatusLine(ResStatus) {
      var out := Step(cfg, c.q, ch);
      assert ByteEvents(c.q.state, out, ch) == [Data(Status, [ch])];
      FeedOne(c.trace, Data(Status, [ch]));
    }
  }

  lemma {:induction false} ReasonRun(cfg: Settings, c: Conf, r: seq<byte>)
    requires c.q.state == StatusLine(ResStatusStart) && HeaderRoom(cfg, c.q, |r|) && r != [] && OneLine(r)
    ensures Run(cfg, c, r)
         == Conf(c.q.(state := StatusLine(ResStatus), index := 0, nread := c.q.nread + |r|),
                 Feed(c.trace, Data(Status, r)))
    decreases |r|
  {
    hide Advance, Feed;
    var n := |r| - 1;
    assert r == r[..n] + [r[n]];
    if n == 0 {
      assert r[..0] == [];
      RunNothing(cfg, c);
      ReasonByte(cfg, c, r[0]);
    } else {
      ReasonRun(cfg, c, r[..n]);
      ReasonByte(cfg, Run(cfg, c, r[..n]), r[n]);
      FeedSplit(c.trace, Status, r[..n], [r[n]]);
    }
  }

  /** Where the line may end. */
  predicate MayEnd(s: State) {
    s == StatusLine(ResStatusCode) || s == StatusLine(ResStatusStart) || s == StatusLine(ResStatus)
  }

  lemma EndByte(cfg: Settings, c: Conf, ch: byte)
    requires MayEnd(c.q.state) && HeaderRoom(cfg, c.q, 1) && (ch == CR || ch == LF)
    ensures var r := Advance(cfg, c, ch);
            && r.trace == Feed(c.trace, Data(Status, []))
            && r.q == c.q.(state := if ch == CR then StatusLine(ResLineAlmostDone) else Header(HeaderFieldStart),
                           index := if c.q.state == StatusLine(ResStatus) then c.q.index else 0,
                           nread := c.q.nread + 1)
  {
    hide Feed, FeedAll;
    var out := Step(cfg, c.q, ch);
    assert ByteEvents(c.q.state, out, ch) == [Data(Status, [])];
    FeedOne(c.trace, Data(Status, []));
  }

  lemma EndRun(cfg: Settings, c: Conf, cr: bool)
    requires MayEnd(c.q.state) && HeaderRoom(cfg, c.q, |Eol(cr)|)
    requires c.q.state == StatusLine(ResStatus) ==> c.q.index == 0
    ensures Run(cfg, c, Eol(cr))
         == Conf(c.q.(state := Header(HeaderFieldStart), index := 0, nread := c.q.nread + |Eol(cr)|),
                 Feed(c.trace, Data(Status, [])))
  {
    hide Run, Advance, Feed, Leads;
    RunNothing(cfg, c);
    EndByte(cfg, c, if cr then CR else LF);
    RunNext(cfg, c, [], if cr then CR else LF);
    if cr {
      LeadsOn();
      Lead(cfg, Advance(cfg, c, CR), ResLineAlmostDone, LF, Header(HeaderFieldStart));
      RunNext(cfg, c, [CR], LF);
      assert [] + [CR] == [CR] && [CR] + [LF] == Eol(cr);
    } else {
      assert [] + [LF] == Eol(cr);
    }
  }

  lemma TailRun(cfg: Settings, c: Conf, reason: Option<seq<byte>>)
    requires c.q.state == StatusLine(ResStatusCode) && HeaderRoom(cfg, c.q, |Tail(reason)|)
    requires OneLine(ReasonText(reason))
    ensures var r := Run(cfg, c, Tail(reason));
            && MayEnd(r.q.state) && (r.q.state == StatusLine(ResStatus) ==> r.q.index == 0)
            && r.q == c.q.(state := r.q.state, index := r.q.index, nread := c.q.nread + |Tail(reason)|)
            && Feed(r.trace, Data(Status, [])) == Feed(c.trace, Data(Status, ReasonText(reason)))
  {
    hide Run, Advance, Feed, Leads;
    RunNothing(cfg, c);
    if reason.Some? {
      LeadsOn();
      Lead(cfg, c, ResStatusCode, ' ', StatusLine(ResStatusStart));
      RunOne(cfg, c, ' ');
      var c1 := Run(cfg, c, [' ']);
      RunConcat(cfg, c, [' '], reason.value);
      if reason.value == [] {
        RunNothing(cfg, c1);
      } else {
        ReasonRun(cfg, c1, reason.value);
        FeedSplit(c.trace, Status, reason.value, []);
        assert reason.value + [] == reason.value;
      }
    }
  }

  /** The protocol, two digits, blanks, the code, and what may follow it: from the place where a response may begin
      such a line leads to the header block, and the reason is delivered whole. */
  lemma StatusRun(cfg: Settings, c: Conf, d: byte, e: byte, k: nat, code: seq<byte>, reason: Option<seq<byte>>,
                  cr: bool)
    requires ResponseMayStart(c.q)
    requires StatusFits(d, e, code, reason) && HeaderRoom(cfg, c.q, |StatusText(d, e, k, code, reason, cr)|)
    ensures Run(cfg, c, StatusText(d, e, k, code, reason, cr))
         == Conf(Fresh(c.q).(typ := Response, state := Header(HeaderFieldStart), major := DigitValue(d),
                             minor := DigitValue(e), status := Decimal(code), index := 0,
                             nread := c.q.nread + |StatusText(d, e, k, code, reason, cr)|),
                 c.trace + [MessageBegin, Data(Status, ReasonText(reason))])
  {
    hide Run, Decimal;
    WordRun(cfg, c, d, e);
    var c1 := Run(cfg, c, Word(d, e));
    GapRun(cfg, c1, k);
    RunConcat(cfg, c, Word(d, e), Spaces(k));
    var c2 := Run(cfg, c1, Spaces(k));
    CodeRun(cfg, c2, code);
    RunConcat(cfg, c, Word(d, e) + Spaces(k), code);
    var c3 := Run(cfg, c2, code);
    TailRun(cfg, c3, reason);
    RunConcat(cfg, c, (Word(d, e) + Spaces(k)) + code, Tail(reason));
    var c4 := Run(cfg, c3, Tail(reason));
    EndRun(cfg, c4, cr);
    RunConcat(cfg, c, ((Word(d, e) + Spaces(k)) + code) + Tail(reason), Eol(cr));
    ItemAppends(c.trace, MessageBegin, Data(Status, ReasonText(reason)));
  }

  // ------------------------------------------------------------------ no other text is taken

  /** What the text says. */
  datatype Pieces = Pieces(d: byte, e: byte, k: nat, code: seq<byte>, reason: Option<seq<byte>>)

  /** What has been read at each point. */
  function Before(p: StatusPoint, t: Pieces): seq<byte> {
    match p
    case ResOrRespH => ['H']
    case ResH => ['H']
    case ResHT => ['H', 'T']
    case ResHTT => ['H', 'T', 'T']
    case ResHTTP => ['H', 'T', 'T', 'P']
    case ResHttpMajor => ['H', 'T', 'T', 'P', '/']
    case ResHttpDot => ['H', 'T', 'T', 'P', '/'] + [t.d]
    case ResHttpMinor => ['H', 'T', 'T', 'P', '/'] + [t.d, '.']
    case ResHttpEnd => ['H', 'T', 'T', 'P', '/'] + [t.d, '.', t.e]
    case ResFirstStatusCode => Word(t.d, t.e) + Spaces(t.k)
    case ResStatusCode => (Word(t.d, t.e) + Spaces(t.k)) + t.code
    case ResStatusStart => (Word(t.d, t.e) + Spaces(t.k)) + t.code + Tail(Some([]))
    case ResStatus => (Word(t.d, t.e) + Spaces(t.k)) + t.code + Tail(t.reason)
    case ResLineAlmostDone => (Word(t.d, t.e) + Spaces(t.k)) + t.code + Tail(t.reason) + [CR]
  }

  predicate HasMajor(p: StatusPoint) { p.ResHttpDot? || p.ResHttpMinor? || HasMinor(p) }

  predicate HasMinor(p: StatusPoint) { p.ResHttpEnd? || p.ResFirstStatusCode? || HasCode(p) }

  predicate HasCode(p: StatusPoint) {
    p.ResStatusCode? || p.ResStatusStart? || p.ResStatus? || p.ResLineAlmostDone?
  }

  predicate PiecesFit(p: StatusPoint, t: Pieces, status: nat) {
    && (HasMajor(p) ==> IsNum(t.d)) && (HasMinor(p) ==> IsNum(t.e))
    && (HasCode(p) ==> t.code != [] && Digits(t.code) && status == Decimal(t.code) <= 999)
    && (p.ResStatus? ==> t.reason.Some?)
    && (p.ResStatus? || p.ResLineAlmostDone? ==> OneLine(ReasonText(t.reason)))
  }

  predicate Reads(q: Parser, p: StatusPoint, w: seq<byte>, t: Pieces) {
    q.errno == OK && q.state == StatusLine(p) && !p.ResOrRespH? && w == Before(p, t) && PiecesFit(p, t, q.status)
  }

  /** The protocol and the version. */
  lemma WordReads(q: Parser, p: StatusPoint, w: seq<byte>, t: Pieces, ch: byte) returns (t': Pieces)
    requires Reads(q, p, w, t) && !HasCode(p) && !p.ResFirstStatusCode? && ch != LF
    requires OnStatusLine(q, ch).q.errno == OK
    ensures var r := OnStatusLine(q, ch).q; r.state.StatusLine? && Reads(r, r.state.status, w + [ch], t')
  {
    hide OnStatusStart, OnStatusEnd, Decimal;
    t' := match p
      case ResHttpMajor => t.(d := ch) case ResHttpMinor => t.(e := ch) case ResHttpEnd => t.(k := 0) case _ => t;
    assert p == ResHttpEnd ==> Word(t.d, t.e) + Spaces(0) == Before(ResHttpEnd, t) + [ch];
  }

  /** Blanks, and the first digit. */
  lemma GapReads(q: Parser, p: StatusPoint, w: seq<byte>, t: Pieces, ch: byte) returns (t': Pieces)
    requires Reads(q, p, w, t) && p.ResFirstStatusCode? && ch != LF && OnStatusLine(q, ch).q.errno == OK
    ensures var r := OnStatusLine(q, ch).q; r.state.StatusLine? && Reads(r, r.state.status, w + [ch], t')
  {
    hide Word;
    MoreSpaces(t.k);
    assert [ch][..0] == [] && Decimal([]) == 0;
    if ch == ' ' {
      t' := t.(k := t.k + 1);
      assert w + [ch] == Word(t.d, t.e) + (Spaces(t.k) + [' ']);
    } else {
      t' := t.(code := [ch]);
    }
  }

  /** The other digits, and what ends them. */
  lemma CodeReads(q: Parser, p: StatusPoint, w: seq<byte>, t: Pieces, ch: byte) returns (t': Pieces)
    requires Reads(q, p, w, t) && p.ResStatusCode? && ch != LF && OnStatusLine(q, ch).q.errno == OK
    ensures var r := OnStatusLine(q, ch).q; r.state.StatusLine? && Reads(r, r.state.status, w + [ch], t')
  {
    hide Word, Spaces;
    if IsNum(ch) {
      t' := t.(code := t.code + [ch]);
      StatusGrows(t.code, ch);
      assert (t.code + [ch])[..|t.code|] == t.code;
      assert w + [ch] == (Word(t.d, t.e) + Spaces(t.k)) + (t.code + [ch]);
    } else {
      t' := t.(reason := None);
      assert w + [ch] == w + Tail(if ch == CR then None else Some([])) + if ch == CR then [CR] else [];
    }
  }

  /** What follows the code. */
  lemma TailReads(q: Parser, p: StatusPoint, w: seq<byte>, t: Pieces, ch: byte) returns (t': Pieces)
    requires Reads(q, p, w, t) && (p.ResStatusStart? || p.ResStatus? || p.ResLineAlmostDone?) && ch != LF
    requires OnStatusLine(q, ch).q.errno == OK
    ensures var r := OnStatusLine(q, ch).q; r.state.StatusLine? && Reads(r, r.state.status, w + [ch], t')
  {
    hide Word, Decimal, Digits;
    var before := (Word(t.d, t.e) + Spaces(t.k)) + t.code;
    var r := if p.ResStatusStart? then [] else ReasonText(t.reason);
    t' := t.(reason := Some(if ch == CR then r else r + [ch]));
    assert Tail(Some(r)) + [ch] == Tail(Some(r + [ch]));
    assert w == before + Tail(Some(r)) && w + [ch] == before + (Tail(Some(r)) + [ch]);
  }

  lemma ByteReads(q: Parser, p: StatusPoint, w: seq<byte>, t: Pieces, ch: byte) returns (t': Pieces)
    requires Reads(q, p, w, t) && ch != LF && OnStatusLine(q, ch).q.errno == OK
    ensures var r := OnStatusLine(q, ch).q; r.state.StatusLine? && Reads(r, r.state.status, w + [ch], t')
  {
    hide OnStatusLine, Reads, Before, PiecesFit;
    match p {
      case ResFirstStatusCode => t' := GapReads(q, p, w, t, ch);
      case ResStatusCode => t' := CodeReads(q, p, w, t, ch);
      case ResStatusStart => t' := TailReads(q, p, w, t, ch);
      case ResStatus => t' := TailReads(q, p, w, t, ch);
      case ResLineAlmostDone => t' := TailReads(q, p, w, t, ch);
      case _ => t' := WordReads(q, p, w, t, ch);
    }
  }

  lemma LineByte(cfg: Settings, c: Conf, ch: byte)
    requires c.q.state.StatusLine? && HeaderRoom(cfg, c.q, 1)
    ensures Advance(cfg, c, ch).q == OnStatusLine(Count(c.q, 1), ch).q
    ensures Advance(cfg, c, ch).q.nread == c.q.nread + 1
  {
    hide OnStatusLine, FeedAll, ByteEvents, Advance;
    AdvanceRegisters(cfg, c, ch);
    KeepsCount(Count(c.q, 1), ch);
    assert Step(cfg, c.q, ch) == OnStatusLine(Count(c.q, 1), ch);
  }

  lemma KeepsCount(q: Parser, ch: byte)
    requires q.state.StatusLine?
    ensures OnStatusLine(q, ch).q.nread == q.nread
  {
  }

  lemma CountReads(q: Parser, p: StatusPoint, w: seq<byte>, t: Pieces)
    requires Reads(q, p, w, t)
    ensures q.errno == OK && q.state == StatusLine(p) && Reads(Count(q, 1), p, w, t)
  {
    hide Before, PiecesFit;
  }

  lemma FirstReads(cfg: Settings, c: Conf, ch: byte) returns (t: Pieces)
    requires c.q.state == Start(StartRes) && HeaderRoom(cfg, c.q, 1) && ch != CR && ch != LF
    requires Advance(cfg, c, ch).q.errno == OK
    ensures Reads(Advance(cfg, c, ch).q, ResH, [ch], t) && Advance(cfg, c, ch).q.nread == c.q.nread + 1
  {
    hide FeedAll, ByteEvents;
    t := Pieces(0 as char, 0 as char, 0, [], None);
  }

  lemma {:induction false} LineReads(cfg: Settings, c: Conf, w: seq<byte>) returns (p: StatusPoint, t: Pieces)
    requires c.q.state == Start(StartRes) && HeaderRoom(cfg, c.q, |w|) && w != [] && w[0] != CR && LF !in w
    requires Run(cfg, c, w).q.errno == OK
    ensures Reads(Run(cfg, c, w).q, p, w, t) && Run(cfg, c, w).q.nread == c.q.nread + |w|
    decreases |w|
  {
    hide Advance, Run, Reads, OnStatusLine;
    var n := |w| - 1;
    assert w == w[..n] + [w[n]];
    RunNext(cfg, c, w[..n], w[n]);
    if n == 0 {
      assert w[..0] == [];
      RunNothing(cfg, c);
      t := FirstReads(cfg, c, w[0]);
      p := ResH;
    } else {
      var mid := Run(cfg, c, w[..n]);
      if mid.q.errno != OK { FailedStays(cfg, mid, w[n]); }
      p, t := LineReads(cfg, c, w[..n]);
      CountReads(mid.q, p, w[..n], t);
      LineByte(cfg, mid, w[n]);
      t := ByteReads(Count(mid.q, 1), p, w[..n], t, w[n]);
      p := Run(cfg, c, w).q.state.status;
    }
  }

  lemma LineFeedReads(q: Parser, p: StatusPoint, w: seq<byte>, t: Pieces) returns (t': Pieces)
    requires Reads(q, p, w, t) && OnStatusLine(q, LF).q.errno == OK
    ensures w + [LF] == StatusText(t'.d, t'.e, t'.k, t'.code, t'.reason, p == ResLineAlmostDone)
    ensures StatusFits(t'.d, t'.e, t'.code, t'.reason)
  {
    assert HasCode(p) by { EndsBehindCode(q, p); }
    hide OnStatusLine, Decimal, Word;
    t' := if p == ResStatusCode then t.(reason := None) else if p == ResStatusStart then t.(reason := Some([])) else t;
    var before := (Word(t.d, t.e) + Spaces(t.k)) + t.code;
    assert before + Tail(None) == before;
    if p == ResLineAlmostDone {
      assert ((before + Tail(t.reason)) + [CR]) + [LF] == (before + Tail(t.reason)) + [CR, LF];
    }
  }

  lemma EndsBehindCode(q: Parser, p: StatusPoint)
    requires q.errno == OK && q.state == StatusLine(p) && OnStatusLine(q, LF).q.errno == OK
    ensures HasCode(p)
  {
  }

  lemma StatusOrigin(cfg: Settings, c: Conf, w: seq<byte>) returns (t: Pieces, cr: bool)
    requires c.q.state == Start(StartRes) && HeaderRoom(cfg, c.q, |w| + 1) && w != [] && w[0] != CR && LF !in w
    requires Run(cfg, c, w + [LF]).q.errno == OK
    ensures w + [LF] == StatusText(t.d, t.e, t.k, t.code, t.reason, cr) && StatusFits(t.d, t.e, t.code, t.reason)
  {
    hide Advance, Run, Reads, OnStatusLine, StatusText, StatusFits;
    RunNext(cfg, c, w, LF);
    var mid := Run(cfg, c, w);
    if mid.q.errno != OK { FailedStays(cfg, mid, LF); }
    var p;
    p, t := LineReads(cfg, c, w);
    CountReads(mid.q, p, w, t);
    LineByte(cfg, mid, LF);
    t := LineFeedReads(Count(mid.q, 1), p, w, t);
    cr := p == ResLineAlmostDone;
  }

  /** Where only a response may begin, a text up to its line feed is read without an error exactly if it is a
      status line. */
  lemma StatusExact(cfg: Settings, c: Conf, w: seq<byte>)
    requires c.q.state == Start(StartRes) && c.q.typ == Response && HeaderRoom(cfg, c.q, |w| + 1)
    requires w != [] && w[0] != CR && LF !in w
    ensures Run(cfg, c, w + [LF]).q.errno == OK <==>
              exists d, e, k, code, reason, cr ::
                w + [LF] == StatusText(d, e, k, code, reason, cr) && StatusFits(d, e, code, reason)
  {
    hide Run, StatusText, StatusFits;
    if Run(cfg, c, w + [LF]).q.errno == OK {
      var t, cr := StatusOrigin(cfg, c, w);
    }
    forall d, e, k, code, reason, cr |
      w + [LF] == StatusText(d, e, k, code, reason, cr) && StatusFits(d, e, code, reason)
      ensures Run(cfg, c, w + [LF]).q.errno == OK
    {
      StatusRun(cfg, c, d, e, k, code, reason, cr);
    }
  }
}
