/** Requests as clients write them: every method and every URL, one after the other on one connection. */
module HttpExchanges {
  import opened Common
  import opened HttpTypes
  import opened HttpStep
  import opened HttpRun
  import opened HttpInvariant
  import opened HttpNames
  import opened HttpValues
  import opened HttpUrl
  import opened HttpTargets
  import opened HttpVersions
  import opened HttpRequestLines
  import opened HttpLines
  import opened HttpBlocks
  import opened HttpMessages

  /** on_headers_complete returns 0. */
  ghost predicate AlwaysProceeds(cfg: Settings) {
    cfg.maxHeaderSize + 1 < UINT32_MODULUS && forall q: Parser :: cfg.onHeadersComplete(q) == Proceed
  }

  /** Method, blank, target, blank, "HTTP/1." and a digit, and the end of the line. */
  function PlainLine(m: Method, u: seq<byte>, minor: byte): seq<byte> {
    ((Name(m) + [' ']) + u) + [' ', 'H', 'T', 'T', 'P', '/', '1', '.', minor, CR, LF]
  }

  function PlainEnding(minor: byte): Ending { Versioned(0, false, '1', minor, true) }

  lemma PlainIs(m: Method, u: seq<byte>, minor: byte)
    ensures PlainLine(m, u, minor) == RequestText(m, 0, u, PlainEnding(minor))
  {
    hide Name, VersionLine;
    assert (Name(m) + [' ']) + Spaces(0) == Name(m) + [' '];
    PlainVersion(minor);
  }

  lemma PlainVersion(minor: byte)
    ensures [' '] + VersionLine(0, false, '1', minor, true) == [' ', 'H', 'T', 'T', 'P', '/', '1', '.', minor, CR, LF]
  {
    assert Spaces(0) + Protocol(false) == ['H', 'T', 'T', 'P'];
  }

  /** A URL that the splitter accepts is a target for the streaming parser. */
  lemma UrlIsTarget(u: seq<byte>, m: Method)
    requires UrlAccepted(u, m == CONNECT)
    ensures TargetFits(u, m)
  {
    hide UrlAccepted, StateAt, UrlMayEnd;
    AcceptedMayEnd(u, m == CONNECT);
    AcceptedNotEmpty(u, m == CONNECT);
  }

  lemma AcceptedNotEmpty(u: seq<byte>, isConnect: bool)
    requires UrlAccepted(u, isConnect)
    ensures u != []
  {
    hide StateAt, FieldText, HostText, SeenAt, ConnectTarget;
  }

  /** What on_headers_complete is told of a request that has no body. */
  function PlainHead(q: Parser, tunnel: bool): Head { Head(false, q.status, false, None, false, tunnel) }

  /** The request hands the connection over to another protocol. */
  ghost predicate Tunnels(m: Method, ls: seq<Line>) { m == CONNECT || (SaidUpgrade(ls) && Said(ls, UPGRADE)) }

  /** A request with any header lines that announce no body, and its end. */
  lemma RequestWithout(cfg: Settings, c: Conf, m: Method, u: seq<byte>, minor: byte, ls: seq<Line>)
    requires RequestMayStart(c.q) && Inv(cfg, c.q) && AlwaysProceeds(cfg) && UrlAccepted(u, m == CONNECT)
    requires IsNum(minor) && LinesFit(cfg, ls) && !SaidSize(ls) && !SaidChunked(ls)
    requires HeaderRoom(cfg, c.q, |PlainLine(m, u, minor)| + |BlockText(ls)| + 2)
    ensures var r := Run(cfg, c, PlainLine(m, u, minor) + (BlockText(ls) + [CR, LF]));
            var k := if minor == '0' then Said(ls, KEEP_ALIVE) else !Said(ls, CLOSE);
            && r.q.errno == OK && r.q.typ == Request && r.q.nread == 0 && Ended(r.q, r.q, k) && Inv(cfg, r.q)
            && r.trace == ((c.trace + [MessageBegin, Data(Url, u)]) + BlockEvents(ls))
                          + [HeadersComplete(PlainHead(c.q, Tunnels(m, ls))), MessageComplete(k)]
    ensures Departs(cfg, c, PlainLine(m, u, minor) + (BlockText(ls) + [CR, LF])) <==> Tunnels(m, ls)
  {
    hide Run, Inv, UrlAccepted, TargetFits, LinesFit, RequestText, Said, SaidChunked, SaidUpgrade, SaidSize, BlockText,
         Departs, Switches, Reported, BodyFits, Finished, BlockFits, EndsAtOnce;
    PlainIs(m, u, minor);
    UrlIsTarget(u, m);
    NoSizesOk(ls);
    var q := Requested(c.q, m, 0, u, PlainEnding(minor));
    var p, h := RequestMessage(cfg, c, m, 0, u, PlainEnding(minor), ls, true, Nothing);
    HeadIs(cfg, q, ls, p, h);
    var text := PlainLine(m, u, minor) + (BlockText(ls) + [CR, LF]);
    assert text + BodyText(Nothing) == text;
    var t := (c.trace + [MessageBegin, Data(Url, u)]) + BlockEvents(ls);
    var r := Run(cfg, c, text);
    FinishedIs(q, c.trace + [MessageBegin, Data(Url, u)], ls, h, r);
    RunSound(cfg, c, text);
  }

  lemma NoSizesOk(ls: seq<Line>)
    requires !SaidSize(ls) && !SaidChunked(ls)
    ensures BlockFits(ls)
  {
    hide SizeName, SizeFits, SaysChunked;
  }

  lemma HeadIs(cfg: Settings, q: Parser, ls: seq<Line>, p: Parser, h: Head)
    requires Reported(cfg, q, ls, p, h) && q.typ == Request && !SaidSize(ls) && !SaidChunked(ls) && AlwaysProceeds(cfg)
    ensures h == PlainHead(q, q.verb == CONNECT || (SaidUpgrade(ls) && Said(ls, UPGRADE)))
    ensures EndsAtOnce(h) && !EndsWithConnection(h) && BodyFits(cfg, h, Nothing)
    ensures Switches(cfg, p) <==> q.verb == CONNECT || (SaidUpgrade(ls) && Said(ls, UPGRADE))
  {
    hide Said, SaidChunked, SaidUpgrade, SizeName;
  }

  lemma FinishedIs(q: Parser, t: seq<Event>, ls: seq<Line>, h: Head, r: Conf)
    requires Finished(q, t, ls, h, Nothing, r)
    ensures var k := GoesOn(q.major, q.minor, ls, h);
            && r.q.errno == OK && r.q.typ == q.typ && r.q.nread == 0 && Ended(r.q, r.q, k)
            && r.trace == (t + BlockEvents(ls)) + [HeadersComplete(h), MessageComplete(k)]
  {
    hide GoesOn, Ended, BlockEvents;
    var u, k := t + BlockEvents(ls), GoesOn(q.major, q.minor, ls, h);
    assert (u + [HeadersComplete(h)]) + [] == u + [HeadersComplete(h)];
    AppendTwo(u, HeadersComplete(h), MessageComplete(k));
  }

  function FullText(m: Method, u: seq<byte>, minor: byte, ls: seq<Line>): seq<byte> {
    PlainLine(m, u, minor) + (BlockText(ls) + [CR, LF])
  }

  function FullTrace(m: Method, u: seq<byte>, ls: seq<Line>, status: nat, tunnel: bool, k: bool): seq<Event> {
    ([MessageBegin, Data(Url, u)] + BlockEvents(ls))
    + [HeadersComplete(Head(false, status, false, None, false, tunnel)), MessageComplete(k)]
  }

  lemma InitReady(cfg: Settings)
    requires cfg.maxHeaderSize < UINT32_MODULUS
    ensures var q := Init(Request);
            RequestMayStart(q) && Inv(cfg, q) && q.nread == 0 && q.errno == OK && q.status == 0
  {
  }

  lemma NoLines()
    ensures BlockText([]) == [] && BlockEvents([]) == [] && !SaidSize([]) && !SaidChunked([]) && !SaidUpgrade([])
    ensures !Said([], CLOSE) && !Said([], KEEP_ALIVE) && !Said([], UPGRADE)
  {
  }

  /** For every method and every URL that the splitter accepts: the request that consists of its line and an empty
      line is taken without an error and delivered as it stands, and another may follow. */
  lemma EveryRequest(cfg: Settings, m: Method, u: seq<byte>)
    requires AlwaysProceeds(cfg) && UrlAccepted(u, m == CONNECT) && |PlainLine(m, u, '1')| + 2 <= cfg.maxHeaderSize
    ensures var r := Run(cfg, Conf(Init(Request), []), PlainLine(m, u, '1') + [CR, LF]);
            && r.q.errno == OK && r.q.state == Start(StartReq)
            && r.trace == [MessageBegin, Data(Url, u),
                           HeadersComplete(Head(false, 0, false, None, false, m == CONNECT)), MessageComplete(true)]
    ensures Departs(cfg, Conf(Init(Request), []), PlainLine(m, u, '1') + [CR, LF]) <==> m == CONNECT
  {
    hide Run, Inv, UrlAccepted, BlockText, BlockEvents, Said, SaidChunked, SaidUpgrade, SaidSize, Departs;
    InitReady(cfg);
    NoLines();
    RequestWithout(cfg, Conf(Init(Request), []), m, u, '1', []);
    assert BlockText([]) + [CR, LF] == [CR, LF];
    assert ([] + [MessageBegin, Data(Url, u)]) + [] == [MessageBegin, Data(Url, u)];
  }

  /** Two requests on one connection: if no item of the first says close, the second is taken as if it were the
      first. */
  lemma Pipelined(cfg: Settings, m1: Method, u1: seq<byte>, ls1: seq<Line>, m2: Method, u2: seq<byte>, ls2: seq<Line>)
    returns (status: nat)
    requires AlwaysProceeds(cfg) && UrlAccepted(u1, m1 == CONNECT) && UrlAccepted(u2, m2 == CONNECT)
    requires LinesFit(cfg, ls1) && !SaidSize(ls1) && !SaidChunked(ls1) && !Said(ls1, CLOSE)
    requires LinesFit(cfg, ls2) && !SaidSize(ls2) && !SaidChunked(ls2)
    requires |FullText(m1, u1, '1', ls1)| <= cfg.maxHeaderSize && |FullText(m2, u2, '1', ls2)| <= cfg.maxHeaderSize
    ensures var r := Run(cfg, Conf(Init(Request), []), FullText(m1, u1, '1', ls1) + FullText(m2, u2, '1', ls2));
            && r.q.errno == OK
            && r.trace == FullTrace(m1, u1, ls1, 0, Tunnels(m1, ls1), true)
                          + FullTrace(m2, u2, ls2, status, Tunnels(m2, ls2), !Said(ls2, CLOSE))
  {
    hide Run, Inv, UrlAccepted, BlockText, BlockEvents, Said, SaidChunked, SaidUpgrade, SaidSize, PlainLine, LinesFit;
    InitReady(cfg);
    var c := Conf(Init(Request), []);
    var first, second := FullText(m1, u1, '1', ls1), FullText(m2, u2, '1', ls2);
    RequestWithout(cfg, c, m1, u1, '1', ls1);
    var c1 := Run(cfg, c, first);
    AfterMessage(cfg, c1, true, CR);
    RequestWithout(cfg, c1, m2, u2, '1', ls2);
    RunConcat(cfg, c, first, second);
    status := c1.q.status;
    var a := FullTrace(m1, u1, ls1, 0, Tunnels(m1, ls1), true);
    var b := FullTrace(m2, u2, ls2, status, Tunnels(m2, ls2), !Said(ls2, CLOSE));
    assert c1.trace == a;
    assert Run(cfg, c, first + second).trace == a + b;
  }

  /** A request of version 1.0 none of whose items says keep-alive, and one of version 1.1 with an item that says
      close, are the last: behind the end of the message every byte that is no line end is an error. */
  lemma LastRequest(cfg: Settings, m: Method, u: seq<byte>, minor: byte, ls: seq<Line>, ch: byte)
    requires AlwaysProceeds(cfg) && UrlAccepted(u, m == CONNECT) && IsNum(minor)
    requires LinesFit(cfg, ls) && !SaidSize(ls) && !SaidChunked(ls)
    requires if minor == '0' then !Said(ls, KEEP_ALIVE) else Said(ls, CLOSE)
    requires |FullText(m, u, minor, ls)| <= cfg.maxHeaderSize && 0 < cfg.maxHeaderSize && ch != CR && ch != LF
    ensures var r := Run(cfg, Conf(Init(Request), []), FullText(m, u, minor, ls));
            && r.q.errno == OK && r.q.state == Start(Dead)
            && Run(cfg, Conf(Init(Request), []), FullText(m, u, minor, ls) + [ch]).q.errno == CLOSED_CONNECTION
  {
    hide Run, Inv, UrlAccepted, BlockText, BlockEvents, Said, SaidChunked, SaidUpgrade, SaidSize, PlainLine, LinesFit;
    InitReady(cfg);
    var c := Conf(Init(Request), []);
    RequestWithout(cfg, c, m, u, minor, ls);
    var c1 := Run(cfg, c, FullText(m, u, minor, ls));
    AfterMessage(cfg, c1, false, ch);
    RunNext(cfg, c, FullText(m, u, minor, ls), ch);
  }

  // ------------------------------------------------------------------ items

  /** A Connection line whose whole value is the keyword says it. */
  lemma OnlyItemSays(l: Line, keyword: string)
    requires ConnectionName(l.name) && l.folds == [] && l.value != [] && ',' !in l.value
    ensures Says(l, keyword) <==> Is(l.value, keyword)
  {
    hide Is, LowerName;
    SplitPlain(l.value);
    var items := Split(l.value);
    assert Counted(l.value, l.folds) == (items, 1);
    assert Item(items, 0) == l.value && ModeAt(items, 0) == Ready;
  }

  /** Header lines whose name is none of the six say nothing. */
  lemma OtherSays(l: Line, keyword: string)
    requires LowerName(l.name) !in {CONNECTION, PROXY_CONNECTION, TRANSFER_ENCODING, UPGRADE, CONTENT_LENGTH}
    ensures !Says(l, keyword) && !SaysChunked(l) && !SaysUpgrade(l) && !SizeName(l.name)
  {
    hide LowerName, Counted, Met, Is;
  }
}
