/** Request lines: which texts are taken for one, what they leave in the registers, and what is delivered. */
module HttpRequestLines {
  import opened HttpTypes
  import opened HttpUrlChar
  import opened HttpStep
  import opened HttpRun
  import opened HttpMethods
  import opened HttpUrl
  import opened HttpTargets
  import opened HttpVersions

  /** Behind the target: a version, or nothing, which counts as version 0.9. */
  datatype Ending = Bare(cr: bool) | Versioned(k: nat, ice: bool, d: byte, e: byte, cr: bool)

  function EndingText(x: Ending): seq<byte> {
    match x case Bare(cr) => Eol(cr) case Versioned(k, ice, d, e, cr) => [' '] + VersionLine(k, ice, d, e, cr)
  }

  predicate EndingFits(x: Ending, m: Method) {
    match x case Bare(_) => true case Versioned(_, ice, d, e, _) => IsNum(d) && IsNum(e) && (ice ==> m == SOURCE)
  }

  function Major(x: Ending): nat
    requires x.Versioned? ==> IsNum(x.d)
  {
    match x case Bare(_) => 0 case Versioned(_, _, d, _, _) => DigitValue(d)
  }

  function Minor(x: Ending): nat
    requires x.Versioned? ==> IsNum(x.e)
  {
    match x case Bare(_) => 9 case Versioned(_, _, _, e, _) => DigitValue(e)
  }

  /** The method's name as bytes. */
  function Name(m: Method): (r: seq<byte>)
    ensures r == MethodString(m)
  {
    hide MethodString;
    seq(|MethodString(m)|, i requires 0 <= i < |MethodString(m)| => NameByte(m, i))
  }

  function NameByte(m: Method, i: nat): (ch: byte)
    requires i < |MethodString(m)|
    ensures ch == MethodString(m)[i]
  {
    hide MethodString;
    NameBytes(m, i);
    MethodString(m)[i]
  }

  function RequestText(m: Method, j: nat, u: seq<byte>, x: Ending): seq<byte> {
    (((Name(m) + [' ']) + Spaces(j)) + u) + EndingText(x)
  }

  /** The streaming parser looks at a target with the automaton alone. */
  predicate TargetFits(u: seq<byte>, m: Method) { u != [] && UrlMayEnd(StateAt(u, m == CONNECT, |u|)) }

  // ------------------------------------------------------------------ the method

  /** A request may begin. */
  predicate RequestMayStart(q: Parser) {
    (q.state == Start(StartReq) && q.typ == Request) || (q.state == Start(StartReqOrRes) && q.typ == Both)
  }

  lemma MethodFirst(cfg: Settings, c: Conf, ch: byte)
    requires c.q.state == Start(StartReq) && HeaderRoom(cfg, c.q, 1) && FirstMethod(ch).Some?
    ensures Advance(cfg, c, ch) == Conf(Reading(c.q, FirstMethod(ch).value, 1), c.trace + [MessageBegin])
  {
    hide FeedAll, Feed, FirstMethod;
    NoLineEnd(ch);
    var out := Step(cfg, c.q, ch);
    assert ByteEvents(c.q.state, out, ch) == [MessageBegin];
    FeedOne(c.trace, MessageBegin);
    NoticeAppends(c.trace, MessageBegin);
  }

  lemma NoLineEnd(ch: byte)
    requires FirstMethod(ch).Some?
    ensures ch != CR && ch != LF
  {
  }

  lemma MethodQuiet(cfg: Settings, c: Conf, ch: byte)
    requires c.q.state == RequestStart(ReqMethod) && HeaderRoom(cfg, c.q, 1)
    ensures Advance(cfg, c, ch) == Conf(OnReqMethod(Count(c.q, 1), ch).q, c.trace)
  {
    hide Advance, MethodString, NextMethod;
    assert Step(cfg, c.q, ch) == OnReqMethod(Count(c.q, 1), ch) && OnReqMethod(Count(c.q, 1), ch).fx == NOTHING;
    QuietByte(cfg, c, ch);
  }

  lemma {:induction false} MethodTrace(cfg: Settings, c: Conf, s: seq<byte>)
    requires c.q.state == Start(StartReq) && HeaderRoom(cfg, c.q, |s|) && Plain(s)
    ensures Verb(s).Some? ==> Run(cfg, c, s) == Conf(Reading(c.q, Verb(s).value, |s|), c.trace + [MessageBegin])
    decreases |s|
  {
    hide Step, FirstMethod, VerbStep, MethodString, Reading, Advance;
    var n := |s| - 1;
    MethodRun(cfg, c, s);
    RunPrefix(cfg, c, s, n);
    assert s[..n + 1] == s;
    if n == 0 {
      assert s[..0] == [];
      RunNothing(cfg, c);
      if FirstMethod(s[0]).Some? { MethodFirst(cfg, c, s[0]); }
    } else if Verb(s).Some? {
      MethodTrace(cfg, c, s[..n]);
      ReadingState(c.q, Verb(s[..n]).value, n);
      MethodQuiet(cfg, Run(cfg, c, s[..n]), s[n]);
    }
  }

  lemma ReadingState(q: Parser, m: Method, n: nat)
    ensures var r := Reading(q, m, n);
            r.state == RequestStart(ReqMethod) && r.nread == q.nread + n && r.errno == q.errno
  {
  }

  /** The method's name and the blank behind it, where only a request may begin. */
  lemma MethodNameRun(cfg: Settings, c: Conf, m: Method)
    requires c.q.state == Start(StartReq) && HeaderRoom(cfg, c.q, |Name(m)| + 1)
    ensures Run(cfg, c, Name(m) + [' '])
         == Conf(Fresh(c.q).(verb := m, index := |Name(m)| + 1, state := RequestStart(ReqSpacesBeforeUrl),
                             nread := c.q.nread + |Name(m)| + 1), c.trace + [MessageBegin])
  {
    hide Run, Advance, MethodString, Verb, FirstMethod, NextMethod;
    var s := Name(m);
    NameLength(m);
    NameIsPlain(m);
    NameAccepted(m, s);
    WholeName(m);
    MethodTrace(cfg, c, s);
    RunOne(cfg, Run(cfg, c, s), ' ');
    RunConcat(cfg, c, s, [' ']);
    ReadingState(c.q, m, |s|);
    MethodQuiet(cfg, Run(cfg, c, s), ' ');
    BlankEnds(Count(Reading(c.q, m, |s|), 1), m);
  }

  lemma NameIsPlain(m: Method)
    ensures Name(m) != [] && Plain(Name(m)) && Begins(Name(m), MethodString(m))
  {
    hide MethodString;
    NameNotEmpty(m);
    forall i: nat | i < |Name(m)| ensures '-' <= Name(m)[i] {
      NameBytes(m, i);
    }
    BeginsItself(Name(m), MethodString(m));
  }

  lemma BeginsItself(s: seq<byte>, name: string)
    requires s == name
    ensures Begins(s, name)
  {
  }

  lemma NameNotEmpty(m: Method)
    ensures Name(m) != []
  {
  }

  lemma BlankEnds(q: Parser, m: Method)
    requires q.state == RequestStart(ReqMethod) && q.verb == m && q.index == |Name(m)| < 100
    ensures OnReqMethod(q, ' ').q == q.(state := RequestStart(ReqSpacesBeforeUrl), index := |Name(m)| + 1)
  {
    hide MethodString, NextMethod;
  }

  // ------------------------------------------------------------------ from the method to the target

  lemma BlankBefore(cfg: Settings, c: Conf)
    requires c.q.state == RequestStart(ReqSpacesBeforeUrl) && HeaderRoom(cfg, c.q, 1)
    ensures Advance(cfg, c, ' ') == Conf(c.q.(nread := c.q.nread + 1), c.trace)
  {
    hide Advance, ParseUrlChar;
    assert Step(cfg, c.q, ' ') == OnSpacesBeforeUrl(Count(c.q, 1), ' ');
    QuietByte(cfg, c, ' ');
  }

  lemma {:induction false} BlanksBefore(cfg: Settings, c: Conf, j: nat)
    requires c.q.state == RequestStart(ReqSpacesBeforeUrl) && HeaderRoom(cfg, c.q, j)
    ensures Run(cfg, c, Spaces(j)) == Conf(c.q.(nread := c.q.nread + j), c.trace)
    decreases j
  {
    hide Advance;
    if j == 0 {
      RunNothing(cfg, c);
      assert Spaces(0) == [];
    } else {
      assert Spaces(j)[..j - 1] == Spaces(j - 1);
      BlanksBefore(cfg, c, j - 1);
      BlankBefore(cfg, Run(cfg, c, Spaces(j - 1)));
    }
  }

  /** The end of the line right behind the target: version 0.9. */
  lemma LineEndsUrl(cfg: Settings, c: Conf, ch: byte)
    requires c.q.state.Target? && UrlMayEnd(c.q.state) && HeaderRoom(cfg, c.q, 1) && (ch == CR || ch == LF)
    ensures Advance(cfg, c, ch)
         == Conf(c.q.(state := if ch == CR then Version(ReqLineAlmostDone) else Header(HeaderFieldStart),
                      major := 0, minor := 9, nread := c.q.nread + 1), Feed(c.trace, Data(Url, [])))
  {
    hide Feed, FeedAll, ParseUrlChar;
    var out := Step(cfg, c.q, ch);
    assert ByteEvents(c.q.state, out, ch) == [Data(Url, [])];
    FeedOne(c.trace, Data(Url, []));
  }

  lemma EndingRun(cfg: Settings, c: Conf, x: Ending)
    requires c.q.state.Target? && UrlMayEnd(c.q.state) && HeaderRoom(cfg, c.q, |EndingText(x)|)
    requires EndingFits(x, c.q.verb)
    ensures Run(cfg, c, EndingText(x))
         == Conf(c.q.(state := Header(HeaderFieldStart), major := Major(x), minor := Minor(x),
                      nread := c.q.nread + |EndingText(x)|), Feed(c.trace, Data(Url, [])))
  {
    hide Run, Advance, Feed, UrlMayEnd, VersionLine, Leads;
    match x
    case Bare(cr) =>
      RunNothing(cfg, c);
      LineEndsUrl(cfg, c, if cr then CR else LF);
      RunNext(cfg, c, [], if cr then CR else LF);
      if cr {
        assert Leads(ReqLineAlmostDone, LF, Header(HeaderFieldStart)) by { LineFeedLeads(); }
        Lead(cfg, Advance(cfg, c, CR), ReqLineAlmostDone, LF, Header(HeaderFieldStart));
        RunNext(cfg, c, [CR], LF);
        assert [] + [CR] == [CR] && [CR] + [LF] == Eol(cr);
      } else {
        assert [] + [LF] == Eol(cr);
      }
    case Versioned(k, ice, d, e, cr) =>
      RunOne(cfg, c, ' ');
      BlankEndsUrl(cfg, c);
      RunConcat(cfg, c, [' '], VersionLine(k, ice, d, e, cr));
      VersionRun(cfg, Advance(cfg, c, ' '), k, ice, d, e, cr);
  }

  lemma LineFeedLeads()
    ensures Leads(ReqLineAlmostDone, LF, Header(HeaderFieldStart))
  {
  }

  // ------------------------------------------------------------------ every such line is taken

  /** What a request line leaves behind. */
  function Requested(q: Parser, m: Method, j: nat, u: seq<byte>, x: Ending): Parser
    requires EndingFits(x, m)
  {
    q.(typ := Request, flags := NO_FLAGS, contentLength := NO_LENGTH, verb := m, index := |Name(m)| + 1,
       state := Header(HeaderFieldStart), major := Major(x), minor := Minor(x),
       nread := q.nread + |RequestText(m, j, u, x)|)
  }

  lemma RestRun(cfg: Settings, c: Conf, j: nat, u: seq<byte>, x: Ending)
    requires c.q.state == RequestStart(ReqSpacesBeforeUrl) && HeaderRoom(cfg, c.q, j + |u| + |EndingText(x)|)
    requires TargetFits(u, c.q.verb) && EndingFits(x, c.q.verb)
    ensures Run(cfg, c, (Spaces(j) + u) + EndingText(x))
         == Conf(c.q.(state := Header(HeaderFieldStart), major := Major(x), minor := Minor(x),
                      nread := c.q.nread + j + |u| + |EndingText(x)|), Feed(c.trace, Data(Url, u)))
  {
    hide Run, Feed, StateAt, UrlMayEnd, EndingText;
    BlanksBefore(cfg, c, j);
    var c1 := Run(cfg, c, Spaces(j));
    TargetEnds(cfg, c1, u, c.q.verb == CONNECT);
    RunConcat(cfg, c, Spaces(j), u);
    var c2 := Run(cfg, c1, u);
    MayEndTarget(c2.q.state);
    EndingRun(cfg, c2, x);
    RunConcat(cfg, c, Spaces(j) + u, EndingText(x));
    FeedSplit(c.trace, Url, u, []);
    assert u + [] == u;
  }

  lemma LineRun(cfg: Settings, c: Conf, m: Method, j: nat, u: seq<byte>, x: Ending)
    requires c.q.state == Start(StartReq) && c.q.typ == Request && HeaderRoom(cfg, c.q, |RequestText(m, j, u, x)|)
    requires TargetFits(u, m) && EndingFits(x, m)
    ensures Run(cfg, c, RequestText(m, j, u, x))
         == Conf(Requested(c.q, m, j, u, x), c.trace + [MessageBegin, Data(Url, u)])
  {
    hide Run, StateAt, UrlMayEnd, EndingText, MethodString;
    MethodNameRun(cfg, c, m);
    var name, rest := Name(m) + [' '], (Spaces(j) + u) + EndingText(x);
    RestRun(cfg, Run(cfg, c, name), j, u, x);
    RunConcat(cfg, c, name, rest);
    assert RequestText(m, j, u, x) == name + rest;
    ItemAppends(c.trace, MessageBegin, Data(Url, u));
  }

  /** Where the kind of message is not known yet, the first bytes of a method decide it. */
  lemma SameFirst(cfg: Settings, c: Conf, ch: byte)
    requires c.q.state == Start(StartReqOrRes) && HeaderRoom(cfg, c.q, 1) && ch != 'H' && FirstMethod(ch).Some?
    ensures Advance(cfg, c, ch) == Advance(cfg, Conf(c.q.(typ := Request, state := Start(StartReq)), c.trace), ch)
  {
    hide FeedAll, FirstMethod;
    NoLineEnd(ch);
  }

  lemma HeadFromEither(cfg: Settings, c: Conf)
    requires c.q.state == Start(StartReqOrRes) && HeaderRoom(cfg, c.q, 2)
    ensures Advance(cfg, c, 'H')
         == Conf(Fresh(c.q).(state := StatusLine(ResOrRespH), nread := c.q.nread + 1), c.trace + [MessageBegin])
  {
    hide FeedAll, Feed;
    var out := Step(cfg, c.q, 'H');
    assert ByteEvents(c.q.state, out, 'H') == [MessageBegin];
    FeedOne(c.trace, MessageBegin);
    NoticeAppends(c.trace, MessageBegin);
  }

  lemma EitherIsHead(cfg: Settings, c: Conf)
    requires c.q.state == StatusLine(ResOrRespH) && HeaderRoom(cfg, c.q, 1)
    ensures Advance(cfg, c, 'E')
         == Conf(c.q.(typ := Request, verb := HEAD, index := 2, state := RequestStart(ReqMethod),
                      nread := c.q.nread + 1), c.trace)
  {
    hide Advance;
    QuietByte(cfg, c, 'E');
  }

  lemma HeadGoesOn(cfg: Settings, c: Conf)
    requires c.q.state == RequestStart(ReqMethod) && c.q.verb == HEAD && c.q.index == 1 && HeaderRoom(cfg, c.q, 1)
    ensures Advance(cfg, c, 'E') == Conf(c.q.(index := 2, nread := c.q.nread + 1), c.trace)
  {
    hide Advance, MethodString, NextMethod;
    MethodQuiet(cfg, c, 'E');
    HeadName();
  }

  lemma HeadFirst(cfg: Settings, c: Conf)
    requires c.q.state == Start(StartReqOrRes) && HeaderRoom(cfg, c.q, 2)
    ensures var d := Conf(c.q.(typ := Request, state := Start(StartReq)), c.trace);
            Advance(cfg, Advance(cfg, c, 'H'), 'E') == Advance(cfg, Advance(cfg, d, 'H'), 'E')
  {
    hide Advance;
    var d := Conf(c.q.(typ := Request, state := Start(StartReq)), c.trace);
    HeadFromEither(cfg, c);
    EitherIsHead(cfg, Advance(cfg, c, 'H'));
    MethodFirst(cfg, d, 'H');
    HeadGoesOn(cfg, Advance(cfg, d, 'H'));
  }

  lemma HeadName()
    ensures MethodString(HEAD) == ['H', 'E', 'A', 'D'] && At(MethodString(HEAD), 1) == 'E'
    ensures forall m :: MethodString(m) != [] && MethodString(m)[0] == 'H' ==> m == HEAD
  {
  }

  lemma FirstOfName(m: Method)
    ensures Name(m) != [] && FirstMethod(Name(m)[0]).Some?
  {
    hide MethodString, FirstMethod, Candidate, Name;
    CandidateStarts(m);
    NameNotEmpty(m);
  }

  lemma TwoRun(cfg: Settings, c: Conf, a: byte, b: byte)
    ensures Run(cfg, c, [a, b]) == Advance(cfg, Advance(cfg, c, a), b)
  {
    hide Advance;
    RunOne(cfg, c, a);
    RunNext(cfg, c, [a], b);
    assert [a] + [b] == [a, b];
  }

  lemma FromEither(cfg: Settings, c: Conf, m: Method, rest: seq<byte>)
    requires c.q.state == Start(StartReqOrRes) && HeaderRoom(cfg, c.q, |Name(m)|)
    ensures Run(cfg, c, Name(m) + rest)
         == Run(cfg, Conf(c.q.(typ := Request, state := Start(StartReq)), c.trace), Name(m) + rest)
  {
    hide Run, Advance, MethodString, FirstMethod;
    var d, text := Conf(c.q.(typ := Request, state := Start(StartReq)), c.trace), Name(m) + rest;
    FirstOfName(m);
    HeadName();
    if m == HEAD {
      var behind := text[2..];
      assert text == ['H', 'E'] + behind;
      TwoRun(cfg, c, 'H', 'E');
      TwoRun(cfg, d, 'H', 'E');
      HeadFirst(cfg, c);
      RunConcat(cfg, c, ['H', 'E'], behind);
      RunConcat(cfg, d, ['H', 'E'], behind);
    } else {
      var first, behind := text[0], text[1..];
      assert text == [first] + behind;
      SameFirst(cfg, c, first);
      RunOne(cfg, c, first);
      RunOne(cfg, d, first);
      RunConcat(cfg, c, [first], behind);
      RunConcat(cfg, d, [first], behind);
    }
  }

  /** A method's name, blanks, a target and a version or nothing, from wherever a request may begin: the parser
      gets to the header block with exactly these in its registers, and the target is delivered whole. */
  lemma RequestRun(cfg: Settings, c: Conf, m: Method, j: nat, u: seq<byte>, x: Ending)
    requires RequestMayStart(c.q) && HeaderRoom(cfg, c.q, |RequestText(m, j, u, x)|)
    requires TargetFits(u, m) && EndingFits(x, m)
    ensures Run(cfg, c, RequestText(m, j, u, x))
         == Conf(Requested(c.q, m, j, u, x), c.trace + [MessageBegin, Data(Url, u)])
  {
    hide Run, TargetFits, EndingFits, EndingText, Name;
    if c.q.state == Start(StartReq) {
      LineRun(cfg, c, m, j, u, x);
    } else {
      var rest := (([' '] + Spaces(j)) + u) + EndingText(x);
      assert RequestText(m, j, u, x) == Name(m) + rest;
      FromEither(cfg, c, m, rest);
      LineRun(cfg, Conf(c.q.(typ := Request, state := Start(StartReq)), c.trace), m, j, u, x);
    }
  }

  // ------------------------------------------------------------------ no other line is taken

  /** The front without blanks and line ends. */
  function Upto(s: seq<byte>): (i: nat)
    ensures i <= |s| && ' ' !in s[..i] && CR !in s[..i] && (i < |s| ==> s[i] == ' ' || s[i] == CR)
  {
    if s == [] || s[0] == ' ' || s[0] == CR then 0
    else
      var i := 1 + Upto(s[1..]);
      assert s[..i] == [s[0]] + s[1..][..i - 1];
      i
  }

  function LeadingBlanks(s: seq<byte>): (j: nat)
    ensures j <= |s| && s[..j] == Spaces(j) && (j < |s| ==> s[j] != ' ')
  {
    if s == [] || s[0] != ' ' then 0
    else
      var j := 1 + LeadingBlanks(s[1..]);
      assert s[..j] == [' '] + s[1..][..j - 1];
      j
  }

  lemma MethodByteFails(cfg: Settings, c: Conf, ch: byte)
    requires c.q.state == RequestStart(ReqMethod) && HeaderRoom(cfg, c.q, 1) && (ch == CR || ch == LF)
    ensures Advance(cfg, c, ch).q.errno != OK
  {
    hide Advance, NextMethod, MethodString;
    MethodQuiet(cfg, c, ch);
    if c.q.index < |MethodString(c.q.verb)| {
      NameBytes(c.q.verb, c.q.index);
    }
  }

  /** A line that is accepted begins with a method's name and a blank. */
  lemma MethodOrigin(cfg: Settings, c: Conf, w: seq<byte>) returns (m: Method, rest: seq<byte>)
    requires c.q.state == Start(StartReq) && HeaderRoom(cfg, c.q, |w| + 1) && w != [] && w[0] != CR && LF !in w
    requires Run(cfg, c, w + [LF]).q.errno == OK
    ensures w == (Name(m) + [' ']) + rest
  {
    hide Run, Advance, MethodString, Verb, FirstMethod, Name;
    var i := Upto(w);
    var s := w[..i];
    assert w == s + w[i..];
    if i == 0 {
      assert w == [' '] + w[1..];
      assert w + [LF] == [' '] + (w[1..] + [LF]);
      OkBefore(cfg, c, [' '], w[1..] + [LF]);
      RunOne(cfg, c, ' ');
      BlankFails(cfg, c);
      assert false;
      m, rest := GET, [];
    } else {
      assert w + [LF] == s + (w[i..] + [LF]);
      OkBefore(cfg, c, s, w[i..] + [LF]);
      MethodRun(cfg, c, s);
      MethodTrace(cfg, c, s);
      m := Verb(s).value;
      ReadingState(c.q, m, i);
      var c1, ch, behind := Run(cfg, c, s), (w[i..] + [LF])[0], (w[i..] + [LF])[1..];
      assert w[i..] + [LF] == [ch] + behind;
      OkBefore(cfg, c1, [ch], behind);
      RunOne(cfg, c1, ch);
      if ch != ' ' { MethodByteFails(cfg, c1, ch); }
      VerbBegins(s);
      NameLength(m);
      BlankRead(cfg, c.q, m, i);
      AdvanceRegisters(cfg, c1, ' ');
      assert s == Name(m);
      rest := w[i + 1..];
      assert w == (s + [' ']) + rest;
    }
  }

  lemma BlankFails(cfg: Settings, c: Conf)
    requires c.q.state == Start(StartReq) && c.q.errno == OK
    ensures Advance(cfg, c, ' ').q.errno != OK
  {
    hide FeedAll, ByteEvents;
  }

  lemma UrlStarts(cfg: Settings, c: Conf, ch: byte)
    requires c.q.state == RequestStart(ReqSpacesBeforeUrl) && HeaderRoom(cfg, c.q, 1) && ch != ' '
    requires Advance(cfg, c, ch).q.errno == OK
    ensures ParseUrlChar(FirstState(c.q.verb == CONNECT), ch).Target?
  {
    hide FeedAll, ByteEvents, ParseUrlChar;
    AdvanceRegisters(cfg, c, ch);
    AfterUrlChar(FirstState(c.q.verb == CONNECT), ch);
  }

  lemma AfterUrlChar(s: State, ch: byte)
    ensures ParseUrlChar(s, ch).Target? || ParseUrlChar(s, ch) == Start(Dead)
  {
  }

  lemma UrlGoesOn(cfg: Settings, c: Conf, ch: byte)
    requires c.q.state.Target? && HeaderRoom(cfg, c.q, 1) && Advance(cfg, c, ch).q.errno == OK
    ensures if ch == ' ' || ch == CR || ch == LF then UrlMayEnd(c.q.state) else ParseUrlChar(c.q.state, ch).Target?
  {
    hide FeedAll, ByteEvents, ParseUrlChar, UrlMayEnd;
    AdvanceRegisters(cfg, c, ch);
    AfterUrlChar(c.q.state, ch);
  }

  /** A target that is read without an error keeps the automaton alive. */
  lemma {:induction false} TargetBack(cfg: Settings, c: Conf, u: seq<byte>)
    requires c.q.state == RequestStart(ReqSpacesBeforeUrl) && HeaderRoom(cfg, c.q, |u|) && u != []
    requires ' ' !in u && CR !in u && LF !in u && Run(cfg, c, u).q.errno == OK
    ensures StateAt(u, c.q.verb == CONNECT, |u|).Target?
    decreases |u|
  {
    hide Run, Advance, ParseUrlChar;
    var n, isConnect := |u| - 1, c.q.verb == CONNECT;
    assert u == u[..n] + [u[n]];
    StateBefore(u, isConnect);
    OkBefore(cfg, c, u[..n], [u[n]]);
    RunOne(cfg, Run(cfg, c, u[..n]), u[n]);
    if n == 0 {
      assert u[..0] == [];
      RunNothing(cfg, c);
      UrlStarts(cfg, c, u[0]);
    } else {
      TargetBack(cfg, c, u[..n]);
      TargetRun(cfg, c, u[..n], isConnect, n);
      assert u[..n][..n] == u[..n];
      UrlGoesOn(cfg, Run(cfg, c, u[..n]), u[n]);
    }
  }

  lemma StateBefore(u: seq<byte>, isConnect: bool)
    requires u != []
    ensures StateAt(u, isConnect, |u|) == ParseUrlChar(StateAt(u[..|u| - 1], isConnect, |u| - 1), u[|u| - 1])
  {
    hide ParseUrlChar;
    StateOfPrefix(u, isConnect, |u| - 1, |u| - 1);
  }

  lemma AlmostDone(cfg: Settings, c: Conf, ch: byte)
    requires c.q.state == Version(ReqLineAlmostDone) && HeaderRoom(cfg, c.q, 1) && ch != LF
    ensures Advance(cfg, c, ch).q.errno != OK
  {
    hide Advance;
    VersionByte(cfg, c, ch);
  }

  /** What may follow a target up to the line feed. */
  lemma EndingOrigin(cfg: Settings, c: Conf, v: seq<byte>) returns (x: Ending)
    requires c.q.state.Target? && HeaderRoom(cfg, c.q, |v| + 1) && LF !in v && (v == [] || v[0] == ' ' || v[0] == CR)
    requires Run(cfg, c, v + [LF]).q.errno == OK
    ensures v + [LF] == EndingText(x) && EndingFits(x, c.q.verb) && UrlMayEnd(c.q.state)
  {
    hide Run, Advance, VersionLine, UrlMayEnd;
    var first, rest := (v + [LF])[0], (v + [LF])[1..];
    assert v + [LF] == [first] + rest;
    OkBefore(cfg, c, [first], rest);
    RunOne(cfg, c, first);
    UrlGoesOn(cfg, c, first);
    if v == [] {
      x := Bare(false);
    } else if v[0] == CR {
      LineEndsUrl(cfg, c, CR);
      if |v| > 1 {
        assert rest == [v[1]] + rest[1..];
        OkBefore(cfg, Advance(cfg, c, CR), [v[1]], rest[1..]);
        RunOne(cfg, Advance(cfg, c, CR), v[1]);
        AlmostDone(cfg, Advance(cfg, c, CR), v[1]);
      }
      x := Bare(true);
      assert v == [CR];
    } else {
      BlankEndsUrl(cfg, c);
      assert rest == v[1..] + [LF];
      var k, ice, d, e, cr := VersionOrigin(cfg, Advance(cfg, c, ' '), v[1..]);
      x := Versioned(k, ice, d, e, cr);
    }
  }

  lemma UrlNotEmpty(cfg: Settings, c: Conf, v: seq<byte>)
    requires c.q.state == RequestStart(ReqSpacesBeforeUrl) && HeaderRoom(cfg, c.q, |v| + 1)
    requires v == [] || v[0] == CR
    ensures Run(cfg, c, v + [LF]).q.errno != OK
  {
    hide Run, Advance, ParseUrlChar;
    var first, rest := (v + [LF])[0], (v + [LF])[1..];
    assert v + [LF] == [first] + rest;
    if Run(cfg, c, v + [LF]).q.errno == OK {
      OkBefore(cfg, c, [first], rest);
      RunOne(cfg, c, first);
      UrlStarts(cfg, c, first);
      NotBlank(FirstState(c.q.verb == CONNECT), first);
    }
  }

  lemma RestOrigin(cfg: Settings, c: Conf, v: seq<byte>) returns (j: nat, u: seq<byte>, x: Ending)
    requires c.q.state == RequestStart(ReqSpacesBeforeUrl) && HeaderRoom(cfg, c.q, |v| + 1) && LF !in v
    requires Run(cfg, c, v + [LF]).q.errno == OK
    ensures v + [LF] == (Spaces(j) + u) + EndingText(x) && TargetFits(u, c.q.verb) && EndingFits(x, c.q.verb)
  {
    hide Run, Advance, ParseUrlChar, StateAt, UrlMayEnd, EndingText, EndingFits;
    j := LeadingBlanks(v);
    var v1 := v[j..];
    assert v + [LF] == Spaces(j) + (v1 + [LF]);
    OkBefore(cfg, c, Spaces(j), v1 + [LF]);
    BlanksBefore(cfg, c, j);
    var c1 := Run(cfg, c, Spaces(j));
    var k := Upto(v1);
    if k == 0 { UrlNotEmpty(cfg, c1, v1); }
    u := v1[..k];
    var v2 := v1[k..];
    assert v1 + [LF] == u + (v2 + [LF]);
    OkBefore(cfg, c1, u, v2 + [LF]);
    TargetBack(cfg, c1, u);
    TargetRun(cfg, c1, u, c.q.verb == CONNECT, |u|);
    assert u[..|u|] == u;
    x := EndingOrigin(cfg, Run(cfg, c1, u), v2);
    assert v + [LF] == (Spaces(j) + u) + (v2 + [LF]);
  }

  lemma RequestOrigin(cfg: Settings, c: Conf, w: seq<byte>) returns (m: Method, j: nat, u: seq<byte>, x: Ending)
    requires c.q.state == Start(StartReq) && HeaderRoom(cfg, c.q, |w| + 1) && w != [] && w[0] != CR && LF !in w
    requires Run(cfg, c, w + [LF]).q.errno == OK
    ensures w + [LF] == RequestText(m, j, u, x) && TargetFits(u, m) && EndingFits(x, m)
  {
    hide Run, RequestText, TargetFits, EndingFits, EndingText, Name;
    var rest;
    m, rest := MethodOrigin(cfg, c, w);
    var name := Name(m) + [' '];
    assert w + [LF] == name + (rest + [LF]);
    OkBefore(cfg, c, name, rest + [LF]);
    MethodNameRun(cfg, c, m);
    j, u, x := RestOrigin(cfg, Run(cfg, c, name), rest);
    RequestIs(m, j, u, x);
  }

  /** Where only a request may begin, a text up to its line feed is read without an error exactly if it is a
      request line. */
  lemma RequestExact(cfg: Settings, c: Conf, w: seq<byte>)
    requires c.q.state == Start(StartReq) && c.q.typ == Request && HeaderRoom(cfg, c.q, |w| + 1)
    requires w != [] && w[0] != CR && LF !in w
    ensures Run(cfg, c, w + [LF]).q.errno == OK <==>
              exists m, j, u, x :: w + [LF] == RequestText(m, j, u, x) && TargetFits(u, m) && EndingFits(x, m)
  {
    hide Run, RequestText, TargetFits, EndingFits, EndingText, Name;
    if Run(cfg, c, w + [LF]).q.errno == OK {
      var m, j, u, x := RequestOrigin(cfg, c, w);
    }
    forall m, j, u, x | w + [LF] == RequestText(m, j, u, x) && TargetFits(u, m) && EndingFits(x, m)
      ensures Run(cfg, c, w + [LF]).q.errno == OK
    {
      RequestRun(cfg, c, m, j, u, x);
      RequestedOk(c.q, m, j, u, x);
    }
  }

  lemma RequestIs(m: Method, j: nat, u: seq<byte>, x: Ending)
    ensures RequestText(m, j, u, x) == (Name(m) + [' ']) + ((Spaces(j) + u) + EndingText(x))
  {
    hide Name, EndingText;
  }

  lemma RequestedOk(q: Parser, m: Method, j: nat, u: seq<byte>, x: Ending)
    requires q.errno == OK && EndingFits(x, m)
    ensures Requested(q, m, j, u, x).errno == OK
  {
  }
}
