/** A whole header line, with line breaks in front of its value and inside it: what is delivered, and which
    registers it can touch. */
module HttpLines {
  import opened HttpTypes
  import opened HttpStep
  import opened HttpRun
  import opened HttpInvariant
  import opened HttpNames
  import opened HttpValues
  import opened HttpVersions

  /** A value goes on behind a line end if a blank follows. */
  datatype Fold = Fold(cr: bool, blank: byte, text: seq<byte>)

  datatype Line = Line(name: seq<byte>, gap: seq<byte>, value: seq<byte>, folds: seq<Fold>, cr: bool)

  function FoldText(f: Fold): seq<byte> { Eol(f.cr) + ([f.blank] + f.text) }

  function FoldsText(fs: seq<Fold>): seq<byte> {
    if fs == [] then [] else FoldText(fs[0]) + FoldsText(fs[1..])
  }

  function LineText(l: Line): seq<byte> {
    ((l.name + [':']) + l.gap) + ((l.value + FoldsText(l.folds)) + Eol(l.cr))
  }

  /** What is delivered of the continuations: the line ends are not part of the value, the blanks are. */
  function FoldsValue(fs: seq<Fold>): seq<byte> {
    if fs == [] then [] else ([fs[0].blank] + fs[0].text) + FoldsValue(fs[1..])
  }

  predicate IsBlank(ch: byte) { ch == ' ' || ch == TAB }

  /** Blanks between the colon and the value, and line breaks that are followed by a blank. */
  predicate GapFits(g: seq<byte>) { forall i :: 0 <= i < |g| ==> GapAt(g, i) }

  predicate GapAt(g: seq<byte>, i: nat)
    requires i < |g|
  {
    && (IsBlank(g[i]) || g[i] == CR || g[i] == LF)
    && (g[i] == CR ==> i + 1 < |g| && g[i + 1] == LF)
    && (g[i] == LF ==> i + 1 < |g| && IsBlank(g[i + 1]))
  }

  predicate PlainText(cfg: Settings, t: seq<byte>) { forall i :: 0 <= i < |t| ==> PlainByte(cfg, t[i]) }

  predicate FoldsFit(cfg: Settings, fs: seq<Fold>) {
    forall i :: 0 <= i < |fs| ==> IsBlank(fs[i].blank) && PlainText(cfg, fs[i].text)
  }

  /** What a line has to look like for its bytes to be header bytes at all. */
  predicate LineFits(cfg: Settings, l: Line) {
    && l.name != [] && Tokens(l.name) && GapFits(l.gap)
    && (if l.value == [] then l.folds == [] else PlainValue(cfg, l.value) && FoldsFit(cfg, l.folds))
  }

  // ------------------------------------------------------------------ a line may begin

  /** The configuration once the header before, if there is one, has taken effect: an empty value is delivered
      then, and not before. */
  function LineConf(c: Conf): Conf {
    Conf(LineRegisters(c.q),
         if c.q.state == Header(HeaderValueDiscardLws) then Feed(c.trace, Data(Value, [])) else c.trace)
  }

  lemma FirstOfName(cfg: Settings, c: Conf, ch: byte)
    requires HeaderMayStart(c.q) && IsToken(ch) && HeaderRoom(cfg, c.q, 1)
    ensures Advance(cfg, c, ch)
         == Conf(HttpNames.Named(LineConf(c).q, [ch]), Feed(LineConf(c).trace, Data(Field, [ch])))
  {
    hide FieldStartState, FeedAll, Feed, FinishHeader, Token, NameMachine;
    NotLineEnd(ch);
    FirstLetter(cfg, c, ch);
    AdvanceRegisters(cfg, c, ch);
    var q1 := Count(c.q, 1);
    var out := Step(cfg, c.q, ch);
    if c.q.state == Header(HeaderValueDiscardLws) {
      assert out == OnDiscardLws(cfg, q1, ch);
      assert ByteEvents(c.q.state, out, ch) == [Data(Value, [])] + [Data(Field, [ch])];
      FeedAllSnoc(c.trace, [Data(Value, [])], Data(Field, [ch]));
      FeedOne(c.trace, Data(Value, []));
    } else {
      assert ByteEvents(c.q.state, out, ch) == [Data(Field, [ch])];
      FeedOne(c.trace, Data(Field, [ch]));
    }
  }

  lemma NextOfName(cfg: Settings, c: Conf, ch: byte)
    requires c.q.state == Header(HeaderField) && IsToken(ch) && HeaderRoom(cfg, c.q, 1)
    requires Advance(cfg, c, ch).q.errno == OK
    ensures Advance(cfg, c, ch).trace == Feed(c.trace, Data(Field, [ch]))
  {
    hide FieldState, FieldIndex, FeedAll, Feed, Token;
    AdvanceRegisters(cfg, c, ch);
    var out := Step(cfg, c.q, ch);
    assert ByteEvents(c.q.state, out, ch) == [Data(Field, [ch])];
    FeedOne(c.trace, Data(Field, [ch]));
  }

  lemma {:induction false} NameTrace(cfg: Settings, c: Conf, name: seq<byte>)
    requires HeaderMayStart(c.q) && name != [] && Tokens(name) && HeaderRoom(cfg, c.q, |name|)
    ensures Run(cfg, c, name) == Conf(HttpNames.Named(LineConf(c).q, name), Feed(LineConf(c).trace, Data(Field, name)))
    decreases |name|
  {
    hide Advance, NameMachine, Token, Feed, LineConf;
    var n := |name| - 1;
    assert name == name[..n] + [name[n]];
    RegistersOf(c);
    NameRun(cfg, c, name);
    RunPrefix(cfg, c, name, n);
    assert name[..n + 1] == name;
    if n == 0 {
      assert name[..0] == [];
      RunNothing(cfg, c);
      FirstOfName(cfg, c, name[0]);
    } else {
      NameTrace(cfg, c, name[..n]);
      NextOfName(cfg, Run(cfg, c, name[..n]), name[n]);
      FeedSplit(LineConf(c).trace, Field, name[..n], [name[n]]);
    }
  }

  lemma RegistersOf(c: Conf)
    ensures LineConf(c).q == LineRegisters(c.q) && LineRegisters(c.q).errno == c.q.errno
    ensures LineRegisters(c.q).nread == c.q.nread
  {
    hide FinishHeader;
  }

  lemma ColonEnds(cfg: Settings, c: Conf)
    requires c.q.state == Header(HeaderField) && HeaderRoom(cfg, c.q, 1)
    ensures Advance(cfg, c, ':')
         == Conf(c.q.(nread := c.q.nread + 1, state := Header(HeaderValueDiscardWs)), Feed(c.trace, Data(Field, [])))
  {
    hide FieldState, FieldIndex, FeedAll, Feed;
    ColonStep(cfg, c);
    var out := Step(cfg, c.q, ':');
    assert ByteEvents(c.q.state, out, ':') == [Data(Field, [])];
    FeedOne(c.trace, Data(Field, []));
  }

  /** Name and colon: the machine knows which header it is, and the name is delivered whole. */
  lemma NameColon(cfg: Settings, c: Conf, name: seq<byte>)
    requires HeaderMayStart(c.q) && name != [] && Tokens(name) && HeaderRoom(cfg, c.q, |name| + 1)
    ensures Run(cfg, c, name + [':'])
         == Conf(LineConf(c).q.(state := Header(HeaderValueDiscardWs), hstate := Class(LowerName(name)),
                                index := NameMachine(name).index, nread := c.q.nread + |name| + 1),
                 Feed(LineConf(c).trace, Data(Field, name)))
  {
    hide Advance, NameMachine, Class, LowerName, Token, Feed, LineConf;
    RegistersOf(c);
    NameTrace(cfg, c, name);
    NameRecognised(name);
    RunOne(cfg, Run(cfg, c, name), ':');
    RunConcat(cfg, c, name, [':']);
    ColonEnds(cfg, Run(cfg, c, name));
    FeedSplit(LineConf(c).trace, Field, name, []);
    assert name + [] == name;
  }

  // ------------------------------------------------------------------ the gap

  function GapState(g: seq<byte>): State {
    if g == [] || IsBlank(g[|g| - 1]) then Header(HeaderValueDiscardWs)
    else if g[|g| - 1] == CR then Header(HeaderValueDiscardWsAlmostDone)
    else Header(HeaderValueDiscardLws)
  }

  lemma GapByte(cfg: Settings, c: Conf, ch: byte)
    requires HeaderRoom(cfg, c.q, 1)
    ensures c.q.state == Header(HeaderValueDiscardWs) && (IsBlank(ch) || ch == CR || ch == LF) ==>
              Advance(cfg, c, ch) == Conf(c.q.(state := GapState([ch]), nread := c.q.nread + 1), c.trace)
    ensures c.q.state == Header(HeaderValueDiscardWsAlmostDone) && ch == LF ==>
              Advance(cfg, c, ch) == Conf(c.q.(state := GapState([ch]), nread := c.q.nread + 1), c.trace)
    ensures c.q.state == Header(HeaderValueDiscardLws) && IsBlank(ch) ==>
              Advance(cfg, c, ch) == Conf(c.q.(state := GapState([ch]), nread := c.q.nread + 1), c.trace)
  {
    hide Advance, OnValueStart, OnFieldStart;
    if (c.q.state == Header(HeaderValueDiscardWs) && (IsBlank(ch) || ch == CR || ch == LF))
       || (c.q.state == Header(HeaderValueDiscardWsAlmostDone) && ch == LF)
       || (c.q.state == Header(HeaderValueDiscardLws) && IsBlank(ch)) {
      QuietByte(cfg, c, ch);
    }
  }

  lemma {:induction false} GapRun(cfg: Settings, c: Conf, g: seq<byte>, i: nat)
    requires c.q.state == Header(HeaderValueDiscardWs) && GapFits(g) && i <= |g| && HeaderRoom(cfg, c.q, |g|)
    ensures Run(cfg, c, g[..i]) == Conf(c.q.(state := GapState(g[..i]), nread := c.q.nread + i), c.trace)
    decreases i
  {
    hide Advance;
    if i == 0 {
      assert g[..0] == [];
      RunNothing(cfg, c);
    } else {
      GapRun(cfg, c, g, i - 1);
      RunPrefix(cfg, c, g, i - 1);
      assert i >= 2 ==> g[..i - 1][i - 2] == g[i - 2] && GapAt(g, i - 2);
      assert GapAt(g, i - 1);
      GapByte(cfg, Run(cfg, c, g[..i - 1]), g[i - 1]);
    }
  }

  lemma WholeGap(cfg: Settings, c: Conf, g: seq<byte>)
    requires c.q.state == Header(HeaderValueDiscardWs) && GapFits(g) && HeaderRoom(cfg, c.q, |g|)
    ensures Run(cfg, c, g) == Conf(c.q.(nread := c.q.nread + |g|), c.trace)
  {
    hide Run;
    GapRun(cfg, c, g, |g|);
    assert g != [] ==> GapAt(g, |g| - 1);
    assert g[..|g|] == g;
  }

  // ------------------------------------------------------------------ the value

  /** Not in the value of a Content-Length header. */
  predicate NotLength(h: HState) { !h.ContentLength? && !h.ContentLengthNum? && !h.ContentLengthWs? }

  /** A value leaves the registers of the start line alone, and most values the length. */
  predicate SameStart(q: Parser, r: Parser) {
    && r == q.(state := r.state, hstate := r.hstate, index := r.index, nread := r.nread, flags := r.flags,
               contentLength := r.contentLength, errno := r.errno)
    && (NotLength(q.hstate) ==> NotLength(r.hstate) && r.contentLength == q.contentLength)
  }

  lemma ValueStartKeeps(q: Parser, ch: byte)
    ensures SameStart(q, OnValueStart(q, ch).q) && OnValueStart(q, ch).q.nread == q.nread
  {
    hide Lower, OnFirstDigit;
    if q.hstate.ContentLength? {
      FirstDigitKeeps(q.(state := Header(HeaderValue), index := 0), ch);
    }
  }

  lemma FirstDigitKeeps(q: Parser, ch: byte)
    requires q.hstate.ContentLength?
    ensures SameStart(q, OnFirstDigit(q, ch).q) && OnFirstDigit(q, ch).q.nread == q.nread
  {
  }

  lemma MatchKeeps(q: Parser, literal: string, ch: byte, full: HState, miss: HState)
    requires NotLength(q.hstate) && NotLength(full) && NotLength(miss)
    ensures var r := MatchValue(q, literal, ch, full, miss).q; SameStart(q, r) && r.nread == q.nread
  {
  }

  lemma ValueCharKeeps(q: Parser, ch: byte)
    ensures SameStart(q, OnValueChar(q, ch).q) && OnValueChar(q, ch).q.nread == q.nread
  {
    hide MatchValue, PushDecimal, ConnectionFlag, Lower;
    match q.hstate
    case MatchingTransferEncodingChunked => MatchKeeps(q, CHUNKED, ch, TransferEncodingChunked, General);
    case MatchingConnectionKeepAlive => MatchKeeps(q, KEEP_ALIVE, ch, ConnectionKeepAlive, MatchingConnectionToken);
    case MatchingConnectionClose => MatchKeeps(q, CLOSE, ch, ConnectionClose, MatchingConnectionToken);
    case MatchingConnectionUpgrade => MatchKeeps(q, UPGRADE, ch, ConnectionUpgrade, MatchingConnectionToken);
    case _ =>
  }

  lemma FirstOfValue(cfg: Settings, c: Conf, ch: byte)
    requires c.q.state == Header(HeaderValueDiscardWs) && HeaderRoom(cfg, c.q, 1) && StartsValue(ch)
    requires Advance(cfg, c, ch).q.errno == OK
    ensures var r := Advance(cfg, c, ch);
            && r.trace == Feed(c.trace, Data(Value, [ch])) && r.q.state == Header(HeaderValue)
            && SameStart(c.q, r.q) && r.q.nread == c.q.nread + 1
  {
    hide OnValueStart, Feed, FeedAll, SameStart;
    FirstByte(cfg, c, ch);
    AdvanceRegisters(cfg, c, ch);
    var q1 := Count(c.q, 1);
    var out := Step(cfg, c.q, ch);
    assert out == OnValueStart(q1, ch);
    ValueStartBegins(q1, ch);
    ValueStartKeeps(q1, ch);
    CountSame(c.q, out.q);
    assert ByteEvents(c.q.state, out, ch) == [Data(Value, [ch])];
    FeedOne(c.trace, Data(Value, [ch]));
  }

  lemma CountSame(q: Parser, r: Parser)
    requires SameStart(Count(q, 1), r)
    ensures SameStart(q, r)
  {
  }

  lemma NextOfValue(cfg: Settings, c: Conf, ch: byte)
    requires c.q.state == Header(HeaderValue) && HeaderRoom(cfg, c.q, 1) && PlainByte(cfg, ch)
    requires Advance(cfg, c, ch).q.errno == OK
    ensures var r := Advance(cfg, c, ch);
            && r.trace == Feed(c.trace, Data(Value, [ch])) && r.q.state == Header(HeaderValue)
            && SameStart(c.q, r.q) && r.q.nread == c.q.nread + 1
  {
    hide OnValueChar, Feed, FeedAll, SameStart;
    NextByte(cfg, c, ch);
    AdvanceRegisters(cfg, c, ch);
    var q1 := Count(c.q, 1);
    var out := Step(cfg, c.q, ch);
    assert out == OnValueChar(q1, ch);
    ValueCharStays(q1, ch);
    ValueCharKeeps(q1, ch);
    CountSame(c.q, out.q);
    assert ByteEvents(c.q.state, out, ch) == [Data(Value, [ch])];
    FeedOne(c.trace, Data(Value, [ch]));
  }

  /** After the bytes of a value, read without an error: they are delivered, and the start line is untouched. */
  predicate ValueRead(c: Conf, r: Conf, t: seq<byte>, n: nat) {
    && r.q.errno == OK && r.q.state == Header(HeaderValue) && SameStart(c.q, r.q) && r.q.nread == c.q.nread + n
    && Feed(r.trace, Data(Value, [])) == Feed(c.trace, Data(Value, t))
  }

  lemma Delivered(t: seq<Event>, u: seq<Event>, v: seq<byte>, w: seq<byte>)
    requires Feed(u, Data(Value, [])) == Feed(t, Data(Value, v))
    ensures Feed(u, Data(Value, w)) == Feed(t, Data(Value, v + w))
  {
    hide Feed;
    FeedSplit(u, Value, [], w);
    FeedSplit(t, Value, v, w);
    assert [] + w == w;
  }

  lemma OneDelivered(t: seq<Event>, v: seq<byte>)
    ensures Feed(Feed(t, Data(Value, v)), Data(Value, [])) == Feed(t, Data(Value, v))
  {
    hide Feed;
    FeedSplit(t, Value, v, []);
    assert v + [] == v;
  }

  lemma SameTwice(a: Parser, b: Parser, c: Parser)
    requires SameStart(a, b) && SameStart(b, c)
    ensures SameStart(a, c)
  {
  }

  /** More bytes of a value. */
  lemma {:induction false} TextRun(cfg: Settings, c: Conf, t: seq<byte>)
    requires c.q.state == Header(HeaderValue) && HeaderRoom(cfg, c.q, |t|) && PlainText(cfg, t)
    requires Run(cfg, c, t).q.errno == OK
    ensures ValueRead(c, Run(cfg, c, t), t, |t|)
    decreases |t|
  {
    hide Advance, Feed, PlainByte, SameStart;
    if t == [] {
      RunNothing(cfg, c);
      SameAsItself(c.q);
    } else {
      var n := |t| - 1;
      assert t == t[..n] + [t[n]];
      OkBefore(cfg, c, t[..n], [t[n]]);
      TextRun(cfg, c, t[..n]);
      var mid := Run(cfg, c, t[..n]);
      RunOne(cfg, mid, t[n]);
      NextOfValue(cfg, mid, t[n]);
      SameTwice(c.q, mid.q, Run(cfg, c, t).q);
      Delivered(c.trace, mid.trace, t[..n], [t[n]]);
      OneDelivered(mid.trace, [t[n]]);
    }
  }

  lemma SameAsItself(q: Parser)
    ensures SameStart(q, q)
  {
  }

  /** The value up to its first line end. */
  lemma ValueRun(cfg: Settings, c: Conf, v: seq<byte>)
    requires c.q.state == Header(HeaderValueDiscardWs) && HeaderRoom(cfg, c.q, |v|) && PlainValue(cfg, v)
    requires Run(cfg, c, v).q.errno == OK
    ensures ValueRead(c, Run(cfg, c, v), v, |v|)
  {
    hide Run, Advance, Feed, PlainByte, SameStart;
    var first, rest := v[0], v[1..];
    assert v == [first] + rest;
    assert PlainText(cfg, rest);
    OkBefore(cfg, c, [first], rest);
    RunOne(cfg, c, first);
    FirstOfValue(cfg, c, first);
    var c1 := Advance(cfg, c, first);
    TextRun(cfg, c1, rest);
    SameTwice(c.q, c1.q, Run(cfg, c1, rest).q);
    FeedSplit(c.trace, Value, [first], rest);
  }

  // ------------------------------------------------------------------ line ends

  /** The end of a value's line: what has been collected is delivered. */
  lemma ValueLineEnds(cfg: Settings, c: Conf, cr: bool)
    requires c.q.state == Header(HeaderValue) && HeaderRoom(cfg, c.q, |Eol(cr)|)
    ensures Run(cfg, c, Eol(cr))
         == Conf(c.q.(state := Header(HeaderValueLws), nread := c.q.nread + |Eol(cr)|), Feed(c.trace, Data(Value, [])))
  {
    hide Run, Advance, Feed;
    RunNothing(cfg, c);
    ValueEndByte(cfg, c, if cr then CR else LF);
    RunNext(cfg, c, [], if cr then CR else LF);
    if cr {
      QuietByte(cfg, Advance(cfg, c, CR), LF);
      RunNext(cfg, c, [CR], LF);
      assert [] + [CR] == [CR] && [CR] + [LF] == Eol(cr);
    } else {
      assert [] + [LF] == Eol(cr);
    }
  }

  lemma ValueEndByte(cfg: Settings, c: Conf, ch: byte)
    requires c.q.state == Header(HeaderValue) && HeaderRoom(cfg, c.q, 1) && (ch == CR || ch == LF)
    ensures Advance(cfg, c, ch)
         == Conf(c.q.(state := Header(if ch == CR then HeaderAlmostDone else HeaderValueLws), nread := c.q.nread + 1),
                 Feed(c.trace, Data(Value, [])))
  {
    hide Feed, FeedAll, OnValueChar;
    var out := Step(cfg, c.q, ch);
    assert ByteEvents(c.q.state, out, ch) == [Data(Value, [])];
    FeedOne(c.trace, Data(Value, []));
  }

  /** A header whose value is empty. */
  lemma EmptyLineEnds(cfg: Settings, c: Conf, cr: bool)
    requires c.q.state == Header(HeaderValueDiscardWs) && HeaderRoom(cfg, c.q, |Eol(cr)|)
    ensures Run(cfg, c, Eol(cr))
         == Conf(c.q.(state := Header(HeaderValueDiscardLws), nread := c.q.nread + |Eol(cr)|), c.trace)
  {
    hide Run, Advance;
    RunNothing(cfg, c);
    GapByte(cfg, c, if cr then CR else LF);
    RunNext(cfg, c, [], if cr then CR else LF);
    if cr {
      GapByte(cfg, Advance(cfg, c, CR), LF);
      RunNext(cfg, c, [CR], LF);
      assert [] + [CR] == [CR] && [CR] + [LF] == Eol(cr);
    } else {
      assert [] + [LF] == Eol(cr);
    }
  }

  /** The blank that continues a value. */
  lemma FoldByte(cfg: Settings, c: Conf, ch: byte)
    requires c.q.state == Header(HeaderValueLws) && HeaderRoom(cfg, c.q, 1) && IsBlank(ch)
    requires Advance(cfg, c, ch).q.errno == OK
    ensures var r := Advance(cfg, c, ch);
            && r.trace == Feed(c.trace, Data(Value, [ch])) && r.q.state == Header(HeaderValue)
            && SameStart(c.q, r.q) && r.q.nread == c.q.nread + 1
  {
    hide OnValueStart, Feed, FeedAll, SameStart;
    AdvanceRegisters(cfg, c, ch);
    var q1 := Count(c.q, 1).(state := Header(HeaderValueStart),
                             hstate := if c.q.hstate.ContentLengthNum? then ContentLengthWs else c.q.hstate);
    var out := Step(cfg, c.q, ch);
    assert out == OnValueStart(q1, ch);
    ValueStartBegins(q1, ch);
    ValueStartKeeps(q1, ch);
    SameButState(c.q, q1, out.q);
    assert ByteEvents(c.q.state, out, ch) == [Data(Value, [ch])];
    FeedOne(c.trace, Data(Value, [ch]));
  }

  lemma SameButState(q: Parser, q1: Parser, r: Parser)
    requires q1 == Count(q, 1).(state := q1.state,
                                hstate := if q.hstate.ContentLengthNum? then ContentLengthWs else q.hstate)
    requires SameStart(q1, r)
    ensures SameStart(q, r)
  {
  }

  lemma OneFold(cfg: Settings, c: Conf, f: Fold)
    requires c.q.state == Header(HeaderValue) && HeaderRoom(cfg, c.q, |FoldText(f)|)
    requires IsBlank(f.blank) && PlainText(cfg, f.text) && Run(cfg, c, FoldText(f)).q.errno == OK
    ensures ValueRead(c, Run(cfg, c, FoldText(f)), [f.blank] + f.text, |FoldText(f)|)
  {
    hide Run, Advance, Feed, PlainByte, SameStart;
    OkBefore(cfg, c, Eol(f.cr), [f.blank] + f.text);
    ValueLineEnds(cfg, c, f.cr);
    var c1 := Run(cfg, c, Eol(f.cr));
    OkBefore(cfg, c1, [f.blank], f.text);
    RunOne(cfg, c1, f.blank);
    FoldByte(cfg, c1, f.blank);
    var c2 := Advance(cfg, c1, f.blank);
    TextRun(cfg, c2, f.text);
    SameTwice(c1.q, c2.q, Run(cfg, c2, f.text).q);
    LineEndSame(c.q, c1.q, Run(cfg, c2, f.text).q);
    OneDelivered(c1.trace, [f.blank]);
    FeedSplit(c1.trace, Value, [f.blank], f.text);
    FeedSplit(c.trace, Value, [], [f.blank] + f.text);
    assert [] + ([f.blank] + f.text) == [f.blank] + f.text;
  }

  lemma LineEndSame(q: Parser, q1: Parser, r: Parser)
    requires q1 == q.(state := q1.state, nread := q1.nread) && SameStart(q1, r)
    ensures SameStart(q, r)
  {
  }

  lemma {:induction false} FoldsRun(cfg: Settings, c: Conf, fs: seq<Fold>)
    requires c.q.state == Header(HeaderValue) && HeaderRoom(cfg, c.q, |FoldsText(fs)|) && FoldsFit(cfg, fs)
    requires Run(cfg, c, FoldsText(fs)).q.errno == OK
    ensures ValueRead(c, Run(cfg, c, FoldsText(fs)), FoldsValue(fs), |FoldsText(fs)|)
    decreases |fs|
  {
    hide Run, Feed, SameStart, FoldText, PlainText;
    if fs == [] {
      RunNothing(cfg, c);
      SameAsItself(c.q);
    } else {
      OkBefore(cfg, c, FoldText(fs[0]), FoldsText(fs[1..]));
      OneFold(cfg, c, fs[0]);
      var c1 := Run(cfg, c, FoldText(fs[0]));
      FoldsRun(cfg, c1, fs[1..]);
      SameTwice(c.q, c1.q, Run(cfg, c1, FoldsText(fs[1..])).q);
      Delivered(c.trace, c1.trace, [fs[0].blank] + fs[0].text, FoldsValue(fs[1..]));
    }
  }
}
