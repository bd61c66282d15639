/** Every header block that is read to its end consists of header lines: the converse of reading them. */
module HttpBlockOrigins {
  import opened Common
  import opened HttpTypes
  import opened HttpStep
  import opened HttpRun
  import opened HttpInvariant
  import opened HttpNames
  import opened HttpValues
  import opened HttpVersions
  import opened HttpLines
  import opened HttpBlocks
  import opened HttpHeads

  /** The text w is read without an error, and its last byte is the first that leaves the header block. */
  ghost predicate Leaves(cfg: Settings, c: Conf, w: seq<byte>) {
    && HeaderRoom(cfg, c.q, |w|) && Run(cfg, c, w).q.errno == OK && !Run(cfg, c, w).q.state.Header?
    && forall i :: 0 <= i < |w| ==> Run(cfg, c, w[..i]).q.state.Header?
  }

  lemma LeavesBehind(cfg: Settings, c: Conf, a: seq<byte>, b: seq<byte>)
    requires Leaves(cfg, c, a + b)
    ensures Run(cfg, c, a).q.errno == OK
    ensures b != [] ==> Run(cfg, c, a).q.state.Header?
    ensures Run(cfg, c, a).q.state.Header? ==> b != []
    ensures Run(cfg, c, a).q.state.Header? && Run(cfg, c, a).q.nread == c.q.nread + |a|
            ==> Leaves(cfg, Run(cfg, c, a), b)
  {
    hide Run;
    var w := a + b;
    OkBefore(cfg, c, a, b);
    assert w[..|a|] == a && (b == [] ==> w == a);
    forall i | 0 <= i < |b| ensures Run(cfg, Run(cfg, c, a), b[..i]).q.state.Header? {
      assert w[..|a| + i] == a + b[..i];
      RunConcat(cfg, c, a, b[..i]);
    }
  }

  // ------------------------------------------------------------------ one byte

  lemma EndLeaves(cfg: Settings, q: Parser)
    ensures OnHeadersAlmostDone(cfg, q, LF).q.errno == OK ==> !OnHeadersAlmostDone(cfg, q, LF).q.state.Header?
  {
    hide ShouldKeepAlive, NeedsEof, HasBody;
  }

  /** Where a line may begin: the empty line, or a name. */
  lemma LineBegins(cfg: Settings, c: Conf, ch: byte)
    requires HeaderMayStart(c.q) && HeaderRoom(cfg, c.q, 1) && Advance(cfg, c, ch).q.errno == OK && !IsBlank(ch)
    ensures ch == LF ==> !Advance(cfg, c, ch).q.state.Header?
    ensures ch == CR ==> Advance(cfg, c, ch).q.state == Header(HeadersAlmostDone)
    ensures ch != CR && ch != LF ==> IsToken(ch)
  {
    hide FeedAll, ByteEvents, OnHeadersAlmostDone, FinishHeader, FieldStartState;
    AdvanceRegisters(cfg, c, ch);
    var q1 := LineRegisters(Count(c.q, 1));
    EndLeaves(cfg, q1.(state := Header(HeadersAlmostDone)));
  }

  lemma AlmostLeaves(cfg: Settings, c: Conf, ch: byte)
    requires c.q.state == Header(HeadersAlmostDone) && HeaderRoom(cfg, c.q, 1) && Advance(cfg, c, ch).q.errno == OK
    ensures ch == LF && !Advance(cfg, c, ch).q.state.Header?
  {
    hide FeedAll, ByteEvents, OnHeadersAlmostDone;
    AdvanceRegisters(cfg, c, ch);
    EndLeaves(cfg, Count(c.q, 1));
    OnlyLineFeed(cfg, Count(c.q, 1), ch);
  }

  lemma OnlyLineFeed(cfg: Settings, q: Parser, ch: byte)
    ensures ch != LF ==> OnHeadersAlmostDone(cfg, q, ch).q.errno != OK
  {
  }

  lemma BehindName(cfg: Settings, c: Conf, ch: byte)
    requires c.q.state == Header(HeaderField) && HeaderRoom(cfg, c.q, 1) && Advance(cfg, c, ch).q.errno == OK
    requires !IsToken(ch)
    ensures ch == ':'
  {
    hide FeedAll, ByteEvents, FieldState, FieldIndex, Token;
    AdvanceRegisters(cfg, c, ch);
  }

  lemma BehindReturn(cfg: Settings, c: Conf, ch: byte)
    requires c.q.state == Header(HeaderValueDiscardWsAlmostDone) || c.q.state == Header(HeaderAlmostDone)
    requires HeaderRoom(cfg, c.q, 1) && Advance(cfg, c, ch).q.errno == OK
    ensures ch == LF
  {
    hide FeedAll, ByteEvents;
    AdvanceRegisters(cfg, c, ch);
  }

  lemma InText(cfg: Settings, c: Conf, ch: byte)
    requires c.q.state == Header(HeaderValue) && HeaderRoom(cfg, c.q, 1) && Advance(cfg, c, ch).q.errno == OK
    requires ch != CR && ch != LF
    ensures PlainByte(cfg, ch)
  {
    hide FeedAll, ByteEvents, OnValueChar;
    AdvanceRegisters(cfg, c, ch);
  }

  /** A line that declares no length may be followed by another. */
  lemma SizeMissing(cfg: Settings, c: Conf, ch: byte)
    requires c.q.state == Header(HeaderValueDiscardLws) && HeaderRoom(cfg, c.q, 1)
    requires Advance(cfg, c, ch).q.errno == OK && !IsBlank(ch)
    ensures HeaderMayStart(c.q)
  {
    hide FeedAll, ByteEvents, OnFieldStart, FinishHeader;
    AdvanceRegisters(cfg, c, ch);
  }

  // ------------------------------------------------------------------ the name and the gap

  lemma FirstRun(cfg: Settings, c: Conf, w: seq<byte>)
    requires w != [] && Run(cfg, c, w).q.errno == OK
    ensures Advance(cfg, c, w[0]).q.errno == OK && Run(cfg, c, [w[0]]) == Advance(cfg, c, w[0])
  {
    hide Run, Advance;
    assert w == [w[0]] + w[1..];
    OkBefore(cfg, c, [w[0]], w[1..]);
    RunOne(cfg, c, w[0]);
  }

  lemma NameOrigin(cfg: Settings, c: Conf, w: seq<byte>) returns (name: seq<byte>, r: seq<byte>)
    requires HeaderMayStart(c.q) && Leaves(cfg, c, w) && w != []
    requires !IsBlank(w[0]) && w[0] != CR && w[0] != LF
    ensures w == (name + [':']) + r && name != [] && Tokens(name)
    ensures var d := Run(cfg, c, name + [':']);
            Leaves(cfg, d, r) && d.q.state == Header(HeaderValueDiscardWs) && d.q.nread == c.q.nread + |name| + 1
  {
    hide Run, Advance, HeaderMayStart, Token, Front, NameMachine, Class, LowerName, LineConf;
    FirstRun(cfg, c, w);
    LineBegins(cfg, c, w[0]);
    var n := Front(w, IsToken);
    FrontPositive(w, IsToken);
    name := w[..n];
    var rest := w[n..];
    CutAt([], w, n);
    NameTrace(cfg, c, name);
    RegistersOf(c);
    LeavesBehind(cfg, c, name, rest);
    var c1 := Run(cfg, c, name);
    FirstRun(cfg, c1, rest);
    BehindName(cfg, c1, rest[0]);
    r := rest[1..];
    CutHead(name, rest);
    Associates(name, [':'], r);
    NameColon(cfg, c, name);
    LeavesBehind(cfg, c, name + [':'], r);
  }

  /** The longest gap at the front. */
  function GapFront(s: seq<byte>): (n: nat)
    ensures n <= |s|
  {
    if s == [] then 0
    else if IsBlank(s[0]) then 1 + GapFront(s[1..])
    else if s[0] == LF && |s| > 1 && IsBlank(s[1]) then 2 + GapFront(s[2..])
    else if s[0] == CR && |s| > 2 && s[1] == LF && IsBlank(s[2]) then 3 + GapFront(s[3..])
    else 0
  }

  lemma {:induction false} GapFrontFits(s: seq<byte>)
    ensures GapFits(s[..GapFront(s)])
    ensures var r := s[GapFront(s)..]; r != [] ==> !IsBlank(r[0])
    ensures var r := s[GapFront(s)..]; |r| > 1 && r[0] == LF ==> !IsBlank(r[1])
    ensures var r := s[GapFront(s)..]; |r| > 2 && r[0] == CR && r[1] == LF ==> !IsBlank(r[2])
    decreases |s|
  {
    var k := if s == [] then 0 else if IsBlank(s[0]) then 1
             else if s[0] == LF && |s| > 1 && IsBlank(s[1]) then 2
             else if s[0] == CR && |s| > 2 && s[1] == LF && IsBlank(s[2]) then 3 else 0;
    if k > 0 {
      var t, n := s[k..], GapFront(s[k..]);
      GapFrontFits(t);
      assert GapFront(s) == k + n && s[GapFront(s)..] == t[n..];
      GapJoins(s, k, n);
    }
  }

  /** One blank, or a line end and a blank, and a gap behind it. */
  lemma GapJoins(s: seq<byte>, k: nat, n: nat)
    requires k + n <= |s| && GapFits(s[k..][..n])
    requires || (k == 1 && IsBlank(s[0])) || (k == 2 && s[0] == LF && IsBlank(s[1]))
             || (k == 3 && s[0] == CR && s[1] == LF && IsBlank(s[2]))
    ensures GapFits(s[..k + n])
  {
    var g, t := s[..k + n], s[k..][..n];
    forall i | 0 <= i < |g| ensures GapAt(g, i) {
      if i >= k {
        assert g[i] == t[i - k] && GapAt(t, i - k);
        assert i + 1 < |g| ==> g[i + 1] == t[i + 1 - k];
      }
    }
  }

  // ------------------------------------------------------------------ the value

  predicate NoBreak(ch: byte) { ch != CR && ch != LF }

  /** The text up to the next line end holds no forbidden byte. */
  lemma {:induction false} TextOrigin(cfg: Settings, c: Conf, t: seq<byte>)
    requires c.q.state == Header(HeaderValue) && HeaderRoom(cfg, c.q, |t|) && Run(cfg, c, t).q.errno == OK
    requires forall i :: 0 <= i < |t| ==> NoBreak(t[i])
    ensures PlainText(cfg, t) && ValueRead(c, Run(cfg, c, t), t, |t|)
    decreases |t|
  {
    hide Run, Advance, PlainByte, ValueRead;
    if t != [] {
      var n := |t| - 1;
      assert t == t[..n] + [t[n]];
      OkBefore(cfg, c, t[..n], [t[n]]);
      TextOrigin(cfg, c, t[..n]);
      var mid := Run(cfg, c, t[..n]);
      ReadState(c, mid, t[..n], n);
      RunOne(cfg, mid, t[n]);
      InText(cfg, mid, t[n]);
    }
    TextRun(cfg, c, t);
  }

  lemma ReadState(c: Conf, r: Conf, t: seq<byte>, n: nat)
    requires ValueRead(c, r, t, n)
    ensures r.q.errno == OK && r.q.state == Header(HeaderValue) && r.q.nread == c.q.nread + n
  {
    hide Feed;
  }

  /** A line end inside a value, and what follows it. */
  lemma BreakOrigin(cfg: Settings, c: Conf, r: seq<byte>) returns (cr: bool, rest: seq<byte>)
    requires c.q.state == Header(HeaderValue) && Leaves(cfg, c, r) && r != [] && (r[0] == CR || r[0] == LF)
    ensures r == Eol(cr) + rest && rest != []
    ensures var d := Run(cfg, c, Eol(cr));
            Leaves(cfg, d, rest) && d.q == c.q.(state := Header(HeaderValueLws), nread := c.q.nread + |Eol(cr)|)
  {
    hide Run, Advance, Feed;
    FirstRun(cfg, c, r);
    ValueEndByte(cfg, c, r[0]);
    CutHead([], r);
    cr := r[0] == CR;
    if cr {
      LeavesBehind(cfg, c, [CR], r[1..]);
      FirstRun(cfg, Run(cfg, c, [CR]), r[1..]);
      BehindReturn(cfg, Run(cfg, c, [CR]), r[1]);
      rest := r[2..];
      assert r == Eol(true) + rest;
    } else {
      rest := r[1..];
    }
    ValueLineEnds(cfg, c, cr);
    LeavesBehind(cfg, c, Eol(cr), rest);
  }

  /** One continuation: the blank that begins it, and its text up to the next line end. */
  lemma FoldOrigin(cfg: Settings, d: Conf, behind: seq<byte>) returns (t: seq<byte>, later: seq<byte>)
    requires d.q.state == Header(HeaderValueLws) && Leaves(cfg, d, behind) && behind != [] && IsBlank(behind[0])
    ensures behind == ([behind[0]] + t) + later && PlainText(cfg, t)
    ensures later != [] && (later[0] == CR || later[0] == LF)
    ensures var e := Run(cfg, d, [behind[0]] + t);
            Leaves(cfg, e, later) && e.q.state == Header(HeaderValue) && e.q.nread == d.q.nread + 1 + |t|
  {
    hide Run, Advance, Feed, PlainByte, Front, Leaves, ValueRead;
    var n := Front(behind[1..], NoBreak);
    t, later := behind[1..][..n], behind[1..][n..];
    LeavesParts(cfg, d, behind);
    FirstRun(cfg, d, behind);
    FoldByte(cfg, d, behind[0]);
    CutHead([], behind);
    CutAt([behind[0]], behind[1..], n);
    LeavesBehind(cfg, d, [behind[0]], behind[1..]);
    var d1 := Run(cfg, d, [behind[0]]);
    LeavesParts(cfg, d1, behind[1..]);
    LeavesBehind(cfg, d1, t, later);
    TextOrigin(cfg, d1, t);
    ReadState(d1, Run(cfg, d1, t), t, n);
    RunConcat(cfg, d, [behind[0]], t);
    LeavesBehind(cfg, d, [behind[0]] + t, later);
  }

  /** The continuations of a value, and the end of its last line. */
  lemma {:induction false} FoldsOrigin(cfg: Settings, c: Conf, r: seq<byte>)
    returns (fs: seq<Fold>, cr: bool, rest: seq<byte>)
    requires c.q.state == Header(HeaderValue) && Leaves(cfg, c, r) && r != [] && (r[0] == CR || r[0] == LF)
    ensures r == (FoldsText(fs) + Eol(cr)) + rest && FoldsFit(cfg, fs) && rest != [] && !IsBlank(rest[0])
    ensures var d := Run(cfg, c, FoldsText(fs) + Eol(cr));
            Leaves(cfg, d, rest) && d.q.state == Header(HeaderValueLws)
            && d.q.nread == c.q.nread + |FoldsText(fs) + Eol(cr)|
    decreases |r|
  {
    hide Run, PlainByte, Leaves, FoldText, FoldsText;
    var e, behind := BreakOrigin(cfg, c, r);
    if !IsBlank(behind[0]) {
      fs, cr, rest := [], e, behind;
      NoFolds(cr);
    } else {
      var t, later := FoldOrigin(cfg, Run(cfg, c, Eol(e)), behind);
      var f := Fold(e, behind[0], t);
      RunConcat(cfg, c, Eol(e), [behind[0]] + t);
      FoldIs(r, f, behind, later);
      var more;
      more, cr, rest := FoldsOrigin(cfg, Run(cfg, c, FoldText(f)), later);
      fs := [f] + more;
      FoldsAre(f, more, cr, rest);
      RunConcat(cfg, c, FoldText(f), FoldsText(more) + Eol(cr));
      Associates(FoldText(f), FoldsText(more), Eol(cr));
      FoldLength(f);
    }
  }

  lemma NoFolds(cr: bool)
    ensures FoldsText([]) + Eol(cr) == Eol(cr)
  {
  }

  lemma LeavesParts(cfg: Settings, c: Conf, w: seq<byte>)
    requires Leaves(cfg, c, w)
    ensures HeaderRoom(cfg, c.q, |w|) && Run(cfg, c, w).q.errno == OK
  {
    hide Run;
  }

  lemma FoldIs(r: seq<byte>, f: Fold, behind: seq<byte>, later: seq<byte>)
    requires r == Eol(f.cr) + behind && behind == ([f.blank] + f.text) + later
    ensures r == FoldText(f) + later && FoldText(f) == Eol(f.cr) + ([f.blank] + f.text)
    ensures |later| < |r|
  {
    Associates(Eol(f.cr), [f.blank] + f.text, later);
  }

  lemma FoldsAre(f: Fold, more: seq<Fold>, cr: bool, rest: seq<byte>)
    ensures FoldsText([f] + more) == FoldText(f) + FoldsText(more)
    ensures FoldText(f) + ((FoldsText(more) + Eol(cr)) + rest) == (FoldsText([f] + more) + Eol(cr)) + rest
  {
    hide FoldText;
    assert ([f] + more)[1..] == more;
  }

  // ------------------------------------------------------------------ lines

  /** A value that is not empty, its continuations and the end of its last line. */
  lemma ValueOrigin(cfg: Settings, c: Conf, r: seq<byte>)
    returns (v: seq<byte>, fs: seq<Fold>, cr: bool, rest: seq<byte>)
    requires c.q.state == Header(HeaderValueDiscardWs) && Leaves(cfg, c, r) && r != [] && StartsValue(r[0])
    ensures r == ((v + FoldsText(fs)) + Eol(cr)) + rest && PlainValue(cfg, v) && FoldsFit(cfg, fs)
    ensures rest != [] && !IsBlank(rest[0])
    ensures var d := Run(cfg, c, (v + FoldsText(fs)) + Eol(cr)); HeaderMayStart(d.q) && Leaves(cfg, d, rest)
  {
    hide Run, Advance, Feed, PlainByte, Front, Leaves, ValueRead, FoldsText, SameStart;
    var first, n := r[0], Front(r[1..], NoBreak);
    var t, later := r[1..][..n], r[1..][n..];
    LeavesParts(cfg, c, r);
    FirstRun(cfg, c, r);
    FirstOfValue(cfg, c, first);
    CutHead([], r);
    CutAt([first], r[1..], n);
    LeavesBehind(cfg, c, [first], r[1..]);
    var c1 := Run(cfg, c, [first]);
    LeavesParts(cfg, c1, r[1..]);
    LeavesBehind(cfg, c1, t, later);
    TextOrigin(cfg, c1, t);
    ReadState(c1, Run(cfg, c1, t), t, n);
    v := [first] + t;
    PlainFrom(cfg, first, t);
    RunConcat(cfg, c, [first], t);
    fs, cr, rest := FoldsOrigin(cfg, Run(cfg, c1, t), later);
    Associates(v, FoldsText(fs), Eol(cr));
    Associates(v, FoldsText(fs) + Eol(cr), rest);
    RunConcat(cfg, c, v, FoldsText(fs) + Eol(cr));
    LeavesParts(cfg, Run(cfg, c, v + (FoldsText(fs) + Eol(cr))), rest);
  }

  lemma PlainFrom(cfg: Settings, first: byte, t: seq<byte>)
    requires StartsValue(first) && PlainText(cfg, t)
    ensures PlainValue(cfg, [first] + t)
  {
    hide PlainByte;
    var v := [first] + t;
    assert forall i :: 0 < i < |v| ==> v[i] == t[i - 1];
  }

  /** A line end where a value might begin. */
  lemma EmptyOrigin(cfg: Settings, c: Conf, r: seq<byte>) returns (cr: bool, rest: seq<byte>)
    requires c.q.state == Header(HeaderValueDiscardWs) && Leaves(cfg, c, r) && r != [] && (r[0] == CR || r[0] == LF)
    requires |r| > 1 && r[0] == LF ==> !IsBlank(r[1])
    requires |r| > 2 && r[0] == CR && r[1] == LF ==> !IsBlank(r[2])
    ensures r == Eol(cr) + rest && rest != [] && !IsBlank(rest[0])
    ensures var d := Run(cfg, c, Eol(cr)); HeaderMayStart(d.q) && Leaves(cfg, d, rest)
  {
    hide Run, Advance, HeaderMayStart;
    FirstRun(cfg, c, r);
    GapByte(cfg, c, r[0]);
    CutHead([], r);
    cr := r[0] == CR;
    if cr {
      LeavesBehind(cfg, c, [CR], r[1..]);
      FirstRun(cfg, Run(cfg, c, [CR]), r[1..]);
      BehindReturn(cfg, Run(cfg, c, [CR]), r[1]);
      rest := r[2..];
      assert r == Eol(true) + rest;
    } else {
      rest := r[1..];
    }
    EmptyLineEnds(cfg, c, cr);
    LeavesBehind(cfg, c, Eol(cr), rest);
    var d := Run(cfg, c, Eol(cr));
    FirstRun(cfg, d, rest);
    SizeMissing(cfg, d, rest[0]);
  }

  /** A header line that is no empty line. */
  lemma LineOrigin(cfg: Settings, c: Conf, w: seq<byte>) returns (l: Line, rest: seq<byte>)
    requires HeaderMayStart(c.q) && Leaves(cfg, c, w) && w != []
    requires !IsBlank(w[0]) && w[0] != CR && w[0] != LF
    ensures w == LineText(l) + rest && LineFits(cfg, l) && rest != [] && !IsBlank(rest[0])
    ensures var d := Run(cfg, c, LineText(l)); HeaderMayStart(d.q) && Leaves(cfg, d, rest)
  {
    hide Run, Advance, HeaderMayStart, Leaves, Tokens, GapFront, FoldsText, PlainValue, FoldsFit, GapFits;
    var name, r := NameOrigin(cfg, c, w);
    var d := Run(cfg, c, name + [':']);
    var n := GapFront(r);
    var gap, s := r[..n], r[n..];
    GapFrontFits(r);
    CutAt(name + [':'], r, n);
    LeavesParts(cfg, d, r);
    WholeGap(cfg, d, gap);
    GapLeaves(cfg, d, gap, s);
    var e := Run(cfg, d, gap);
    RunConcat(cfg, c, name + [':'], gap);
    var head := (name + [':']) + gap;
    if StartsValue(s[0]) {
      var v, fs, cr;
      v, fs, cr, rest := ValueOrigin(cfg, e, s);
      l := Line(name, gap, v, fs, cr);
      PlainNotEmpty(cfg, v);
      Associates(head, (v + FoldsText(fs)) + Eol(cr), rest);
      RunConcat(cfg, c, head, (v + FoldsText(fs)) + Eol(cr));
    } else {
      var cr;
      cr, rest := EmptyOrigin(cfg, e, s);
      l := Line(name, gap, [], [], cr);
      NoValue(l);
      Associates(head, Eol(cr), rest);
      RunConcat(cfg, c, head, Eol(cr));
    }
  }

  lemma PlainNotEmpty(cfg: Settings, v: seq<byte>)
    requires PlainValue(cfg, v)
    ensures v != []
  {
  }

  lemma GapLeaves(cfg: Settings, d: Conf, gap: seq<byte>, s: seq<byte>)
    requires Leaves(cfg, d, gap + s) && d.q.state == Header(HeaderValueDiscardWs)
    requires Run(cfg, d, gap) == Conf(d.q.(nread := d.q.nread + |gap|), d.trace)
    ensures s != [] && Leaves(cfg, Run(cfg, d, gap), s)
  {
    hide Run;
    LeavesBehind(cfg, d, gap, s);
  }

  // ------------------------------------------------------------------ header blocks

  lemma {:induction false} BlockHead(l: Line, more: seq<Line>)
    ensures BlockText([l] + more) == LineText(l) + BlockText(more)
    decreases |more|
  {
    hide LineText;
    if more == [] {
      assert [l] + more == [l] && [l][..0] == [];
      assert BlockText([l]) == BlockText([]) + LineText(l);
    } else {
      var n := |more| - 1;
      BlockHead(l, more[..n]);
      assert ([l] + more)[..n + 1] == [l] + more[..n];
      Associates(LineText(l), BlockText(more[..n]), LineText(more[n]));
    }
  }

  /** The empty line. */
  lemma EndOrigin(cfg: Settings, c: Conf, w: seq<byte>) returns (cr: bool)
    requires HeaderMayStart(c.q) && Leaves(cfg, c, w) && w != [] && (w[0] == CR || w[0] == LF)
    ensures w == Eol(cr)
  {
    hide Run, Advance, HeaderMayStart;
    FirstRun(cfg, c, w);
    LineBegins(cfg, c, w[0]);
    CutHead([], w);
    cr := w[0] == CR;
    BlockCounts(cfg, c);
    LeavesBehind(cfg, c, [w[0]], w[1..]);
    if cr {
      var d := Run(cfg, c, [CR]);
      FirstRun(cfg, d, w[1..]);
      AlmostLeaves(cfg, d, w[1]);
      assert w == [CR, LF] + w[2..];
      RunNext(cfg, c, [CR], LF);
      assert [CR] + [LF] == [CR, LF];
      LeavesBehind(cfg, c, [CR, LF], w[2..]);
    }
  }

  lemma BlockCounts(cfg: Settings, c: Conf)
    requires HeaderMayStart(c.q) && HeaderRoom(cfg, c.q, 1)
    ensures Advance(cfg, c, CR).q.nread == c.q.nread + 1
  {
    hide FeedAll, ByteEvents, OnHeadersAlmostDone, FinishHeader;
    AdvanceRegisters(cfg, c, CR);
  }

  lemma {:induction false} LinesOrigin(cfg: Settings, c: Conf, w: seq<byte>) returns (ls: seq<Line>, cr: bool)
    requires HeaderMayStart(c.q) && Leaves(cfg, c, w) && w != [] && !IsBlank(w[0])
    ensures w == BlockText(ls) + Eol(cr) && LinesFit(cfg, ls)
    decreases |w|
  {
    hide Run, HeaderMayStart, Leaves, LineText, LineFits;
    if w[0] == CR || w[0] == LF {
      ls := [];
      cr := EndOrigin(cfg, c, w);
      assert [] + Eol(cr) == Eol(cr);
    } else {
      var l, rest := LineOrigin(cfg, c, w);
      LineNotEmpty(cfg, l);
      var more;
      more, cr := LinesOrigin(cfg, Run(cfg, c, LineText(l)), rest);
      ls := [l] + more;
      BlockHead(l, more);
      Associates(LineText(l), BlockText(more), Eol(cr));
    }
  }

  lemma LineNotEmpty(cfg: Settings, l: Line)
    requires LineFits(cfg, l)
    ensures LineText(l) != []
  {
  }

  // ------------------------------------------------------------------ any input

  /** A byte that stays in the header block is counted. */
  lemma HeaderCounts(cfg: Settings, q: Parser, ch: byte)
    requires q.state.Header? && q.state != Header(HeadersDone)
    ensures var out := OnHeader(cfg, q, ch); out.q.errno == OK && out.q.state.Header? ==> out.q.nread == q.nread
  {
    hide OnFieldStart, OnLws, OnDiscardLws, OnDiscardWs, OnValue, OnField, OnHeadersAlmostDone;
    if ch != LF {
      HeaderOnLine(cfg, q, ch);
    } else {
      LineFeedCounts(cfg, q);
      ValueOnLine(cfg, q, LF);
    }
  }

  lemma LineFeedCounts(cfg: Settings, q: Parser)
    ensures !(OnFieldStart(cfg, q, LF).q.errno == OK && OnFieldStart(cfg, q, LF).q.state.Header?)
    ensures !(OnHeadersAlmostDone(cfg, q, LF).q.errno == OK && OnHeadersAlmostDone(cfg, q, LF).q.state.Header?)
    ensures !(OnLws(cfg, q, LF).q.errno == OK && OnLws(cfg, q, LF).q.state.Header?)
    ensures !(OnDiscardLws(cfg, q, LF).q.errno == OK && OnDiscardLws(cfg, q, LF).q.state.Header?)
    ensures OnDiscardWs(q, LF).q.nread == q.nread
  {
    hide OnHeadersAlmostDone, FinishHeader;
    EndLeaves(cfg, q);
    EndLeaves(cfg, q.(state := Header(HeadersAlmostDone)));
    EndLeaves(cfg, q.(flags := FinishHeader(q), state := Header(HeadersAlmostDone)));
  }

  lemma StaysCounted(cfg: Settings, c: Conf, ch: byte)
    requires c.q.errno == OK && c.q.state.Header? && c.q.state != Header(HeadersDone)
    requires c.q.nread <= cfg.maxHeaderSize && cfg.maxHeaderSize + 1 < UINT32_MODULUS
    ensures var r := Advance(cfg, c, ch).q;
            r.errno == OK ==> c.q.nread + 1 <= cfg.maxHeaderSize && (r.state.Header? ==> r.nread == c.q.nread + 1)
  {
    hide FeedAll, ByteEvents, OnHeader;
    AdvanceRegisters(cfg, c, ch);
    HeaderCounts(cfg, Count(c.q, 1), ch);
  }

  /** As long as the input stays in the header block its bytes are counted, and the invariant holds. */
  lemma {:induction false} StaysInRoom(cfg: Settings, c: Conf, w: seq<byte>, i: nat)
    requires Inv(cfg, c.q) && c.q.state.Header? && cfg.maxHeaderSize + 1 < UINT32_MODULUS && i <= |w|
    requires Run(cfg, c, w).q.errno == OK && forall j :: 0 <= j < i ==> Run(cfg, c, w[..j]).q.state.Header?
    ensures Run(cfg, c, w[..i]).q.errno == OK && Inv(cfg, Run(cfg, c, w[..i]).q)
    ensures c.q.nread + i <= cfg.maxHeaderSize
    ensures Run(cfg, c, w[..i]).q.state.Header? ==> Run(cfg, c, w[..i]).q.nread == c.q.nread + i
    decreases i
  {
    hide Run, Advance, Step, StateOk;
    if i == 0 {
      assert w[..0] == [];
      RunNothing(cfg, c);
    } else {
      StaysInRoom(cfg, c, w, i - 1);
      var before := Run(cfg, c, w[..i - 1]);
      RunPrefix(cfg, c, w, i - 1);
      assert w == w[..i] + w[i..];
      OkBefore(cfg, c, w[..i], w[i..]);
      HeaderNotDone(cfg, before.q);
      StaysCounted(cfg, before, w[i - 1]);
      StepSound(cfg, before.q, w[i - 1]);
      AdvanceRegisters(cfg, before, w[i - 1]);
    }
  }

  lemma HeaderNotDone(cfg: Settings, q: Parser)
    requires Inv(cfg, q) && q.state.Header?
    ensures q.state != Header(HeadersDone) && q.errno == OK && q.nread <= cfg.maxHeaderSize
  {
  }

  /** Where the input leaves the header block for the first time. */
  lemma {:induction false} FirstOut(cfg: Settings, c: Conf, w: seq<byte>, k: nat) returns (i: nat)
    requires k <= |w| && !Run(cfg, c, w[..k]).q.state.Header?
    ensures i <= k && !Run(cfg, c, w[..i]).q.state.Header?
    ensures forall j :: 0 <= j < i ==> Run(cfg, c, w[..j]).q.state.Header?
  {
    hide Run;
    i := 0;
    while Run(cfg, c, w[..i]).q.state.Header?
      invariant i <= k && forall j :: 0 <= j < i ==> Run(cfg, c, w[..j]).q.state.Header?
      decreases k - i
    {
      i := i + 1;
    }
  }

  /** For every input from the end of the start line on: when it has left the header block without an error, it
      begins with header lines and an empty line. */
  lemma BlockOrigin(cfg: Settings, c: Conf, x: seq<byte>, k: nat)
    returns (ls: seq<Line>, cr: bool, rest: seq<byte>)
    requires Inv(cfg, c.q) && c.q.state == Header(HeaderFieldStart) && cfg.maxHeaderSize + 1 < UINT32_MODULUS
    requires Run(cfg, c, x).q.errno == OK && k <= |x| && !Run(cfg, c, x[..k]).q.state.Header?
    ensures x == (BlockText(ls) + Eol(cr)) + rest && LinesFit(cfg, ls)
    ensures HeaderRoom(cfg, c.q, |BlockText(ls)| + |Eol(cr)|)
  {
    hide Run, StateOk, LineFits;
    var i := FirstOut(cfg, c, x, k);
    assert x[..0] == [];
    RunNothing(cfg, c);
    assert i > 0;
    StaysInRoom(cfg, c, x, i);
    var w := x[..i];
    forall j | 0 <= j < |w| ensures Run(cfg, c, w[..j]).q.state.Header? {
      assert w[..j] == x[..j];
    }
    assert Leaves(cfg, c, w);
    MayStartHere(c.q);
    FirstRun(cfg, c, w);
    NotBlankFirst(cfg, c, w[0]);
    ls, cr := LinesOrigin(cfg, c, w);
    rest := x[i..];
    CutAt([], x, i);
  }

  lemma MayStartHere(q: Parser)
    requires q.errno == OK && q.state == Header(HeaderFieldStart)
    ensures HeaderMayStart(q)
  {
  }

  lemma NotBlankFirst(cfg: Settings, c: Conf, ch: byte)
    requires c.q.state == Header(HeaderFieldStart) && HeaderRoom(cfg, c.q, 1) && Advance(cfg, c, ch).q.errno == OK
    ensures !IsBlank(ch)
  {
    hide FeedAll, ByteEvents, OnHeadersAlmostDone;
    AdvanceRegisters(cfg, c, ch);
  }
}
