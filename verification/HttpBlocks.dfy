/** Header blocks: what a list of header lines leaves in the registers, told by the lines alone. */
module HttpBlocks {
  import opened HttpTypes
  import opened HttpStep
  import opened HttpRun
  import opened HttpInvariant
  import opened HttpLength
  import opened HttpNames
  import opened HttpValues
  import opened HttpVersions
  import opened HttpLines

  // ------------------------------------------------------------------ what a line says

  predicate ConnectionName(name: seq<byte>) {
    LowerName(name) == CONNECTION || LowerName(name) == PROXY_CONNECTION
  }

  /** The items of a Connection value that count, and how many of them: behind a comma the list goes on over a line
      end; elsewhere the item in front of the line end is not counted, and no later one is. */
  function Counted(v: seq<byte>, fs: seq<Fold>): (r: (seq<seq<byte>>, nat))
    ensures r.1 <= |r.0|
    decreases |fs|
  {
    if fs == [] then (Split(v), |Split(v)|)
    else if AtComma(v) then Counted(v + fs[0].text, fs[1..])
    else (Split(v), |Split(v)| - 1)
  }

  /** A Connection line with an item that is the keyword and that the parser meets openly. */
  ghost predicate Says(l: Line, keyword: string) {
    && ConnectionName(l.name) && l.value != []
    && Met(Counted(l.value, l.folds).0, Counted(l.value, l.folds).1, keyword)
  }

  predicate SaysChunked(l: Line) {
    LowerName(l.name) == TRANSFER_ENCODING && l.value != [] && l.folds == [] && Is(l.value, CHUNKED)
  }

  predicate SaysUpgrade(l: Line) { LowerName(l.name) == UPGRADE && l.value != [] }

  predicate SizeName(name: seq<byte>) { LowerName(name) == CONTENT_LENGTH }

  /** The flags that one line adds. */
  ghost predicate Adds(f: Flags, l: Line, g: Flags) {
    && (g.keepAlive <==> f.keepAlive || Says(l, KEEP_ALIVE))
    && (g.close <==> f.close || Says(l, CLOSE))
    && (g.connectionUpgrade <==> f.connectionUpgrade || Says(l, UPGRADE))
    && (g.chunked <==> f.chunked || SaysChunked(l))
    && (g.upgrade <==> f.upgrade || SaysUpgrade(l))
    && (g.contentLength <==> f.contentLength || SizeName(l.name))
    && g.trailing == f.trailing && g.skipBody == f.skipBody
  }

  // ------------------------------------------------------------------ values without a meaning

  lemma FoldGeneral(cfg: Settings, c: Conf, f: Fold)
    requires c.q.state == Header(HeaderValue) && WordState(c.q.hstate) && HeaderRoom(cfg, c.q, |FoldText(f)|)
    requires IsBlank(f.blank) && PlainText(cfg, f.text)
    ensures var d := Run(cfg, c, Eol(f.cr) + [f.blank]);
            && d.q == c.q.(nread := c.q.nread + |Eol(f.cr)| + 1, index := 0, hstate := FoldState(c.q.hstate))
            && Run(cfg, c, FoldText(f)) == Run(cfg, d, f.text)
  {
    hide Run, Advance, PlainByte, WordState, FoldState;
    ValueLineEnds(cfg, c, f.cr);
    var c1 := Run(cfg, c, Eol(f.cr));
    FoldBlank(cfg, c1, f.blank);
    RunOne(cfg, c1, f.blank);
    RunConcat(cfg, c, Eol(f.cr), [f.blank]);
    RunConcat(cfg, c, Eol(f.cr) + [f.blank], f.text);
    assert FoldText(f) == (Eol(f.cr) + [f.blank]) + f.text;
  }

  /** A machine that has given up stays so over all continuations. */
  lemma {:induction false} GeneralFolds(cfg: Settings, c: Conf, fs: seq<Fold>)
    requires c.q.state == Header(HeaderValue) && c.q.hstate == General && HeaderRoom(cfg, c.q, |FoldsText(fs)|)
    requires FoldsFit(cfg, fs)
    ensures var r := Run(cfg, c, FoldsText(fs)).q;
            r.errno == OK && r.hstate == General && r.flags == c.q.flags
    decreases |fs|
  {
    hide Run, PlainByte, FoldText;
    if fs == [] {
      RunNothing(cfg, c);
    } else {
      FoldGeneral(cfg, c, fs[0]);
      FoldLength(fs[0]);
      var d := Run(cfg, c, Eol(fs[0].cr) + [fs[0].blank]);
      NothingMore(cfg, d, fs[0].text);
      RunConcat(cfg, c, FoldText(fs[0]), FoldsText(fs[1..]));
      GeneralFolds(cfg, Run(cfg, d, fs[0].text), fs[1..]);
    }
  }

  lemma FoldLength(f: Fold)
    ensures |FoldText(f)| == |Eol(f.cr)| + 1 + |f.text|
  {
  }

  lemma GeneralValue(cfg: Settings, c: Conf, v: seq<byte>, fs: seq<Fold>)
    requires c.q.state == Header(HeaderValueDiscardWs) && PlainValue(cfg, v) && FoldsFit(cfg, fs)
    requires NameState(c.q.hstate) && !c.q.hstate.Connection? && !c.q.hstate.TransferEncoding?
    requires !c.q.hstate.ContentLength?
    requires HeaderRoom(cfg, c.q, |v + FoldsText(fs)|)
    ensures var r := Run(cfg, c, v + FoldsText(fs)).q;
            && r.errno == OK
            && FinishHeader(r) == if c.q.hstate.Upgrade? then c.q.flags.(upgrade := true) else c.q.flags
  {
    hide Run, Advance, PlainByte, OnValueStart;
    var first, rest := v[0], v[1..];
    assert v == [first] + rest;
    HttpValues.FirstByte(cfg, c, first);
    GeneralStarts(Count(c.q, 1), first);
    RunOne(cfg, c, first);
    RunConcat(cfg, c, [first], rest);
    var c1 := Advance(cfg, c, first);
    NothingMore(cfg, c1, rest);
    RunConcat(cfg, c, v, FoldsText(fs));
    GeneralFolds(cfg, Run(cfg, c1, rest), fs);
  }

  lemma GeneralStarts(q: Parser, ch: byte)
    requires NameState(q.hstate) && !q.hstate.Connection? && !q.hstate.TransferEncoding? && !q.hstate.ContentLength?
    ensures OnValueStart(q, ch).q
         == q.(state := Header(HeaderValue), index := 0, hstate := General,
               flags := if q.hstate.Upgrade? then q.flags.(upgrade := true) else q.flags)
  {
  }

  // ------------------------------------------------------------------ Transfer-Encoding

  lemma TransferValue(cfg: Settings, c: Conf, v: seq<byte>, fs: seq<Fold>)
    requires c.q.state == Header(HeaderValueDiscardWs) && PlainValue(cfg, v) && FoldsFit(cfg, fs)
    requires c.q.hstate == TransferEncoding && HeaderRoom(cfg, c.q, |v + FoldsText(fs)|)
    ensures var r := Run(cfg, c, v + FoldsText(fs)).q;
            && r.errno == OK
            && FinishHeader(r) == if fs == [] && Is(v, CHUNKED) then c.q.flags.(chunked := true) else c.q.flags
  {
    hide Run, PlainValue, PlainByte, Is, Unfinished, FoldText;
    RunConcat(cfg, c, v, FoldsText(fs));
    if fs == [] {
      assert v + FoldsText(fs) == v;
      TransferChunked(cfg, c, v);
    } else {
      TransferRun(cfg, c, v);
      var c1 := Run(cfg, c, v);
      FoldLength(fs[0]);
      FoldGeneral(cfg, c1, fs[0]);
      var d := Run(cfg, c1, Eol(fs[0].cr) + [fs[0].blank]);
      NothingMore(cfg, d, fs[0].text);
      RunConcat(cfg, c1, FoldText(fs[0]), FoldsText(fs[1..]));
      GeneralFolds(cfg, Run(cfg, d, fs[0].text), fs[1..]);
    }
  }

  // ------------------------------------------------------------------ Connection

  lemma {:induction false} ConnectionFolds(cfg: Settings, q0: Parser, c: Conf, v: seq<byte>, fs: seq<Fold>)
    requires q0.errno == OK && HttpValues.Follows(q0, c.q, v) && FoldsFit(cfg, fs)
    requires HeaderRoom(cfg, c.q, |FoldsText(fs)|)
    ensures var r := Run(cfg, c, FoldsText(fs)).q;
            r.errno == OK && FinishHeader(r) == MarkAll(q0.flags, Counted(v, fs).0, Counted(v, fs).1)
    decreases |fs|
  {
    hide Run, PlainByte, HttpValues.Follows, AtComma, MarkAll, Split, FinishHeader, FoldText, LastItemLost, FoldState,
         WordState;
    FollowsState(q0, c.q, v);
    if fs == [] {
      RunNothing(cfg, c);
      LastItem(q0, c.q, v);
    } else {
      FollowsWord(q0, c.q, v);
      FollowsComma(q0, c.q, v);
      FoldGeneral(cfg, c, fs[0]);
      FoldLength(fs[0]);
      var d := Run(cfg, c, Eol(fs[0].cr) + [fs[0].blank]);
      FollowsFold(q0, c.q, v, d.q.nread);
      RunConcat(cfg, c, FoldText(fs[0]), FoldsText(fs[1..]));
      var more := Run(cfg, d, fs[0].text);
      if AtComma(v) {
        FollowsRun(cfg, q0, d, v, fs[0].text);
        FollowsState(q0, more.q, v + fs[0].text);
        ConnectionFolds(cfg, q0, more, v + fs[0].text, fs[1..]);
      } else {
        NothingMore(cfg, d, fs[0].text);
        GeneralFolds(cfg, more, fs[1..]);
        LostFlags(q0, d.q, v);
        FinishedGeneral(d.q);
        FinishedGeneral(Run(cfg, c, FoldsText(fs)).q);
      }
    }
  }

  lemma FinishedGeneral(q: Parser)
    ensures q.hstate == General ==> FinishHeader(q) == q.flags
  {
  }

  lemma ConnectionValue(cfg: Settings, c: Conf, v: seq<byte>, fs: seq<Fold>)
    requires c.q.state == Header(HeaderValueDiscardWs) && PlainValue(cfg, v) && FoldsFit(cfg, fs)
    requires c.q.hstate == Connection && HeaderRoom(cfg, c.q, |v + FoldsText(fs)|)
    ensures var r := Run(cfg, c, v + FoldsText(fs)).q;
            && r.errno == OK
            && FinishHeader(r) == MarkAll(c.q.flags, Counted(v, fs).0, Counted(v, fs).1)
  {
    hide Run, PlainValue, PlainByte, HttpValues.Follows, Counted, MarkAll, FinishHeader;
    RunConcat(cfg, c, v, FoldsText(fs));
    ConnectionRun(cfg, c, v);
    FollowsState(c.q, Run(cfg, c, v).q, v);
    ConnectionFolds(cfg, c.q, Run(cfg, c, v), v, fs);
  }

  // ------------------------------------------------------------------ Content-Length

  /** Digits of a number that fits, and behind them nothing but blanks (no tabs), also where the value goes on. */
  predicate SizeFits(v: seq<byte>, fs: seq<Fold>) {
    && Leading(v) != [] && FitsDecimal(Leading(v)) && AllSpaces(v[|Leading(v)|..])
    && forall i :: 0 <= i < |fs| ==> AllSpaces(fs[i].text)
  }

  predicate AllSpaces(t: seq<byte>) { forall i :: 0 <= i < |t| ==> t[i] == ' ' }

  predicate BehindSize(q: Parser) {
    q.state == Header(HeaderValue) && (q.hstate == ContentLengthNum || q.hstate == ContentLengthWs)
  }

  lemma BlankByte(cfg: Settings, c: Conf, ch: byte)
    requires BehindSize(c.q) && HeaderRoom(cfg, c.q, 1) && PlainByte(cfg, ch)
    requires c.q.hstate == ContentLengthNum ==> !IsNum(ch)
    ensures var r := Advance(cfg, c, ch).q;
            && (r.errno == OK <==> ch == ' ')
            && (ch == ' ' ==> r == c.q.(hstate := ContentLengthWs, nread := c.q.nread + 1))
  {
    hide FeedAll, ByteEvents, Match, TokenStart, PushDecimal;
    AdvanceRegisters(cfg, c, ch);
  }

  lemma {:induction false} BlanksBehind(cfg: Settings, c: Conf, t: seq<byte>)
    requires BehindSize(c.q) && HeaderRoom(cfg, c.q, |t|) && PlainText(cfg, t)
    requires c.q.hstate == ContentLengthNum && t != [] ==> !IsNum(t[0])
    ensures var r := Run(cfg, c, t).q;
            && (r.errno == OK <==> AllSpaces(t))
            && (r.errno == OK ==> BehindSize(r) && r.flags == c.q.flags && r.contentLength == c.q.contentLength
                                  && r.nread == c.q.nread + |t| && (t != [] ==> r.hstate == ContentLengthWs))
    decreases |t|
  {
    hide Advance, PlainByte;
    if t == [] {
      RunNothing(cfg, c);
    } else {
      var n := |t| - 1;
      assert t == t[..n] + [t[n]];
      assert AllSpaces(t) <==> AllSpaces(t[..n]) && t[n] == ' ';
      BlanksBehind(cfg, c, t[..n]);
      RunNext(cfg, c, t[..n], t[n]);
      var mid := Run(cfg, c, t[..n]);
      if mid.q.errno == OK {
        assert n == 0 ==> t[..n] == [] && mid == c by { RunNothing(cfg, c); }
        BlankByte(cfg, mid, t[n]);
      } else {
        FailedStays(cfg, mid, t[n]);
      }
    }
  }

  lemma SizeFold(cfg: Settings, c: Conf, f: Fold)
    requires BehindSize(c.q) && HeaderRoom(cfg, c.q, |Eol(f.cr)| + 1) && IsBlank(f.blank)
    ensures Run(cfg, c, Eol(f.cr) + [f.blank]).q
         == c.q.(hstate := ContentLengthWs, index := 0, nread := c.q.nread + |Eol(f.cr)| + 1)
  {
    hide Run, Advance;
    ValueLineEnds(cfg, c, f.cr);
    var c1 := Run(cfg, c, Eol(f.cr));
    RunOne(cfg, c1, f.blank);
    RunConcat(cfg, c, Eol(f.cr), [f.blank]);
    SizeFoldByte(cfg, c1, f.blank);
  }

  lemma SizeFoldByte(cfg: Settings, c: Conf, ch: byte)
    requires c.q.state == Header(HeaderValueLws) && (c.q.hstate == ContentLengthNum || c.q.hstate == ContentLengthWs)
    requires HeaderRoom(cfg, c.q, 1) && IsBlank(ch)
    ensures Advance(cfg, c, ch).q
         == c.q.(state := Header(HeaderValue), hstate := ContentLengthWs, index := 0, nread := c.q.nread + 1)
  {
    hide FeedAll, ByteEvents, Lower, OnFieldStart;
    AdvanceRegisters(cfg, c, ch);
  }

  lemma {:induction false} SizeFolds(cfg: Settings, c: Conf, fs: seq<Fold>)
    requires BehindSize(c.q) && HeaderRoom(cfg, c.q, |FoldsText(fs)|) && FoldsFit(cfg, fs)
    ensures var r := Run(cfg, c, FoldsText(fs)).q;
            && (r.errno == OK <==> forall i :: 0 <= i < |fs| ==> AllSpaces(fs[i].text))
            && (r.errno == OK ==> BehindSize(r) && r.flags == c.q.flags && r.contentLength == c.q.contentLength)
    decreases |fs|
  {
    hide Run, AllSpaces, PlainByte;
    if fs == [] {
      RunNothing(cfg, c);
    } else {
      var f, rest := fs[0], fs[1..];
      FoldLength(f);
      SizeFold(cfg, c, f);
      var d := Run(cfg, c, Eol(f.cr) + [f.blank]);
      BlanksBehind(cfg, d, f.text);
      RunConcat(cfg, c, Eol(f.cr) + [f.blank], f.text);
      assert FoldText(f) == (Eol(f.cr) + [f.blank]) + f.text;
      RunConcat(cfg, c, FoldText(f), FoldsText(rest));
      assert forall i :: 0 <= i < |rest| ==> rest[i] == fs[i + 1];
      assert (forall i :: 0 <= i < |fs| ==> AllSpaces(fs[i].text))
        <==> AllSpaces(f.text) && forall i :: 0 <= i < |rest| ==> AllSpaces(rest[i].text);
      if Run(cfg, d, f.text).q.errno == OK {
        SizeFolds(cfg, Run(cfg, d, f.text), rest);
      } else {
        Stuck(cfg, Run(cfg, d, f.text), FoldsText(rest));
      }
    }
  }

  lemma Stuck(cfg: Settings, c: Conf, b: seq<byte>)
    requires c.q.errno != OK
    ensures Run(cfg, c, b) == c
  {
    hide Run;
    RunNothing(cfg, c);
    assert b[..0] == [];
    RunStuck(cfg, c, b, 0);
  }

  /** The first byte of the value. */
  lemma SizeBegins(cfg: Settings, c: Conf, ch: byte)
    requires c.q.state == Header(HeaderValueDiscardWs) && c.q.hstate == ContentLength && HeaderRoom(cfg, c.q, 1)
    requires StartsValue(ch)
    ensures var r := Advance(cfg, c, ch).q;
            && (r.errno == OK <==> IsNum(ch) && !c.q.flags.contentLength)
            && (r.errno == OK ==> ReadingLength(r, [ch]) && r.nread == c.q.nread + 1
                                  && r.flags == c.q.flags.(contentLength := true))
  {
    hide FeedAll, ByteEvents, OnDiscardLws, Lower;
    HttpValues.FirstByte(cfg, c, ch);
    assert [ch][..0] == [];
    assert IsNum(ch) ==> Decimal([ch]) == DigitValue(ch);
  }

  /** Behind the first digit. */
  lemma SizeBehind(cfg: Settings, c: Conf, v: seq<byte>, fs: seq<Fold>)
    requires PlainValue(cfg, v) && FoldsFit(cfg, fs) && IsNum(v[0]) && ReadingLength(c.q, [v[0]])
    requires HeaderRoom(cfg, c.q, |v| - 1 + |FoldsText(fs)|)
    ensures var r := Run(cfg, c, v[1..] + FoldsText(fs)).q;
            && (r.errno == OK <==> SizeFits(v, fs))
            && (r.errno == OK ==> BehindSize(r) && r.flags == c.q.flags && r.contentLength == Decimal(Leading(v)))
  {
    hide Run, PlainByte, AllSpaces, FitsDecimal, Decimal, PlainText;
    var digits := Leading(v);
    var more, blanks := digits[1..], v[|digits|..];
    assert digits == [v[0]] + more;
    assert v[1..] + FoldsText(fs) == more + (blanks + FoldsText(fs));
    RunConcat(cfg, c, more, blanks + FoldsText(fs));
    DigitsRun(cfg, c, v[0], more);
    var c2 := Run(cfg, c, more);
    if c2.q.errno != OK {
      Stuck(cfg, c2, blanks + FoldsText(fs));
    } else {
      assert PlainText(cfg, blanks) by { PlainRest(cfg, v, |digits|); }
      BlanksBehind(cfg, c2, blanks);
      RunConcat(cfg, c2, blanks, FoldsText(fs));
      var c3 := Run(cfg, c2, blanks);
      if c3.q.errno != OK {
        Stuck(cfg, c3, FoldsText(fs));
      } else {
        SizeFolds(cfg, c3, fs);
      }
    }
  }

  lemma PlainRest(cfg: Settings, v: seq<byte>, n: nat)
    requires PlainValue(cfg, v) && 0 < n <= |v|
    ensures PlainText(cfg, v[n..])
  {
    hide PlainByte;
  }

  /** A Content-Length value is read without an error exactly if it is the first one and such a number; then the
      register holds it. */
  lemma SizeValue(cfg: Settings, c: Conf, v: seq<byte>, fs: seq<Fold>)
    requires c.q.state == Header(HeaderValueDiscardWs) && PlainValue(cfg, v) && FoldsFit(cfg, fs)
    requires c.q.hstate == ContentLength && HeaderRoom(cfg, c.q, |v + FoldsText(fs)|)
    ensures var r := Run(cfg, c, v + FoldsText(fs)).q;
            && (r.errno == OK <==> !c.q.flags.contentLength && SizeFits(v, fs))
            && (r.errno == OK ==> BehindSize(r) && r.flags == c.q.flags.(contentLength := true)
                                  && r.contentLength == Decimal(Leading(v)))
  {
    hide Run, Advance, PlainByte, AllSpaces, FitsDecimal, Decimal;
    var first, behind := v[0], v[1..] + FoldsText(fs);
    assert v + FoldsText(fs) == [first] + behind;
    SizeBegins(cfg, c, first);
    RunOne(cfg, c, first);
    RunConcat(cfg, c, [first], behind);
    var c1 := Advance(cfg, c, first);
    if c1.q.errno != OK {
      Stuck(cfg, c1, behind);
    } else {
      SizeBehind(cfg, c1, v, fs);
    }
  }

  lemma {:induction false} DigitsRun(cfg: Settings, c: Conf, first: byte, more: seq<byte>)
    requires IsNum(first) && ReadingLength(c.q, [first]) && Digits(more) && HeaderRoom(cfg, c.q, |more|)
    ensures Digits([first] + more)
    ensures var r := Run(cfg, c, more).q;
            && (r.errno == OK <==> FitsDecimal([first] + more))
            && (r.errno == OK ==> BehindSize(r) && r.hstate == ContentLengthNum && r.flags == c.q.flags
                                  && r.contentLength == Decimal([first] + more) && r.nread == c.q.nread + |more|)
    decreases |more|
  {
    hide Run, FitsDecimal, Decimal;
    ContentLengthExact(cfg, c, first, more);
    if Run(cfg, c, more).q.errno == OK {
      DigitsKeepFlags(cfg, c, more);
    }
  }

  lemma {:induction false} DigitsKeepFlags(cfg: Settings, c: Conf, more: seq<byte>)
    requires BehindSize(c.q) && Digits(more) && HeaderRoom(cfg, c.q, |more|) && Run(cfg, c, more).q.errno == OK
    ensures Run(cfg, c, more).q.flags == c.q.flags && BehindSize(Run(cfg, c, more).q)
    ensures Run(cfg, c, more).q.nread == c.q.nread + |more|
    decreases |more|
  {
    hide Run, Advance;
    if more == [] {
      RunNothing(cfg, c);
    } else {
      var n := |more| - 1;
      assert more == more[..n] + [more[n]];
      OkBefore(cfg, c, more[..n], [more[n]]);
      DigitsKeepFlags(cfg, c, more[..n]);
      RunOne(cfg, Run(cfg, c, more[..n]), more[n]);
      DigitKeepsFlags(cfg, Run(cfg, c, more[..n]), more[n]);
    }
  }

  lemma DigitKeepsFlags(cfg: Settings, c: Conf, ch: byte)
    requires BehindSize(c.q) && IsNum(ch) && HeaderRoom(cfg, c.q, 1) && Advance(cfg, c, ch).q.errno == OK
    ensures var r := Advance(cfg, c, ch).q; r.flags == c.q.flags && BehindSize(r) && r.nread == c.q.nread + 1
  {
    hide FeedAll, ByteEvents, PushDecimal, TokenStart, Match;
    AdvanceRegisters(cfg, c, ch);
  }

  // ------------------------------------------------------------------ one line

  lemma NameDecides(l: seq<char>)
    ensures Class(l) == Connection <==> l == CONNECTION || l == PROXY_CONNECTION
    ensures Class(l) == TransferEncoding <==> l == TRANSFER_ENCODING
    ensures Class(l) == ContentLength <==> l == CONTENT_LENGTH
    ensures Class(l) == Upgrade <==> l == UPGRADE
    ensures NameState(Class(l))
  {
    HttpNames.Literals();
  }

  /** A length line must be the first of its kind and show a number that fits. */
  predicate LineOk(f: Flags, l: Line) {
    SizeName(l.name) ==> l.value != [] && !f.contentLength && SizeFits(l.value, l.folds)
  }

  lemma AddsItems(f: Flags, l: Line, g: Flags)
    requires ConnectionName(l.name) && l.value != []
    requires g == MarkAll(f, Counted(l.value, l.folds).0, Counted(l.value, l.folds).1)
    ensures Adds(f, l, g)
  {
    hide MarkAll, Counted, Met;
    HttpNames.Literals();
    FlagsExact(f, Counted(l.value, l.folds).0, Counted(l.value, l.folds).1);
  }

  lemma AddsOther(f: Flags, l: Line, g: Flags)
    requires !ConnectionName(l.name)
    requires g == f.(chunked := f.chunked || SaysChunked(l), upgrade := f.upgrade || SaysUpgrade(l),
                     contentLength := f.contentLength || SizeName(l.name))
    ensures Adds(f, l, g)
  {
    hide Counted, Met, Is;
  }

  lemma AddsNothing(f: Flags, l: Line)
    requires l.value == [] && !SizeName(l.name)
    ensures Adds(f, l, f)
  {
    hide Counted, Met, Is;
  }

  /** What a non-empty value makes of the flags. */
  lemma ValueAdds(cfg: Settings, c: Conf, l: Line)
    requires c.q.state == Header(HeaderValueDiscardWs) && LineFits(cfg, l) && l.value != []
    requires c.q.hstate == Class(LowerName(l.name)) && HeaderRoom(cfg, c.q, |l.value + FoldsText(l.folds)|)
    ensures var r := Run(cfg, c, l.value + FoldsText(l.folds)).q;
            && (r.errno == OK <==> LineOk(c.q.flags, l))
            && (r.errno == OK ==> Adds(c.q.flags, l, FinishHeader(r)))
            && (r.errno == OK && SizeName(l.name) ==> r.contentLength == Decimal(Leading(l.value)))
  {
    hide Run, Class, LowerName, PlainValue, PlainByte, FinishHeader, Adds, Counted, MarkAll, SizeFits, Is, Decimal,
         LineFits, NameState;
    var name := LowerName(l.name);
    NameDecides(name);
    HttpNames.Literals();
    FitsParts(cfg, l);
    var r := Run(cfg, c, l.value + FoldsText(l.folds)).q;
    if ConnectionName(l.name) {
      ConnectionValue(cfg, c, l.value, l.folds);
      AddsItems(c.q.flags, l, FinishHeader(r));
    } else if name == TRANSFER_ENCODING {
      TransferValue(cfg, c, l.value, l.folds);
      AddsOther(c.q.flags, l, FinishHeader(r));
    } else if name == CONTENT_LENGTH {
      SizeValue(cfg, c, l.value, l.folds);
      if r.errno == OK {
        FinishedSize(r);
        AddsOther(c.q.flags, l, FinishHeader(r));
      }
    } else {
      GeneralValue(cfg, c, l.value, l.folds);
      AddsOther(c.q.flags, l, FinishHeader(r));
    }
  }

  lemma FitsParts(cfg: Settings, l: Line)
    requires LineFits(cfg, l) && l.value != []
    ensures PlainValue(cfg, l.value) && FoldsFit(cfg, l.folds)
  {
    hide PlainByte;
  }

  lemma FinishedSize(q: Parser)
    requires BehindSize(q)
    ensures FinishHeader(q) == q.flags
  {
  }

  function LineEvents(l: Line): seq<Event> { [Data(Field, l.name), Data(Value, l.value + FoldsValue(l.folds))] }

  /** The registers of the start line. */
  predicate SameHead(q: Parser, r: Parser) {
    && r.typ == q.typ && r.major == q.major && r.minor == q.minor && r.status == q.status && r.verb == q.verb
    && r.upgrade == q.upgrade
  }

  /** A line has been read: what it says has been added, and its name and value have been delivered. */
  ghost predicate LineRead(c: Conf, l: Line, r: Conf) {
    var a, b := LineConf(c), LineConf(r);
    && HeaderMayStart(r.q) && r.q.nread == c.q.nread + |LineText(l)| && SameHead(a.q, b.q)
    && Adds(a.q.flags, l, b.q.flags)
    && b.q.contentLength == (if SizeName(l.name) then Decimal(Leading(l.value)) else a.q.contentLength)
    && b.trace == Feed(Feed(a.trace, Data(Field, l.name)), Data(Value, l.value + FoldsValue(l.folds)))
  }

  /** The message fails, or will fail at the next byte that does not continue the line. */
  predicate Refused(q: Parser) {
    q.errno != OK || (q.state == Header(HeaderValueDiscardLws) && q.hstate.ContentLength?)
  }

  lemma FinishIgnores(q: Parser, s: State, n: nat)
    ensures FinishHeader(q.(state := s, nread := n)) == FinishHeader(q)
  {
  }

  lemma EmptyLine(cfg: Settings, c: Conf, d: Conf, l: Line)
    requires HeaderMayStart(c.q) && LineFits(cfg, l) && l.value == []
    requires d.q == LineConf(c).q.(state := Header(HeaderValueDiscardWs), hstate := Class(LowerName(l.name)),
                                   index := d.q.index, nread := d.q.nread)
    requires d.trace == Feed(LineConf(c).trace, Data(Field, l.name))
    requires d.q.nread + |Eol(l.cr)| == c.q.nread + |LineText(l)| && HeaderRoom(cfg, d.q, |Eol(l.cr)|)
    ensures var r := Run(cfg, d, Eol(l.cr));
            && (HeaderMayStart(r.q) <==> LineOk(LineConf(c).q.flags, l))
            && (HeaderMayStart(r.q) ==> LineRead(c, l, r)) && (HeaderMayStart(r.q) || Refused(r.q))
  {
    hide Run, Class, LowerName, LineText, FinishHeader, Adds, SizeFits, Feed, Decimal;
    EmptyLineEnds(cfg, d, l.cr);
    NameDecides(LowerName(l.name));
    var r := Run(cfg, d, Eol(l.cr));
    NameNeutral(r.q);
    assert l.folds == [] && l.value + FoldsValue(l.folds) == [];
    if !SizeName(l.name) {
      AddsNothing(LineConf(c).q.flags, l);
    }
  }

  lemma NameNeutral(q: Parser)
    requires NameState(q.hstate)
    ensures FinishHeader(q) == q.flags
  {
  }

  /** A value with its continuations. */
  lemma ValueWhole(cfg: Settings, d: Conf, v: seq<byte>, fs: seq<Fold>)
    requires d.q.state == Header(HeaderValueDiscardWs) && HeaderRoom(cfg, d.q, |v + FoldsText(fs)|)
    requires PlainValue(cfg, v) && FoldsFit(cfg, fs) && Run(cfg, d, v + FoldsText(fs)).q.errno == OK
    ensures ValueRead(d, Run(cfg, d, v + FoldsText(fs)), v + FoldsValue(fs), |v + FoldsText(fs)|)
  {
    hide Run, PlainByte, Feed, SameStart, PlainValue, FoldsFit;
    OkBefore(cfg, d, v, FoldsText(fs));
    RunConcat(cfg, d, v, FoldsText(fs));
    ValueRun(cfg, d, v);
    var mid := Run(cfg, d, v);
    FoldsRun(cfg, mid, fs);
    SameTwice(d.q, mid.q, Run(cfg, mid, FoldsText(fs)).q);
    Delivered(d.trace, mid.trace, v, FoldsValue(fs));
  }

  /** A non-empty value has been read without an error: the end of the line. */
  lemma FullLineEnds(cfg: Settings, c: Conf, d: Conf, l: Line)
    requires HeaderMayStart(c.q) && LineFits(cfg, l) && l.value != []
    requires d.q == LineConf(c).q.(state := Header(HeaderValueDiscardWs), hstate := Class(LowerName(l.name)),
                                   index := d.q.index, nread := d.q.nread)
    requires d.trace == Feed(LineConf(c).trace, Data(Field, l.name))
    requires d.q.nread + |(l.value + FoldsText(l.folds)) + Eol(l.cr)| == c.q.nread + |LineText(l)|
    requires HeaderRoom(cfg, d.q, |(l.value + FoldsText(l.folds)) + Eol(l.cr)|)
    requires var e := Run(cfg, d, l.value + FoldsText(l.folds));
             && e.q.errno == OK && Adds(d.q.flags, l, FinishHeader(e.q))
             && (SizeName(l.name) ==> e.q.contentLength == Decimal(Leading(l.value)))
    ensures LineRead(c, l, Run(cfg, Run(cfg, d, l.value + FoldsText(l.folds)), Eol(l.cr)))
  {
    hide Run, Class, LowerName, LineText, FinishHeader, Adds, SizeFits, Feed, Decimal, PlainByte, LineFits, PlainValue,
         FoldsFit, LineRead, LineConf;
    var e := Run(cfg, d, l.value + FoldsText(l.folds));
    FitsParts(cfg, l);
    ValueWhole(cfg, d, l.value, l.folds);
    ValueLineEnds(cfg, e, l.cr);
    FinishIgnores(e.q, Header(HeaderValueLws), e.q.nread + |Eol(l.cr)|);
    LengthUnlessNamed(l);
    ReadIs(c, e, l, Run(cfg, e, Eol(l.cr)));
  }

  lemma ReadIs(c: Conf, e: Conf, l: Line, r: Conf)
    requires SameHead(LineConf(c).q, e.q) && e.q.errno == OK
    requires r == Conf(e.q.(state := Header(HeaderValueLws), nread := e.q.nread + |Eol(l.cr)|), r.trace)
    requires r.q.nread == c.q.nread + |LineText(l)| && Adds(LineConf(c).q.flags, l, FinishHeader(r.q))
    requires e.q.contentLength == if SizeName(l.name) then Decimal(Leading(l.value)) else LineConf(c).q.contentLength
    requires r.trace
          == Feed(Feed(LineConf(c).trace, Data(Field, l.name)), Data(Value, l.value + FoldsValue(l.folds)))
    ensures LineRead(c, l, r)
  {
    hide Adds, FinishHeader, Feed, SizeName, Decimal, LineText, FoldsValue;
  }

  lemma FullLine(cfg: Settings, c: Conf, d: Conf, l: Line)
    requires HeaderMayStart(c.q) && LineFits(cfg, l) && l.value != []
    requires d.q == LineConf(c).q.(state := Header(HeaderValueDiscardWs), hstate := Class(LowerName(l.name)),
                                   index := d.q.index, nread := d.q.nread)
    requires d.trace == Feed(LineConf(c).trace, Data(Field, l.name))
    requires d.q.nread + |(l.value + FoldsText(l.folds)) + Eol(l.cr)| == c.q.nread + |LineText(l)|
    requires HeaderRoom(cfg, d.q, |(l.value + FoldsText(l.folds)) + Eol(l.cr)|)
    ensures var r := Run(cfg, d, (l.value + FoldsText(l.folds)) + Eol(l.cr));
            && (HeaderMayStart(r.q) <==> LineOk(LineConf(c).q.flags, l))
            && (HeaderMayStart(r.q) ==> LineRead(c, l, r)) && (HeaderMayStart(r.q) || Refused(r.q))
  {
    hide Run, Class, LowerName, LineText, FinishHeader, Adds, SizeFits, Feed, Decimal, PlainByte, LineOk, LineFits,
         LineRead;
    var text := l.value + FoldsText(l.folds);
    ValueAdds(cfg, d, l);
    RunConcat(cfg, d, text, Eol(l.cr));
    var e := Run(cfg, d, text);
    if e.q.errno != OK {
      Stuck(cfg, e, Eol(l.cr));
    } else {
      FullLineEnds(cfg, c, d, l);
      ReadMayStart(c, l, Run(cfg, e, Eol(l.cr)));
    }
  }

  lemma ReadMayStart(c: Conf, l: Line, r: Conf)
    requires LineRead(c, l, r)
    ensures HeaderMayStart(r.q)
  {
  }

  lemma LengthUnlessNamed(l: Line)
    ensures !SizeName(l.name) ==> NotLength(Class(LowerName(l.name)))
  {
    hide LowerName;
    HttpNames.Literals();
  }

  /** A header line, wherever one may begin: it is accepted exactly if it is no length line, or the first one with a
      number that fits; then it adds to the flags exactly what it says, and is delivered as name and value. */
  lemma LineRun(cfg: Settings, c: Conf, l: Line)
    requires HeaderMayStart(c.q) && LineFits(cfg, l) && HeaderRoom(cfg, c.q, |LineText(l)|)
    ensures var r := Run(cfg, c, LineText(l));
            && (HeaderMayStart(r.q) <==> LineOk(LineConf(c).q.flags, l))
            && (HeaderMayStart(r.q) ==> LineRead(c, l, r)) && (HeaderMayStart(r.q) || Refused(r.q))
  {
    hide Run, Class, LowerName, Token, NameMachine, LineRead, LineOk, LineConf, Feed, FoldsText, HeaderMayStart;
    var head, rest := (l.name + [':']) + l.gap, (l.value + FoldsText(l.folds)) + Eol(l.cr);
    RegistersOf(c);
    NameColon(cfg, c, l.name);
    var c1 := Run(cfg, c, l.name + [':']);
    WholeGap(cfg, c1, l.gap);
    RunConcat(cfg, c, l.name + [':'], l.gap);
    RunConcat(cfg, c, head, rest);
    var d := Run(cfg, c, head);
    if l.value == [] {
      assert rest == Eol(l.cr) by { NoValue(l); }
      EmptyLine(cfg, c, d, l);
    } else {
      FullLine(cfg, c, d, l);
    }
  }

  lemma NoValue(l: Line)
    requires l.value == [] && l.folds == []
    ensures (l.value + FoldsText(l.folds)) + Eol(l.cr) == Eol(l.cr)
  {
  }

  // ------------------------------------------------------------------ many lines

  function BlockText(ls: seq<Line>): seq<byte> {
    if ls == [] then [] else BlockText(ls[..|ls| - 1]) + LineText(ls[|ls| - 1])
  }

  function BlockEvents(ls: seq<Line>): seq<Event> {
    if ls == [] then [] else BlockEvents(ls[..|ls| - 1]) + LineEvents(ls[|ls| - 1])
  }

  predicate LinesFit(cfg: Settings, ls: seq<Line>) { forall i :: 0 <= i < |ls| ==> LineFits(cfg, ls[i]) }

  /** One of the lines says it. */
  ghost predicate Said(ls: seq<Line>, keyword: string) { exists i :: 0 <= i < |ls| && Says(ls[i], keyword) }

  ghost predicate SaidChunked(ls: seq<Line>) { exists i :: 0 <= i < |ls| && SaysChunked(ls[i]) }

  ghost predicate SaidUpgrade(ls: seq<Line>) { exists i :: 0 <= i < |ls| && SaysUpgrade(ls[i]) }

  ghost predicate SaidSize(ls: seq<Line>) { exists i :: 0 <= i < |ls| && SizeName(ls[i].name) }

  ghost predicate AllAdd(f: Flags, ls: seq<Line>, g: Flags) {
    && (g.keepAlive <==> f.keepAlive || Said(ls, KEEP_ALIVE))
    && (g.close <==> f.close || Said(ls, CLOSE))
    && (g.connectionUpgrade <==> f.connectionUpgrade || Said(ls, UPGRADE))
    && (g.chunked <==> f.chunked || SaidChunked(ls))
    && (g.upgrade <==> f.upgrade || SaidUpgrade(ls))
    && (g.contentLength <==> f.contentLength || SaidSize(ls))
    && g.trailing == f.trailing && g.skipBody == f.skipBody
  }

  lemma AddsSnoc(f: Flags, ls: seq<Line>, g: Flags, l: Line, h: Flags)
    requires AllAdd(f, ls, g) && Adds(g, l, h)
    ensures AllAdd(f, ls + [l], h)
  {
    hide Says, SaysChunked, SaysUpgrade, SizeName;
    var more := ls + [l];
    assert forall i :: 0 <= i < |ls| ==> more[i] == ls[i];
    assert more[|ls|] == l;
  }

  lemma AddsNone(f: Flags)
    ensures AllAdd(f, [], f)
  {
  }

  /** At most one length line, only where no length has been declared, and each shows a number that fits. */
  predicate SizesOk(f: Flags, ls: seq<Line>) {
    && (forall i :: 0 <= i < |ls| && SizeName(ls[i].name) ==>
          ls[i].value != [] && !f.contentLength && SizeFits(ls[i].value, ls[i].folds))
    && forall i, j :: 0 <= i < j < |ls| ==> !SizeName(ls[i].name) || !SizeName(ls[j].name)
  }

  lemma SizesSnoc(f: Flags, ls: seq<Line>, g: Flags, l: Line)
    requires SizesOk(f, ls) && (g.contentLength <==> f.contentLength || SaidSize(ls))
    ensures SizesOk(f, ls + [l]) <==> LineOk(g, l)
  {
    hide SizeName, SizeFits;
    var more := ls + [l];
    assert forall i :: 0 <= i < |ls| ==> more[i] == ls[i];
    assert more[|ls|] == l;
    if SizeName(l.name) && SaidSize(ls) {
      var i :| 0 <= i < |ls| && SizeName(ls[i].name);
      assert SizeName(more[i].name) && SizeName(more[|ls|].name);
    }
  }

  lemma SizesPrefix(f: Flags, ls: seq<Line>, n: nat)
    requires n <= |ls| && SizesOk(f, ls)
    ensures SizesOk(f, ls[..n])
  {
    hide SizeName, SizeFits;
  }

  /** The number in the length register. */
  ghost predicate LengthIs(before: nat, ls: seq<Line>, n: nat) {
    && (!SaidSize(ls) ==> n == before)
    && forall i :: 0 <= i < |ls| && SizeName(ls[i].name) ==> n == Decimal(Leading(ls[i].value))
  }

  lemma LengthSnoc(before: nat, ls: seq<Line>, n: nat, l: Line, m: nat)
    requires LengthIs(before, ls, n) && m == (if SizeName(l.name) then Decimal(Leading(l.value)) else n)
    requires SizeName(l.name) ==> !SaidSize(ls)
    ensures LengthIs(before, ls + [l], m)
  {
    hide SizeName, Decimal, Leading;
    var more := ls + [l];
    assert forall i :: 0 <= i < |ls| ==> more[i] == ls[i];
    assert more[|ls|] == l;
  }

  ghost predicate BlockRead(c: Conf, ls: seq<Line>, r: Conf) {
    var a, b := LineConf(c), LineConf(r);
    && HeaderMayStart(r.q) && r.q.nread == c.q.nread + |BlockText(ls)| && SameHead(a.q, b.q)
    && AllAdd(a.q.flags, ls, b.q.flags) && LengthIs(a.q.contentLength, ls, b.q.contentLength)
    && b.trace == FeedAll(a.trace, BlockEvents(ls))
  }

  lemma RefusedFails(cfg: Settings, c: Conf, ch: byte)
    requires Refused(c.q) && ch != ' ' && ch != TAB
    ensures Advance(cfg, c, ch).q.errno != OK
  {
    hide FeedAll, ByteEvents, OnFieldStart;
    AdvanceRegisters(cfg, c, ch);
  }

  lemma RefusedLine(cfg: Settings, c: Conf, l: Line)
    requires Refused(c.q) && LineFits(cfg, l)
    ensures Run(cfg, c, LineText(l)).q.errno != OK
  {
    hide Run, Advance, Refused, Token;
    var text := LineText(l);
    assert text == [l.name[0]] + text[1..];
    NotLineEnd(l.name[0]);
    RefusedFails(cfg, c, l.name[0]);
    RunOne(cfg, c, l.name[0]);
    RunConcat(cfg, c, [l.name[0]], text[1..]);
    Stuck(cfg, Run(cfg, c, [l.name[0]]), text[1..]);
  }

  lemma FeedLine(t: seq<Event>, events: seq<Event>, l: Line)
    ensures Feed(Feed(FeedAll(t, events), Data(Field, l.name)), Data(Value, l.value + FoldsValue(l.folds)))
         == FeedAll(t, events + LineEvents(l))
  {
    hide Feed, FoldsValue;
    var a, b := Data(Field, l.name), Data(Value, l.value + FoldsValue(l.folds));
    FeedAllConcat(t, events, LineEvents(l));
    assert LineEvents(l) == [a] + [b];
    FeedAllSnoc(FeedAll(t, events), [a], b);
    FeedOne(FeedAll(t, events), a);
  }

  lemma MoreRead(c: Conf, ls: seq<Line>, mid: Conf, l: Line, r: Conf)
    requires BlockRead(c, ls, mid) && LineRead(mid, l, r) && LineOk(LineConf(mid).q.flags, l)
    ensures BlockRead(c, ls + [l], r)
  {
    hide AllAdd, Adds, LengthIs, LineText, LineConf, HeaderMayStart, LineEvents, Feed, FoldsValue, SizeFits, Decimal;
    assert (ls + [l])[..|ls|] == ls;
    var a, m, b := LineConf(c), LineConf(mid), LineConf(r);
    AddsSnoc(a.q.flags, ls, m.q.flags, l, b.q.flags);
    LengthFlag(a.q.flags, ls, m.q.flags);
    LengthSnoc(a.q.contentLength, ls, m.q.contentLength, l, b.q.contentLength);
    FeedLine(a.trace, BlockEvents(ls), l);
  }

  lemma LengthFlag(f: Flags, ls: seq<Line>, g: Flags)
    requires AllAdd(f, ls, g)
    ensures g.contentLength <==> f.contentLength || SaidSize(ls)
  {
  }

  lemma NoneRead(c: Conf)
    requires HeaderMayStart(c.q)
    ensures BlockRead(c, [], c)
  {
    hide FinishHeader;
    AddsNone(LineConf(c).q.flags);
  }

  lemma NoSizes(f: Flags)
    ensures SizesOk(f, [])
  {
  }

  /** Any number of header lines: they are accepted exactly if their length lines are, and they add to the flags
      exactly what one of them says. */
  lemma {:induction false} BlockRun(cfg: Settings, c: Conf, ls: seq<Line>)
    requires HeaderMayStart(c.q) && LinesFit(cfg, ls) && HeaderRoom(cfg, c.q, |BlockText(ls)|)
    ensures var r := Run(cfg, c, BlockText(ls));
            && (HeaderMayStart(r.q) <==> SizesOk(LineConf(c).q.flags, ls))
            && (HeaderMayStart(r.q) ==> BlockRead(c, ls, r)) && (HeaderMayStart(r.q) || Refused(r.q))
    decreases |ls|
  {
    hide Run, LineFits, HeaderMayStart, Refused, BlockRead, LineRead, SizesOk, LineConf, LineText, LineOk;
    if ls == [] {
      RunNothing(cfg, c);
      NoneRead(c);
      NoSizes(LineConf(c).q.flags);
    } else {
      var n := |ls| - 1;
      var init, l := ls[..n], ls[n];
      assert ls == init + [l];
      BlockRun(cfg, c, init);
      RunConcat(cfg, c, BlockText(init), LineText(l));
      var mid, r := Run(cfg, c, BlockText(init)), Run(cfg, c, BlockText(ls));
      if HeaderMayStart(mid.q) {
        ReadFacts(c, init, mid);
        LineRun(cfg, mid, l);
        SizesSnoc(LineConf(c).q.flags, init, LineConf(mid).q.flags, l);
        if HeaderMayStart(r.q) {
          MoreRead(c, init, mid, l, r);
        }
      } else {
        RefusedLine(cfg, mid, l);
        FailedIsRefused(r.q);
        if SizesOk(LineConf(c).q.flags, ls) {
          SizesPrefix(LineConf(c).q.flags, ls, n);
        }
      }
    }
  }

  lemma ReadFacts(c: Conf, ls: seq<Line>, r: Conf)
    requires BlockRead(c, ls, r)
    ensures LineConf(r).q.flags.contentLength <==> LineConf(c).q.flags.contentLength || SaidSize(ls)
    ensures r.q.nread == c.q.nread + |BlockText(ls)| && r.q.errno == OK
  {
    hide LineConf;
  }

  lemma FailedIsRefused(q: Parser)
    requires q.errno != OK
    ensures Refused(q) && !HeaderMayStart(q)
  {
  }
}
