/** Inputs that show what the exact conditions only describe: a response whose end is the end of the
    connection, and a 204 response that announces a body. */
module HttpWitnesses {
  import opened Common
  import opened HttpTypes
  import opened HttpStep
  import opened HttpRun
  import opened HttpGrammar
  import opened HttpInvariant
  import opened HttpLength
  import opened HttpNames
  import opened HttpParser
  import opened HttpStatusLines
  import opened HttpVersions
  import opened HttpLines
  import opened HttpBlocks
  import opened HttpMessages
  import opened HttpExchanges

  /** on_headers_complete returns 0. */
  ghost predicate Proceeds(cfg: Settings) {
    64 <= cfg.maxHeaderSize < UINT32_MODULUS && forall q: Parser :: cfg.onHeadersComplete(q) == Proceed
  }

  function ResponseLine(minor: byte, a: byte, b: byte, d: byte): seq<byte> {
    StatusText('1', minor, 0, [a, b, d], None, false)
  }

  /** The registers behind a status line. */
  function Responding(minor: nat, status: nat): Parser {
    Fresh(Init(Response)).(state := Header(HeaderFieldStart), major := 1, minor := minor, status := status, nread := 13)
  }

  lemma OneMoreDigit(s: seq<byte>, ch: byte)
    requires Digits(s) && IsNum(ch)
    ensures Digits(s + [ch]) && Decimal(s + [ch]) == Decimal(s) * 10 + DigitValue(ch)
  {
    assert (s + [ch])[..|s|] == s;
  }

  lemma ThreeDigits(a: byte, b: byte, d: byte)
    requires IsNum(a) && IsNum(b) && IsNum(d)
    ensures Digits([a, b, d]) && Decimal([a, b, d]) == DigitValue(a) * 100 + DigitValue(b) * 10 + DigitValue(d)
  {
    hide Decimal;
    OneMoreDigit([], a);
    OneMoreDigit([a], b);
    OneMoreDigit([a, b], d);
    NoDigits();
    assert [] + [a] == [a] && [a] + [b] == [a, b] && [a, b] + [d] == [a, b, d];
  }

  lemma LineRun(cfg: Settings, minor: byte, a: byte, b: byte, d: byte)
    requires Proceeds(cfg) && IsNum(minor) && IsNum(a) && IsNum(b) && IsNum(d)
    ensures Run(cfg, Conf(Init(Response), []), ResponseLine(minor, a, b, d)).q
         == Responding(DigitValue(minor), DigitValue(a) * 100 + DigitValue(b) * 10 + DigitValue(d))
  {
    hide Run, Decimal;
    ThreeDigits(a, b, d);
    StatusRun(cfg, Conf(Init(Response), []), '1', minor, 0, [a, b, d], None, false);
  }

  // ------------------------------------------------------------------ a body that ends with the connection

  /** A response without a length: its body ends with the connection. */
  lemma UntilTheEnd(cfg: Settings)
    requires Proceeds(cfg)
    ensures var q := Run(cfg, Conf(Init(Response), []), ResponseLine('0', '2', '0', '0') + [LF]).q;
            q.errno == OK && q.state == Content(BodyIdentityEof)
  {
    hide Run, ResponseLine, Reported, Said, SaidChunked, SaidUpgrade, SaidSize, Step;
    LineRun(cfg, '0', '2', '0', '0');
    var c := Run(cfg, Conf(Init(Response), []), ResponseLine('0', '2', '0', '0'));
    NoLines();
    assert BlockText([]) + Eol(false) == [LF];
    var p, h := HeadRun(cfg, c, [], false);
    assert BlockFits([]) by { NoSizesOk([]); }
    NothingAnnounced(cfg, c.q, p, h);
    RunConcat(cfg, Conf(Init(Response), []), ResponseLine('0', '2', '0', '0'), [LF]);
  }

  lemma NothingAnnounced(cfg: Settings, q: Parser, p: Parser, h: Head)
    requires Proceeds(cfg) && Reported(cfg, q, [], p, h) && q.typ == Response && q.status == 200 && q.verb == DELETE
    ensures !EndsAtOnce(h) && BodyState(h) == Content(BodyIdentityEof)
  {
    NoLines();
  }

  /** The callbacks before glueing. */
  lemma {:induction false} Callbacks(cfg: Settings, typ: ParserType, input: seq<byte>) returns (cbs: seq<Event>)
    ensures Run(cfg, Conf(Init(typ), []), input).trace == Glued(cbs)
    decreases |input|
  {
    hide Step, ByteEvents;
    if input == [] {
      cbs := [];
    } else {
      var before, ch := Run(cfg, Conf(Init(typ), []), input[..|input| - 1]), input[|input| - 1];
      cbs := Callbacks(cfg, typ, input[..|input| - 1]);
      if before.q.errno == OK {
        var more := ByteEvents(before.q.state, Step(cfg, before.q, ch), ch);
        FeedAllConcat([], cbs, more);
        cbs := cbs + more;
      }
    }
  }

  /** Two calls that signal the end of that response: message_complete is reported twice. */
  lemma TwoEnds(cfg: Settings) returns (q: Parser, cbs: seq<Event>, done: Event)
    requires Proceeds(cfg)
    ensures Run(cfg, Conf(Init(Response), []), ResponseLine('0', '2', '0', '0') + [LF]) == Conf(q, Glued(cbs))
    ensures q.errno == OK && done.MessageComplete?
    ensures EndOfInput(q, cbs, 0, q, cbs + [done]) && EndOfInput(q, cbs + [done], 0, q, cbs + [done] + [done])
    ensures Accepted(cbs + [done]) && !Accepted(cbs + [done] + [done])
  {
    hide Run, ResponseLine, Accepted;
    var input := ResponseLine('0', '2', '0', '0') + [LF];
    UntilTheEnd(cfg);
    q := Run(cfg, Conf(Init(Response), []), input).q;
    cbs := Callbacks(cfg, Response, input);
    done := MessageComplete(false);
    SecondFinishBreaksOrder(cfg, Response, input, q, cbs);
  }

  // ------------------------------------------------------------------ a body where there must be none

  function LengthLine(digit: byte): Line { Line(CONTENT_LENGTH, [], [digit], [], false) }

  lemma {:induction false} LowerStays(name: seq<byte>)
    requires forall i :: 0 <= i < |name| ==> Token(name[i]) == name[i] && name[i] != '\0'
    ensures LowerName(name) == name && Tokens(name)
  {
    if name != [] {
      LowerStays(name[..|name| - 1]);
      assert name == name[..|name| - 1] + [name[|name| - 1]];
    }
  }

  lemma LengthLineFits(cfg: Settings, digit: byte)
    requires IsNum(digit)
    ensures LineFits(cfg, LengthLine(digit)) && SizeName(LengthLine(digit).name)
    ensures LineText(LengthLine(digit)) == (CONTENT_LENGTH + [':']) + [digit, LF]
    ensures Leading([digit]) == [digit] && SizeFits([digit], []) && Decimal([digit]) == DigitValue(digit)
  {
    HttpNames.Literals();
    LowerStays(CONTENT_LENGTH);
    assert [digit][1..] == [] && [digit][..0] == [];
    assert Leading([]) == [];
  }

  lemma OneLine(cfg: Settings, digit: byte)
    requires IsNum(digit)
    ensures var ls := [LengthLine(digit)];
            && LinesFit(cfg, ls) && BlockText(ls) == LineText(LengthLine(digit)) && BlockFits(ls) && SaidSize(ls)
            && !SaidChunked(ls) && !SaidUpgrade(ls)
  {
    hide LineText, LowerName, LineFits, SizeFits;
    var l := LengthLine(digit);
    LengthLineFits(cfg, digit);
    HttpNames.Literals();
    assert [l][..0] == [] && BlockText([l]) == BlockText([]) + LineText(l);
    assert [l][0] == l;
  }

  lemma FiveAnnounced(cfg: Settings, q: Parser, p: Parser, h: Head)
    requires Proceeds(cfg) && Reported(cfg, q, [LengthLine('5')], p, h)
    requires q.typ == Response && q.status == 204 && q.verb == DELETE
    ensures h == Head(true, 204, false, Some(5), false, false)
    ensures !EndsAtOnce(h) && BodyState(h) == Content(BodyIdentity)
  {
    hide LengthLine, LowerName, Said, Decimal, Leading;
    var l := LengthLine('5');
    OneLine(cfg, '5');
    LengthLineFits(cfg, '5');
    LengthLineValue('5');
    assert [l][0] == l;
  }

  lemma LengthLineValue(digit: byte)
    ensures LengthLine(digit).value == [digit]
  {
  }

  lemma LastIs(q: Parser, t: seq<Event>, ls: seq<Line>, h: Head, r: Conf)
    requires Behind(q, t, ls, h, r) && !EndsAtOnce(h)
    ensures r.q.errno == OK && r.q.state == BodyState(h) && r.trace == t + [HeadersComplete(h)]
    ensures h.declared.Some? ==> r.q.contentLength == h.declared.value
  {
    hide Heard, Framed, SaidSize;
  }

  /** Behind any status line with that code. */
  lemma BehindNoContent(cfg: Settings, c: Conf)
    requires Proceeds(cfg) && c.q.errno == OK && c.q.state == Header(HeaderFieldStart) && Untouched(c.q)
    requires c.q.typ == Response && c.q.status == 204 && c.q.verb == DELETE && c.q.nread <= 16
    ensures var r := Run(cfg, c, ((CONTENT_LENGTH + [':']) + ['5', LF]) + [LF]);
            && r.q.errno == OK && r.q.state == Content(BodyIdentity) && r.q.contentLength == 5
            && r.trace != [] && r.trace[|r.trace| - 1] == HeadersComplete(Head(true, 204, false, Some(5), false, false))
  {
    hide Run, LengthLine, Reported, Behind, Said, SaidChunked, SaidUpgrade, SaidSize, Step, BlockText, BlockEvents,
         FeedAll,
         LinesFit, BlockFits, Decimal;
    OneLine(cfg, '5');
    LengthLineFits(cfg, '5');
    HttpNames.Literals();
    var ls := [LengthLine('5')];
    var p, h := HeadRun(cfg, c, ls, false);
    FiveAnnounced(cfg, c.q, p, h);
    LastIs(c.q, FeedAll(c.trace, BlockEvents(ls)), ls, h, Run(cfg, c, BlockText(ls) + Eol(false)));
  }

  /** A 204 response with "content-length:5": the parser reports a body of five bytes and waits for them, where
      section 4.4 of RFC 2616 has none. */
  lemma NoContentWithBody(cfg: Settings)
    requires Proceeds(cfg)
    ensures var r := Run(cfg, Conf(Init(Response), []),
                         ResponseLine('1', '2', '0', '4') + (((CONTENT_LENGTH + [':']) + ['5', LF]) + [LF]));
            var head := Head(true, 204, false, Some(5), false, false);
            && r.q.errno == OK && r.q.state == Content(BodyIdentity) && r.q.contentLength == 5
            && r.trace != [] && r.trace[|r.trace| - 1] == HeadersComplete(head)
            && BodyPhase(head) == Sized(5) && RfcBody(head) == AwaitEnd
  {
    hide Run, ResponseLine;
    var c, first := Conf(Init(Response), []), ResponseLine('1', '2', '0', '4');
    LineRun(cfg, '1', '2', '0', '4');
    BehindNoContent(cfg, Run(cfg, c, first));
    RunConcat(cfg, c, first, ((CONTENT_LENGTH + [':']) + ['5', LF]) + [LF]);
  }
}
