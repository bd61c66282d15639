/** The header-name machine: which names it recognises, and the way from a header line to the register. */
module HttpNames {
  import opened Common
  import opened HttpTypes
  import opened HttpStep
  import opened HttpRun
  import opened HttpInvariant
  import opened HttpLength

  // ------------------------------------------------------------------ token characters

  /** The separators of section 2.2 of RFC 2616. */
  const SEPARATORS := {'(', ')', '<', '>', '@', ',', ';', ':', '\\', '"', '/', '[', ']', '?', '=', '{', '}', ' ', TAB}

  /** A name consists of the token characters of that section: visible ASCII without the separators. The table gives
      letters in lower case and everything else as it is. */
  lemma TokenExact(ch: byte)
    ensures IsToken(ch) <==> 32 < ch as int < 127 && ch !in SEPARATORS
    ensures IsToken(ch) ==> Token(ch) == if IsAlpha(ch) then Lower(ch) else ch
  {
  }

  // ------------------------------------------------------------------ the machine on a whole name

  predicate Tokens(name: seq<byte>) { forall i | 0 <= i < |name| :: IsToken(name[i]) }

  function LowerName(name: seq<byte>): seq<char>
    ensures |LowerName(name)| == |name|
  {
    if name == [] then [] else LowerName(name[..|name| - 1]) + [Token(name[|name| - 1])]
  }

  datatype Recognizer = Recognizer(h: HState, index: nat)

  function NameMachine(name: seq<byte>): Recognizer
    requires name != []
  {
    var ch := name[|name| - 1];
    if |name| == 1 then Recognizer(FieldStartState(Token(ch)), 0)
    else
      var r := NameMachine(name[..|name| - 1]);
      var index := if FieldIndexMoves(r.h) then Bump(r.index) else r.index;
      match FieldState(r.h, index, ch)
      case Some(h) => Recognizer(h, index)
      case None => Recognizer(General, index)
  }

  /** What the machine has to know about the characters so far: the longest literal they still begin. */
  function Class(l: seq<char>): HState {
    if l == "c" then C
    else if l == "co" then CO
    else if l == "con" then CON
    else if l == CONNECTION || l == PROXY_CONNECTION then Connection
    else if l == CONTENT_LENGTH then ContentLength
    else if l == TRANSFER_ENCODING then TransferEncoding
    else if l == UPGRADE then Upgrade
    else if l <= CONNECTION then MatchingConnection
    else if l <= CONTENT_LENGTH then MatchingContentLength
    else if l <= PROXY_CONNECTION then MatchingProxyConnection
    else if l <= TRANSFER_ENCODING then MatchingTransferEncoding
    else if l <= UPGRADE then MatchingUpgrade
    else General
  }

  lemma Literals()
    ensures CONNECTION == ['c','o','n','n','e','c','t','i','o','n']
    ensures CONTENT_LENGTH == ['c','o','n','t','e','n','t','-','l','e','n','g','t','h']
    ensures PROXY_CONNECTION == ['p','r','o','x','y','-','c','o','n','n','e','c','t','i','o','n']
    ensures TRANSFER_ENCODING == ['t','r','a','n','s','f','e','r','-','e','n','c','o','d','i','n','g']
    ensures UPGRADE == ['u','p','g','r','a','d','e']
  {
  }

  /** Going on with a literal. */
  lemma StartGrows(l: seq<char>, c: char, literal: string)
    ensures l + [c] <= literal <==> l <= literal && |l| < |literal| && literal[|l|] == c
  {
    if l + [c] <= literal {
      assert l == literal[..|l|];
      assert (l + [c])[|l|] == c;
    }
  }

  /** No text longer than "con" begins two of the literals. */
  lemma Apart(l: seq<char>)
    requires l != []
    ensures l <= CONNECTION ==> l[0] == 'c' && (|l| >= 4 ==> l[3] == 'n')
    ensures l <= CONTENT_LENGTH ==> l[0] == 'c' && (|l| >= 4 ==> l[3] == 't')
    ensures l <= PROXY_CONNECTION ==> l[0] == 'p'
    ensures l <= TRANSFER_ENCODING ==> l[0] == 't'
    ensures l <= UPGRADE ==> l[0] == 'u'
  {
    Literals();
  }

  lemma Grows(l: seq<char>, c: char)
    ensures l + [c] <= CONNECTION <==> l <= CONNECTION && |l| < |CONNECTION| && CONNECTION[|l|] == c
    ensures l + [c] <= CONTENT_LENGTH <==> l <= CONTENT_LENGTH && |l| < |CONTENT_LENGTH| && CONTENT_LENGTH[|l|] == c
    ensures l + [c] <= PROXY_CONNECTION <==>
              l <= PROXY_CONNECTION && |l| < |PROXY_CONNECTION| && PROXY_CONNECTION[|l|] == c
    ensures l + [c] <= TRANSFER_ENCODING <==>
              l <= TRANSFER_ENCODING && |l| < |TRANSFER_ENCODING| && TRANSFER_ENCODING[|l|] == c
    ensures l + [c] <= UPGRADE <==> l <= UPGRADE && |l| < |UPGRADE| && UPGRADE[|l|] == c
  {
    StartGrows(l, c, CONNECTION);
    StartGrows(l, c, CONTENT_LENGTH);
    StartGrows(l, c, PROXY_CONNECTION);
    StartGrows(l, c, TRANSFER_ENCODING);
    StartGrows(l, c, UPGRADE);
  }

  /** Class, read through beginnings of the literals only. */
  lemma ClassByPrefix(l: seq<char>)
    requires l != []
    ensures |l| <= 3 && l <= CONNECTION ==> Class(l) == (if |l| == 1 then C else if |l| == 2 then CO else CON)
    ensures |l| > 3 && l <= CONNECTION ==>
              Class(l) == (if |l| == |CONNECTION| then Connection else MatchingConnection)
    ensures |l| > 3 && l <= CONTENT_LENGTH ==>
              Class(l) == (if |l| == |CONTENT_LENGTH| then ContentLength else MatchingContentLength)
    ensures l <= PROXY_CONNECTION ==>
              Class(l) == (if |l| == |PROXY_CONNECTION| then Connection else MatchingProxyConnection)
    ensures l <= TRANSFER_ENCODING ==>
              Class(l) == (if |l| == |TRANSFER_ENCODING| then TransferEncoding else MatchingTransferEncoding)
    ensures l <= UPGRADE ==> Class(l) == (if |l| == |UPGRADE| then Upgrade else MatchingUpgrade)
    ensures (!(l <= CONNECTION) && !(l <= CONTENT_LENGTH) && !(l <= PROXY_CONNECTION)
             && !(l <= TRANSFER_ENCODING) && !(l <= UPGRADE)) ==> Class(l) == General
    ensures |l| <= 3 ==> (l <= CONNECTION <==> l <= CONTENT_LENGTH)
  {
    Literals();
    Apart(l);
  }

  lemma ClassStep(l: seq<char>, ch: byte)
    requires l != [] && IsToken(ch)
    ensures FieldState(Class(l), |l|, ch) == Some(Class(l + [Token(ch)]))
  {
    hide Class, Token, FieldState, IsToken;
    if l[0] == 'c' && |l| < 4 {
      ClassStepShort(l, ch);
    } else if l[0] == 'c' {
      ClassStepC(l, ch);
    } else if l[0] == 'p' {
      ClassStepP(l, ch);
    } else {
      ClassStepOther(l, ch);
    }
  }

  lemma TokenNotBlank(ch: byte)
    requires IsToken(ch)
    ensures ch != ' '
  {
  }

  lemma ClassStepShort(l: seq<char>, ch: byte)
    requires l != [] && IsToken(ch) && l[0] == 'c' && |l| < 4
    ensures FieldState(Class(l), |l|, ch) == Some(Class(l + [Token(ch)]))
  {
    hide Class, Token, IsToken;
    TokenNotBlank(ch);
    var c := Token(ch);
    Grows(l, c);
    ClassByPrefix(l);
    ClassByPrefix(l + [c]);
    Apart(l);
    Apart(l + [c]);
    Literals();
  }

  lemma ClassStepC(l: seq<char>, ch: byte)
    requires l != [] && IsToken(ch) && l[0] == 'c' && |l| >= 4
    ensures FieldState(Class(l), |l|, ch) == Some(Class(l + [Token(ch)]))
  {
    hide Class, Token, IsToken;
    TokenNotBlank(ch);
    var c := Token(ch);
    Grows(l, c);
    ClassByPrefix(l);
    ClassByPrefix(l + [c]);
    Apart(l);
    Apart(l + [c]);
    Literals();
  }

  lemma ClassStepP(l: seq<char>, ch: byte)
    requires l != [] && IsToken(ch) && l[0] == 'p'
    ensures FieldState(Class(l), |l|, ch) == Some(Class(l + [Token(ch)]))
  {
    hide Class, Token, IsToken;
    TokenNotBlank(ch);
    var c := Token(ch);
    Grows(l, c);
    ClassByPrefix(l);
    ClassByPrefix(l + [c]);
    Apart(l);
    Apart(l + [c]);
    Literals();
  }

  lemma OtherStates(index: nat, ch: byte)
    requires ch != ' '
    ensures var c := Token(ch);
            && FieldState(General, index, ch) == Some(General)
            && FieldState(TransferEncoding, index, ch) == Some(General)
            && FieldState(Upgrade, index, ch) == Some(General)
            && FieldState(MatchingUpgrade, index, ch)
               == Some(Match(UPGRADE, index, c, MatchingUpgrade, Upgrade, General))
            && FieldState(MatchingTransferEncoding, index, ch)
               == Some(Match(TRANSFER_ENCODING, index, c, MatchingTransferEncoding, TransferEncoding, General))
  {
    hide Match, Token;
  }

  lemma ClassStepOther(l: seq<char>, ch: byte)
    requires l != [] && IsToken(ch) && l[0] != 'c' && l[0] != 'p'
    ensures FieldState(Class(l), |l|, ch) == Some(Class(l + [Token(ch)]))
  {
    hide Class, Token, IsToken, FieldState;
    TokenNotBlank(ch);
    OtherStates(|l|, ch);
    Grows(l, Token(ch));
    ClassByPrefix(l);
    ClassByPrefix(l + [Token(ch)]);
    Apart(l);
    Apart(l + [Token(ch)]);
    Literals();
  }

  /** The machine's state after a name is its class: it recognises the six special names whatever their
      case, and nothing else. */
  lemma {:induction false} NameRecognised(name: seq<byte>)
    requires name != [] && Tokens(name)
    ensures NameMachine(name).h == Class(LowerName(name))
    ensures FieldIndexMoves(NameMachine(name).h) ==> NameMachine(name).index == |name| - 1
    decreases |name|
  {
    hide Class, FieldState, FieldIndexMoves, Token, FieldStartState, NameMachine, LowerName;
    var ch := name[|name| - 1];
    if |name| == 1 {
      assert name == [ch];
      MachineStarts(ch);
      OneLetter(ch);
    } else {
      var init := name[..|name| - 1];
      NameRecognised(init);
      ClassShort(LowerName(init));
      if !FieldIndexMoves(NameMachine(init).h) {
        IndexMatters(NameMachine(init).h, |init|, NameMachine(init).index, ch);
      }
      ClassStep(LowerName(init), ch);
      LowerLast(name);
      MachineStep(name);
      NextIndex(|init|);
    }
  }

  lemma MachineStarts(ch: byte)
    ensures NameMachine([ch]) == Recognizer(FieldStartState(Token(ch)), 0)
  {
    hide FieldStartState, Token;
  }

  lemma LowerLast(name: seq<byte>)
    requires name != []
    ensures LowerName(name) == LowerName(name[..|name| - 1]) + [Token(name[|name| - 1])]
  {
  }

  lemma NextIndex(n: nat)
    ensures 0 < n < 127 ==> Bump(n - 1) == n
  {
  }

  lemma ClassShort(l: seq<char>)
    ensures FieldIndexMoves(Class(l)) ==> |l| < 18
  {
    Literals();
  }

  lemma IndexMatters(h: HState, index: nat, other: nat, ch: byte)
    requires !FieldIndexMoves(h)
    ensures FieldState(h, index, ch) == FieldState(h, other, ch)
    ensures var n := FieldState(h, index, ch); n.Some? ==> !FieldIndexMoves(n.value)
  {
  }

  lemma OneLetter(ch: byte)
    requires IsToken(ch)
    ensures Class(LowerName([ch])) == FieldStartState(Token(ch))
  {
    assert [ch][..0] == [];
    assert LowerName([ch]) == [Token(ch)];
    ClassByPrefix([Token(ch)]);
    Literals();
  }

  // ------------------------------------------------------------------ a header line

  /** What a name leaves in the registers. */
  function Named(q: Parser, name: seq<byte>): Parser
    requires name != []
  {
    q.(state := Header(HeaderField), hstate := NameMachine(name).h, index := NameMachine(name).index,
       nread := q.nread + |name|)
  }

  /** A header line may begin here: right behind the start line, or behind a finished header. */
  predicate HeaderMayStart(q: Parser) {
    && q.errno == OK
    && (q.state == Header(HeaderFieldStart) || q.state == Header(HeaderValueLws)
        || (q.state == Header(HeaderValueDiscardLws) && !q.hstate.ContentLength?))
  }

  /** The registers once the header before, if there is one, has taken effect. */
  function LineRegisters(q: Parser): Parser {
    if q.state == Header(HeaderFieldStart) then q
    else q.(flags := FinishHeader(q), state := Header(HeaderFieldStart))
  }

  lemma FirstLetter(cfg: Settings, c: Conf, ch: byte)
    requires HeaderMayStart(c.q) && IsToken(ch)
    requires c.q.nread < cfg.maxHeaderSize < UINT32_MODULUS
    ensures Advance(cfg, c, ch).q == Named(LineRegisters(c.q), [ch])
  {
    hide FieldStartState, FeedAll, ByteEvents;
    NotLineEnd(ch);
  }

  lemma NotLineEnd(ch: byte)
    requires IsToken(ch)
    ensures ch != CR && ch != LF && ch != ' ' && ch != TAB
  {
  }

  lemma NextLetter(cfg: Settings, c: Conf, name: seq<byte>, q: Parser)
    requires |name| > 1 && Tokens(name) && c.q == Named(q, name[..|name| - 1]) && q.errno == OK
    requires q.nread + |name| <= cfg.maxHeaderSize < UINT32_MODULUS
    ensures Advance(cfg, c, name[|name| - 1]).q == Named(q, name)
  {
    hide FieldState, FeedAll, ByteEvents, NameMachine, Class, FieldIndexMoves, Token;
    var init, ch := name[..|name| - 1], name[|name| - 1];
    NameRecognised(init);
    ClassShort(LowerName(init));
    var r := NameMachine(init);
    if !FieldIndexMoves(r.h) {
      IndexMatters(r.h, |init|, r.index, ch);
    }
    ClassStep(LowerName(init), ch);
    MachineStep(name);
    NextLetterStep(cfg, c, ch);
  }

  lemma MachineStep(name: seq<byte>)
    requires |name| > 1
    ensures var r, ch := NameMachine(name[..|name| - 1]), name[|name| - 1];
            var index := if FieldIndexMoves(r.h) then Bump(r.index) else r.index;
            FieldState(r.h, index, ch).Some? ==>
              NameMachine(name) == Recognizer(FieldState(r.h, index, ch).value, index)
  {
    hide FieldState, FieldIndexMoves;
  }

  lemma NextLetterStep(cfg: Settings, c: Conf, ch: byte)
    requires c.q.errno == OK && c.q.state == Header(HeaderField) && IsToken(ch)
    requires c.q.nread < cfg.maxHeaderSize < UINT32_MODULUS
    ensures Advance(cfg, c, ch).q == OnField(Count(c.q, 1), ch).q
  {
    hide OnField, FeedAll, ByteEvents;
  }

  lemma {:induction false} NameRun(cfg: Settings, c: Conf, name: seq<byte>)
    requires name != [] && Tokens(name) && HeaderMayStart(c.q)
    requires c.q.nread + |name| <= cfg.maxHeaderSize < UINT32_MODULUS
    ensures Run(cfg, c, name).q == Named(LineRegisters(c.q), name)
    decreases |name|
  {
    hide Advance, NameMachine;
    if |name| == 1 {
      assert name[..0] == [] && name == [name[0]];
      FirstLetter(cfg, c, name[0]);
    } else {
      NameRun(cfg, c, name[..|name| - 1]);
      NextLetter(cfg, Run(cfg, c, name[..|name| - 1]), name, LineRegisters(c.q));
    }
  }

  predicate Blanks(ws: seq<byte>) { forall i | 0 <= i < |ws| :: ws[i] == ' ' || ws[i] == TAB }

  lemma {:induction false} BlanksRun(cfg: Settings, c: Conf, ws: seq<byte>)
    requires Blanks(ws) && c.q.errno == OK && c.q.state == Header(HeaderValueDiscardWs)
    requires c.q.nread + |ws| <= cfg.maxHeaderSize < UINT32_MODULUS
    ensures Run(cfg, c, ws).q == c.q.(nread := c.q.nread + |ws|)
    decreases |ws|
  {
    hide Advance;
    if ws != [] {
      BlanksRun(cfg, c, ws[..|ws| - 1]);
      BlankStep(cfg, Run(cfg, c, ws[..|ws| - 1]), ws[|ws| - 1]);
    }
  }

  lemma BlankStep(cfg: Settings, c: Conf, ch: byte)
    requires (ch == ' ' || ch == TAB) && c.q.errno == OK && c.q.state == Header(HeaderValueDiscardWs)
    requires c.q.nread < cfg.maxHeaderSize < UINT32_MODULUS
    ensures Advance(cfg, c, ch).q == c.q.(nread := c.q.nread + 1)
  {
    hide FeedAll, ByteEvents;
  }

  lemma ColonStep(cfg: Settings, c: Conf)
    requires c.q.errno == OK && c.q.state == Header(HeaderField) && c.q.nread < cfg.maxHeaderSize < UINT32_MODULUS
    ensures Advance(cfg, c, ':').q == c.q.(nread := c.q.nread + 1, state := Header(HeaderValueDiscardWs))
  {
    hide FeedAll, ByteEvents;
  }

  lemma FirstDigitStep(cfg: Settings, c: Conf, ch: byte)
    requires c.q.errno == OK && c.q.state == Header(HeaderValueDiscardWs) && c.q.hstate == ContentLength && IsNum(ch)
    requires !c.q.flags.contentLength && c.q.nread < cfg.maxHeaderSize < UINT32_MODULUS
    ensures var q := Advance(cfg, c, ch).q;
            ReadingLength(q, [ch]) && q.nread == c.q.nread + 1 && q.flags == c.q.flags.(contentLength := true)
  {
    hide FeedAll, ByteEvents;
    assert [ch][..0] == [];
    assert Decimal([ch]) == DigitValue(ch);
  }

  /** A name and its colon, wherever a header line may begin: the machine knows which header it is, and the
      header before has taken effect. */
  lemma NameAndColon(cfg: Settings, c: Conf, name: seq<byte>)
    requires HeaderMayStart(c.q) && name != [] && Tokens(name)
    requires c.q.nread + |name| + 1 <= cfg.maxHeaderSize < UINT32_MODULUS
    ensures var q := Run(cfg, c, name + [':']).q;
            && q.errno == OK && q.state == Header(HeaderValueDiscardWs) && q.hstate == Class(LowerName(name))
            && q.flags == LineRegisters(c.q).flags && q.nread == c.q.nread + |name| + 1
            && q.contentLength == c.q.contentLength
  {
    hide Advance, NameMachine, Class;
    NameRun(cfg, c, name);
    NameRecognised(name);
    var c1 := Run(cfg, c, name);
    RunOne(cfg, c1, ':');
    ColonStep(cfg, c1);
    RunConcat(cfg, c, name, [':']);
  }

  lemma LengthValueStarts(cfg: Settings, c: Conf, ws: seq<byte>, first: byte)
    requires c.q.errno == OK && c.q.state == Header(HeaderValueDiscardWs) && c.q.hstate == ContentLength
    requires !c.q.flags.contentLength && Blanks(ws) && IsNum(first)
    requires c.q.nread + |ws| + 1 <= cfg.maxHeaderSize < UINT32_MODULUS
    ensures var q := Run(cfg, c, ws + [first]).q; ReadingLength(q, [first]) && q.nread == c.q.nread + |ws| + 1
  {
    hide Advance, Decimal;
    BlanksRun(cfg, c, ws);
    RunOne(cfg, Run(cfg, c, ws), first);
    FirstDigitStep(cfg, Run(cfg, c, ws), first);
    RunConcat(cfg, c, ws, [first]);
  }

  /** Of the flags that the end of the body depends on, the end of a header at most sets the chunked one. */
  lemma FinishKeeps(q: Parser)
    ensures SameFraming(FinishHeader(q), q.flags.(chunked := FinishHeader(q).chunked))
    ensures q.flags.chunked ==> FinishHeader(q).chunked
  {
    hide ConnectionFlag;
    TokenKeeps(q);
  }

  lemma FinishedLength(q: Parser)
    ensures LineRegisters(q).flags.contentLength == q.flags.contentLength
  {
    hide FinishHeader;
    FinishKeeps(q);
  }

  lemma LengthClass(name: seq<byte>)
    requires LowerName(name) == CONTENT_LENGTH
    ensures Class(LowerName(name)) == ContentLength
  {
    Literals();
  }

  /** From the header line to the register: a Content-Length line, wherever a header line may begin, in any
      letter case, with any blanks before the digits and however it is cut, makes the register the decimal
      number it shows, or the message is refused because the number does not fit. */
  lemma ContentLengthHeader(cfg: Settings, c: Conf, name: seq<byte>, ws: seq<byte>, first: byte, rest: seq<byte>)
    requires HeaderMayStart(c.q) && !c.q.flags.contentLength
    requires name != [] && Tokens(name) && LowerName(name) == CONTENT_LENGTH
    requires Blanks(ws) && IsNum(first) && Digits(rest)
    requires c.q.nread + |name| + |ws| + |rest| + 2 <= cfg.maxHeaderSize < UINT32_MODULUS
    ensures Digits([first] + rest)
    ensures var q := Run(cfg, c, (name + [':']) + ((ws + [first]) + rest)).q;
            if FitsDecimal([first] + rest)
            then ReadingLength(q, [first] + rest) && q.contentLength == Decimal([first] + rest)
            else q.errno == INVALID_CONTENT_LENGTH
  {
    hide Run, Decimal, FitsDecimal, LowerName, Tokens, Class, LineRegisters;
    NameAndColon(cfg, c, name);
    LengthClass(name);
    FinishedLength(c.q);
    var c1 := Run(cfg, c, name + [':']);
    LengthValueStarts(cfg, c1, ws, first);
    ContentLengthExact(cfg, Run(cfg, c1, ws + [first]), first, rest);
    RunConcat(cfg, c1, ws + [first], rest);
    RunConcat(cfg, c, name + [':'], (ws + [first]) + rest);
  }

  lemma SecondDigitStep(cfg: Settings, c: Conf, ch: byte)
    requires c.q.errno == OK && c.q.state == Header(HeaderValueDiscardWs) && c.q.hstate == ContentLength && IsNum(ch)
    requires c.q.flags.contentLength && c.q.nread < cfg.maxHeaderSize < UINT32_MODULUS
    ensures Advance(cfg, c, ch).q.errno == UNEXPECTED_CONTENT_LENGTH
  {
    hide FeedAll, ByteEvents;
  }

  /** A second Content-Length line is refused at its first digit. */
  lemma SecondLengthRefused(cfg: Settings, c: Conf, name: seq<byte>, ws: seq<byte>, first: byte)
    requires HeaderMayStart(c.q) && c.q.flags.contentLength
    requires name != [] && Tokens(name) && LowerName(name) == CONTENT_LENGTH && Blanks(ws) && IsNum(first)
    requires c.q.nread + |name| + |ws| + 2 <= cfg.maxHeaderSize < UINT32_MODULUS
    ensures Run(cfg, c, (name + [':']) + (ws + [first])).q.errno == UNEXPECTED_CONTENT_LENGTH
  {
    hide Advance, LowerName, Tokens, Class, LineRegisters;
    NameAndColon(cfg, c, name);
    LengthClass(name);
    FinishedLength(c.q);
    var c1 := Run(cfg, c, name + [':']);
    BlanksRun(cfg, c1, ws);
    RunOne(cfg, Run(cfg, c1, ws), first);
    SecondDigitStep(cfg, Run(cfg, c1, ws), first);
    RunConcat(cfg, c1, ws, [first]);
    RunConcat(cfg, c, name + [':'], ws + [first]);
  }
}
