/** The end of a request line: which texts between the target and the header block are taken for a version, and
    what they leave in the registers. */
module HttpVersions {
  import opened HttpTypes
  import opened HttpStep
  import opened HttpRun

  function Spaces(k: nat): (r: seq<byte>)
    ensures |r| == k && forall i :: 0 <= i < k ==> r[i] == ' '
  {
    seq(k, i requires 0 <= i < k => ' ')
  }

  /** A line ends with a line feed, and a carriage return may stand in front of it. */
  function Eol(cr: bool): seq<byte> { if cr then [CR, LF] else [LF] }

  /** The protocol's name; the other one is for SOURCE requests. */
  function Protocol(ice: bool): seq<byte> { if ice then ['I', 'C', 'E'] else ['H', 'T', 'T', 'P'] }

  function VersionLine(k: nat, ice: bool, d: byte, e: byte, cr: bool): seq<byte> {
    ((Spaces(k) + Protocol(ice)) + ['/', d, '.', e]) + Eol(cr)
  }

  // ------------------------------------------------------------------ one byte

  lemma VersionByte(cfg: Settings, c: Conf, ch: byte)
    requires c.q.state.Version? && HeaderRoom(cfg, c.q, 1)
    ensures Advance(cfg, c, ch) == Conf(OnReqVersion(Count(c.q, 1), ch).q, c.trace)
  {
    hide Advance;
    assert Step(cfg, c.q, ch) == OnReqVersion(Count(c.q, 1), ch) && OnReqVersion(Count(c.q, 1), ch).fx == NOTHING;
    QuietByte(cfg, c, ch);
  }

  /** The bytes that only lead on. */
  predicate Leads(p: VersionPoint, ch: byte, next: State) {
    || (p == ReqHttpStart && ch == ' ' && next == Version(ReqHttpStart))
    || (p == ReqHttpStart && ch == 'H' && next == Version(ReqHttpH))
    || (p == ReqHttpH && ch == 'T' && next == Version(ReqHttpHT))
    || (p == ReqHttpHT && ch == 'T' && next == Version(ReqHttpHTT))
    || (p == ReqHttpHTT && ch == 'P' && next == Version(ReqHttpHTTP))
    || (p == ReqHttpI && ch == 'C' && next == Version(ReqHttpIC))
    || (p == ReqHttpIC && ch == 'E' && next == Version(ReqHttpHTTP))
    || (p == ReqHttpHTTP && ch == '/' && next == Version(ReqHttpMajor))
    || (p == ReqHttpDot && ch == '.' && next == Version(ReqHttpMinor))
    || (p == ReqHttpEnd && ch == CR && next == Version(ReqLineAlmostDone))
    || (p == ReqHttpEnd && ch == LF && next == Header(HeaderFieldStart))
    || (p == ReqLineAlmostDone && ch == LF && next == Header(HeaderFieldStart))
  }

  lemma Lead(cfg: Settings, c: Conf, p: VersionPoint, ch: byte, next: State)
    requires c.q.state == Version(p) && HeaderRoom(cfg, c.q, 1)
    requires Leads(p, ch, next) || (p == ReqHttpStart && ch == 'I' && c.q.verb == SOURCE && next == Version(ReqHttpI))
    ensures Advance(cfg, c, ch) == Conf(c.q.(state := next, nread := c.q.nread + 1), c.trace)
  {
    hide Advance;
    VersionByte(cfg, c, ch);
  }

  lemma Digit(cfg: Settings, c: Conf, ch: byte)
    requires HeaderRoom(cfg, c.q, 1) && IsNum(ch)
    ensures c.q.state == Version(ReqHttpMajor) ==>
              Advance(cfg, c, ch)
              == Conf(c.q.(state := Version(ReqHttpDot), major := DigitValue(ch), nread := c.q.nread + 1), c.trace)
    ensures c.q.state == Version(ReqHttpMinor) ==>
              Advance(cfg, c, ch)
              == Conf(c.q.(state := Version(ReqHttpEnd), minor := DigitValue(ch), nread := c.q.nread + 1), c.trace)
  {
    hide Advance;
    if c.q.state.Version? {
      VersionByte(cfg, c, ch);
    }
  }

  // ------------------------------------------------------------------ every such text is taken

  lemma {:induction false} SpacesRun(cfg: Settings, c: Conf, k: nat)
    requires c.q.state == Version(ReqHttpStart) && HeaderRoom(cfg, c.q, k)
    ensures Run(cfg, c, Spaces(k)) == Conf(c.q.(nread := c.q.nread + k), c.trace)
    decreases k
  {
    hide Advance;
    if k == 0 {
      RunNothing(cfg, c);
      assert Spaces(0) == [];
    } else {
      assert Spaces(k)[..k - 1] == Spaces(k - 1);
      SpacesRun(cfg, c, k - 1);
      Lead(cfg, Run(cfg, c, Spaces(k - 1)), ReqHttpStart, ' ', Version(ReqHttpStart));
    }
  }

  lemma ProtocolRun(cfg: Settings, c: Conf, ice: bool)
    requires c.q.state == Version(ReqHttpStart) && HeaderRoom(cfg, c.q, |Protocol(ice)|) && (ice ==> c.q.verb == SOURCE)
    ensures Run(cfg, c, Protocol(ice))
         == Conf(c.q.(state := Version(ReqHttpHTTP), nread := c.q.nread + |Protocol(ice)|), c.trace)
  {
    hide Run, Advance, Leads;
    RunNothing(cfg, c);
    var w: seq<byte> := [];
    if ice {
      RunNext(cfg, c, w, 'I'); Lead(cfg, Run(cfg, c, w), ReqHttpStart, 'I', Version(ReqHttpI)); w := w + ['I'];
      assert Leads(ReqHttpI, 'C', Version(ReqHttpIC)) && Leads(ReqHttpIC, 'E', Version(ReqHttpHTTP)) by { LeadsOn(); }
      RunNext(cfg, c, w, 'C'); Lead(cfg, Run(cfg, c, w), ReqHttpI, 'C', Version(ReqHttpIC)); w := w + ['C'];
      RunNext(cfg, c, w, 'E'); Lead(cfg, Run(cfg, c, w), ReqHttpIC, 'E', Version(ReqHttpHTTP)); w := w + ['E'];
    } else {
      LeadsOn();
      RunNext(cfg, c, w, 'H'); Lead(cfg, Run(cfg, c, w), ReqHttpStart, 'H', Version(ReqHttpH)); w := w + ['H'];
      RunNext(cfg, c, w, 'T'); Lead(cfg, Run(cfg, c, w), ReqHttpH, 'T', Version(ReqHttpHT)); w := w + ['T'];
      RunNext(cfg, c, w, 'T'); Lead(cfg, Run(cfg, c, w), ReqHttpHT, 'T', Version(ReqHttpHTT)); w := w + ['T'];
      RunNext(cfg, c, w, 'P'); Lead(cfg, Run(cfg, c, w), ReqHttpHTT, 'P', Version(ReqHttpHTTP)); w := w + ['P'];
    }
    assert w == Protocol(ice);
  }

  lemma LeadsOn()
    ensures Leads(ReqHttpStart, 'H', Version(ReqHttpH)) && Leads(ReqHttpH, 'T', Version(ReqHttpHT))
    ensures Leads(ReqHttpHT, 'T', Version(ReqHttpHTT)) && Leads(ReqHttpHTT, 'P', Version(ReqHttpHTTP))
    ensures Leads(ReqHttpI, 'C', Version(ReqHttpIC)) && Leads(ReqHttpIC, 'E', Version(ReqHttpHTTP))
    ensures Leads(ReqHttpHTTP, '/', Version(ReqHttpMajor)) && Leads(ReqHttpDot, '.', Version(ReqHttpMinor))
  {
  }

  lemma NumbersRun(cfg: Settings, c: Conf, d: byte, e: byte)
    requires c.q.state == Version(ReqHttpHTTP) && HeaderRoom(cfg, c.q, 4) && IsNum(d) && IsNum(e)
    ensures Run(cfg, c, ['/', d, '.', e])
         == Conf(c.q.(state := Version(ReqHttpEnd), major := DigitValue(d), minor := DigitValue(e),
                      nread := c.q.nread + 4), c.trace)
  {
    hide Run, Advance, Leads;
    RunNothing(cfg, c);
    LeadsOn();
    var w: seq<byte> := [];
    RunNext(cfg, c, w, '/'); Lead(cfg, Run(cfg, c, w), ReqHttpHTTP, '/', Version(ReqHttpMajor)); w := w + ['/'];
    RunNext(cfg, c, w, d); Digit(cfg, Run(cfg, c, w), d); w := w + [d];
    RunNext(cfg, c, w, '.'); Lead(cfg, Run(cfg, c, w), ReqHttpDot, '.', Version(ReqHttpMinor)); w := w + ['.'];
    RunNext(cfg, c, w, e); Digit(cfg, Run(cfg, c, w), e); w := w + [e];
    assert w == ['/', d, '.', e];
  }

  lemma EndRun(cfg: Settings, c: Conf, cr: bool)
    requires c.q.state == Version(ReqHttpEnd) && HeaderRoom(cfg, c.q, |Eol(cr)|)
    ensures Run(cfg, c, Eol(cr))
         == Conf(c.q.(state := Header(HeaderFieldStart), nread := c.q.nread + |Eol(cr)|), c.trace)
  {
    hide Run, Advance;
    RunNothing(cfg, c);
    var w: seq<byte> := [];
    if cr {
      RunNext(cfg, c, w, CR); Lead(cfg, Run(cfg, c, w), ReqHttpEnd, CR, Version(ReqLineAlmostDone)); w := w + [CR];
      RunNext(cfg, c, w, LF); Lead(cfg, Run(cfg, c, w), ReqLineAlmostDone, LF, Header(HeaderFieldStart)); w := w + [LF];
    } else {
      RunNext(cfg, c, w, LF); Lead(cfg, Run(cfg, c, w), ReqHttpEnd, LF, Header(HeaderFieldStart)); w := w + [LF];
    }
    assert w == Eol(cr);
  }

  /** Blanks, the protocol, two digits and the end of the line lead to the header block, without a callback. */
  lemma VersionRun(cfg: Settings, c: Conf, k: nat, ice: bool, d: byte, e: byte, cr: bool)
    requires c.q.state == Version(ReqHttpStart) && HeaderRoom(cfg, c.q, |VersionLine(k, ice, d, e, cr)|)
    requires IsNum(d) && IsNum(e) && (ice ==> c.q.verb == SOURCE)
    ensures Run(cfg, c, VersionLine(k, ice, d, e, cr))
         == Conf(c.q.(state := Header(HeaderFieldStart), major := DigitValue(d), minor := DigitValue(e),
                      nread := c.q.nread + |VersionLine(k, ice, d, e, cr)|), c.trace)
  {
    hide Run;
    SpacesRun(cfg, c, k);
    var c1 := Run(cfg, c, Spaces(k));
    ProtocolRun(cfg, c1, ice);
    RunConcat(cfg, c, Spaces(k), Protocol(ice));
    var c2 := Run(cfg, c1, Protocol(ice));
    NumbersRun(cfg, c2, d, e);
    RunConcat(cfg, c, Spaces(k) + Protocol(ice), ['/', d, '.', e]);
    EndRun(cfg, Run(cfg, c2, ['/', d, '.', e]), cr);
    RunConcat(cfg, c, (Spaces(k) + Protocol(ice)) + ['/', d, '.', e], Eol(cr));
  }

  // ------------------------------------------------------------------ no other text is taken

  /** What has been read at each point, behind the blanks. */
  function Before(p: VersionPoint, ice: bool, d: byte, e: byte): seq<byte> {
    match p
    case ReqHttpStart => []
    case ReqHttpH => ['H']
    case ReqHttpHT => ['H', 'T']
    case ReqHttpHTT => ['H', 'T', 'T']
    case ReqHttpI => ['I']
    case ReqHttpIC => ['I', 'C']
    case ReqHttpHTTP => Protocol(ice)
    case ReqHttpMajor => Protocol(ice) + ['/']
    case ReqHttpDot => Protocol(ice) + ['/', d]
    case ReqHttpMinor => Protocol(ice) + ['/', d, '.']
    case ReqHttpEnd => Protocol(ice) + ['/', d, '.', e]
    case ReqLineAlmostDone => Protocol(ice) + ['/', d, '.', e] + [CR]
  }

  predicate HasMajor(p: VersionPoint) { p.ReqHttpDot? || p.ReqHttpMinor? || HasMinor(p) }

  predicate HasMinor(p: VersionPoint) { p.ReqHttpEnd? || p.ReqLineAlmostDone? }

  predicate Reads(q: Parser, verb: Method, p: VersionPoint, w: seq<byte>, k: nat, ice: bool, d: byte, e: byte) {
    && q.errno == OK && q.state == Version(p) && q.verb == verb
    && w == Spaces(k) + Before(p, ice, d, e)
    && (ice || p.ReqHttpI? || p.ReqHttpIC? ==> verb == SOURCE)
    && (HasMajor(p) ==> IsNum(d)) && (HasMinor(p) ==> IsNum(e))
  }

  lemma MoreSpaces(k: nat)
    ensures Spaces(k) + [' '] == Spaces(k + 1)
  {
  }

  /** The byte is one that leads on, or a digit. */
  predicate Continues(p: VersionPoint, verb: Method, ch: byte, next: State) {
    || Leads(p, ch, next) || (p == ReqHttpStart && ch == 'I' && verb == SOURCE && next == Version(ReqHttpI))
    || (IsNum(ch) && ((p == ReqHttpMajor && next == Version(ReqHttpDot))
                      || (p == ReqHttpMinor && next == Version(ReqHttpEnd))))
  }

  lemma OnlyFollowing(q: Parser, p: VersionPoint, ch: byte)
    requires q.errno == OK && q.state == Version(p) && OnReqVersion(q, ch).q.errno == OK
    ensures Continues(p, q.verb, ch, OnReqVersion(q, ch).q.state) && OnReqVersion(q, ch).q.verb == q.verb
  {
  }

  predicate InName(p: VersionPoint) {
    p.ReqHttpH? || p.ReqHttpHT? || p.ReqHttpHTT? || p.ReqHttpI? || p.ReqHttpIC?
  }

  lemma NameGrows(p: VersionPoint, verb: Method, ice: bool, d: byte, e: byte, ch: byte, next: VersionPoint)
    requires Continues(p, verb, ch, Version(next)) && InName(p)
    ensures Before(p, ice, d, e) + [ch] == Before(next, p == ReqHttpIC, d, e)
    ensures !HasMajor(next) && (p.ReqHttpI? || p.ReqHttpIC? <==> next.ReqHttpIC? || p == ReqHttpIC) && !next.ReqHttpI?
  {
  }

  lemma NumbersGrow(p: VersionPoint, verb: Method, ice: bool, d: byte, e: byte, ch: byte, next: VersionPoint)
    requires Continues(p, verb, ch, Version(next)) && p != ReqHttpStart && !InName(p)
    ensures Before(p, ice, d, e) + [ch]
         == Before(next, ice, if p == ReqHttpMajor then ch else d, if p == ReqHttpMinor then ch else e)
    ensures !next.ReqHttpI? && !next.ReqHttpIC?
    ensures (HasMajor(next) ==> HasMajor(p) || (p == ReqHttpMajor && IsNum(ch)))
    ensures (HasMinor(next) ==> HasMinor(p) || (p == ReqHttpMinor && IsNum(ch)))
  {
    hide Protocol;
  }

  lemma NotLineFeed(p: VersionPoint, verb: Method, ch: byte, next: State)
    requires Continues(p, verb, ch, next) && ch != LF
    ensures next.Version?
  {
  }

  /** Behind the blanks. */
  lemma FirstGrows(verb: Method, k: nat, ice: bool, d: byte, e: byte, ch: byte, next: VersionPoint)
    requires Continues(ReqHttpStart, verb, ch, Version(next))
    ensures (Spaces(k) + Before(ReqHttpStart, ice, d, e)) + [ch]
         == Spaces(if ch == ' ' then k + 1 else k) + Before(next, false, d, e)
    ensures !HasMajor(next) && (next.ReqHttpI? || next.ReqHttpIC? ==> verb == SOURCE)
  {
    MoreSpaces(k);
  }

  lemma ByteReads(q: Parser, verb: Method, p: VersionPoint, w: seq<byte>, k: nat, ice: bool, d: byte, e: byte, ch: byte)
    returns (k': nat, ice': bool, d': byte, e': byte)
    requires Reads(q, verb, p, w, k, ice, d, e) && ch != LF && OnReqVersion(q, ch).q.errno == OK
    ensures var r := OnReqVersion(q, ch).q;
            r.state.Version? && Reads(r, verb, r.state.version, w + [ch], k', ice', d', e')
  {
    hide OnReqVersion, Before, Leads;
    OnlyFollowing(q, p, ch);
    var r := OnReqVersion(q, ch).q;
    NotLineFeed(p, verb, ch, r.state);
    k', ice', d', e' := k, ice, d, e;
    if p == ReqHttpStart {
      FirstGrows(verb, k, ice, d, e, ch, r.state.version);
      k' := if ch == ' ' then k + 1 else k;
      ice' := false;
    } else {
      if InName(p) {
        NameGrows(p, verb, ice, d, e, ch, r.state.version);
        ice' := p == ReqHttpIC;
      } else {
        NumbersGrow(p, verb, ice, d, e, ch, r.state.version);
        d', e' := if p == ReqHttpMajor then ch else d, if p == ReqHttpMinor then ch else e;
      }
      assert w + [ch] == Spaces(k) + (Before(p, ice, d, e) + [ch]);
    }
  }

  /** The registers that a version leaves alone. */
  predicate Versioned(q: Parser, r: Parser, n: nat) {
    r == q.(state := r.state, major := r.major, minor := r.minor, nread := q.nread + n)
  }

  lemma {:induction false} LineReads(cfg: Settings, c: Conf, w: seq<byte>)
    returns (p: VersionPoint, k: nat, ice: bool, d: byte, e: byte)
    requires c.q.state == Version(ReqHttpStart) && HeaderRoom(cfg, c.q, |w|) && LF !in w
    requires Run(cfg, c, w).q.errno == OK
    ensures Reads(Run(cfg, c, w).q, c.q.verb, p, w, k, ice, d, e) && Run(cfg, c, w).q.nread == c.q.nread + |w|
    decreases |w|
  {
    hide Advance, Run, Reads, OnReqVersion;
    if w == [] {
      RunNothing(cfg, c);
      p, k, ice, d, e := ReqHttpStart, 0, false, 0 as char, 0 as char;
      NothingRead(c.q, d, e);
    } else {
      var n := |w| - 1;
      assert w == w[..n] + [w[n]];
      RunNext(cfg, c, w[..n], w[n]);
      var mid := Run(cfg, c, w[..n]);
      if mid.q.errno != OK { FailedStays(cfg, mid, w[n]); }
      p, k, ice, d, e := LineReads(cfg, c, w[..n]);
      ReadsState(mid.q, c.q.verb, p, w[..n], k, ice, d, e);
      VersionByte(cfg, mid, w[n]);
      CountReads(mid.q, c.q.verb, p, w[..n], k, ice, d, e);
      k, ice, d, e := ByteReads(Count(mid.q, 1), c.q.verb, p, w[..n], k, ice, d, e, w[n]);
      p := Run(cfg, c, w).q.state.version;
      KeepsCount(Count(mid.q, 1), w[n]);
    }
  }

  lemma NothingRead(q: Parser, d: byte, e: byte)
    requires q.errno == OK && q.state == Version(ReqHttpStart)
    ensures Reads(q, q.verb, ReqHttpStart, [], 0, false, d, e)
  {
  }

  lemma ReadsState(q: Parser, verb: Method, p: VersionPoint, w: seq<byte>, k: nat, ice: bool, d: byte, e: byte)
    requires Reads(q, verb, p, w, k, ice, d, e)
    ensures q.errno == OK && q.state == Version(p) && q.verb == verb
  {
  }

  lemma CountReads(q: Parser, verb: Method, p: VersionPoint, w: seq<byte>, k: nat, ice: bool, d: byte, e: byte)
    requires Reads(q, verb, p, w, k, ice, d, e)
    ensures Reads(Count(q, 1), verb, p, w, k, ice, d, e)
  {
    hide Before;
  }

  lemma KeepsCount(q: Parser, ch: byte)
    requires q.state.Version?
    ensures OnReqVersion(q, ch).q.nread == q.nread
  {
  }

  lemma LineFeedReads(q: Parser, verb: Method, p: VersionPoint, w: seq<byte>, k: nat, ice: bool, d: byte, e: byte)
    requires Reads(q, verb, p, w, k, ice, d, e) && OnReqVersion(q, LF).q.errno == OK
    ensures w + [LF] == VersionLine(k, ice, d, e, p == ReqLineAlmostDone)
    ensures IsNum(d) && IsNum(e) && (ice ==> verb == SOURCE)
  {
    assert p == ReqHttpEnd || p == ReqLineAlmostDone;
    hide OnReqVersion, Protocol;
    assert [CR] + [LF] == [CR, LF];
  }

  lemma VersionOrigin(cfg: Settings, c: Conf, w: seq<byte>)
    returns (k: nat, ice: bool, d: byte, e: byte, cr: bool)
    requires c.q.state == Version(ReqHttpStart) && HeaderRoom(cfg, c.q, |w| + 1) && LF !in w
    requires Run(cfg, c, w + [LF]).q.errno == OK
    ensures w + [LF] == VersionLine(k, ice, d, e, cr) && IsNum(d) && IsNum(e) && (ice ==> c.q.verb == SOURCE)
  {
    hide Advance, Run, Reads, OnReqVersion, VersionLine;
    RunNext(cfg, c, w, LF);
    var mid := Run(cfg, c, w);
    if mid.q.errno != OK { FailedStays(cfg, mid, LF); }
    var p;
    p, k, ice, d, e := LineReads(cfg, c, w);
    ReadsState(mid.q, c.q.verb, p, w, k, ice, d, e);
    VersionByte(cfg, mid, LF);
    CountReads(mid.q, c.q.verb, p, w, k, ice, d, e);
    LineFeedReads(Count(mid.q, 1), c.q.verb, p, w, k, ice, d, e);
    cr := p == ReqLineAlmostDone;
  }

  /** Behind the target and its blank, a text up to its line feed is read without an error exactly if it is a
      version line. */
  lemma VersionExact(cfg: Settings, c: Conf, w: seq<byte>)
    requires c.q.state == Version(ReqHttpStart) && HeaderRoom(cfg, c.q, |w| + 1) && LF !in w
    ensures Run(cfg, c, w + [LF]).q.errno == OK <==>
              exists k, ice, d, e, cr :: w + [LF] == VersionLine(k, ice, d, e, cr) && IsNum(d) && IsNum(e)
                                         && (ice ==> c.q.verb == SOURCE)
  {
    hide Run, VersionLine;
    if Run(cfg, c, w + [LF]).q.errno == OK {
      var k, ice, d, e, cr := VersionOrigin(cfg, c, w);
    }
    forall k, ice, d, e, cr | w + [LF] == VersionLine(k, ice, d, e, cr) && IsNum(d) && IsNum(e)
                              && (ice ==> c.q.verb == SOURCE)
      ensures Run(cfg, c, w + [LF]).q.errno == OK
    {
      VersionRun(cfg, c, k, ice, d, e, cr);
    }
  }
}
