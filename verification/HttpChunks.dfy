/** Chunked bodies: which lines announce a chunk, and that the delivered body is the chunks' data, one behind
    the other, for whole messages in both directions. */
module HttpChunks {
  import opened Common
  import opened HttpTypes
  import opened HttpStep
  import opened HttpRun
  import opened HttpInvariant
  import opened HttpGrammar
  import opened HttpOrder
  import opened HttpBodyLoop
  import opened HttpLength
  import opened HttpBodies

  // ------------------------------------------------------------------ chunk lines

  /** The hexadecimal digits a line begins with. */
  function HexPrefix(w: seq<byte>): (s: seq<byte>)
    ensures HexDigits(s) && s <= w && (|s| < |w| ==> Unhex(w[|s|]) == -1)
  {
    if w == [] then []
    else
      var s := HexPrefix(w[..|w| - 1]);
      if |s| == |w| - 1 && Unhex(w[|w| - 1]) != -1 then w else s
  }

  function LineSize(w: seq<byte>): nat { Hexadecimal(HexPrefix(w)) }

  /** What may stand in front of a chunk line's CR: digits of a number that fits, then nothing, or a blank or
      a semicolon and anything behind it. */
  predicate GoodLine(w: seq<byte>) {
    var s := HexPrefix(w);
    s != [] && FitsHexadecimal(s) && (s == w || w[|s|] == ';' || w[|s|] == ' ')
  }

  lemma PrefixSnoc(w: seq<byte>, ch: byte)
    ensures var s := HexPrefix(w);
            HexPrefix(w + [ch]) == if s == w && Unhex(ch) != -1 then w + [ch] else s
  {
    assert (w + [ch])[..|w|] == w;
  }

  /** The guarded 64-bit update is exact where it does not refuse. */
  lemma PushHexExact(s: seq<byte>, ch: byte)
    requires HexDigits(s) && s != [] && FitsHexadecimal(s) && Unhex(ch) != -1
    ensures HexDigits(s + [ch])
    ensures PushHex(Hexadecimal(s), ch)
         == if FitsHexadecimal(s + [ch]) then Some(Hexadecimal(s + [ch])) else None
  {
    assert (s + [ch])[..|s|] == s;
    if FitsHexadecimal(s + [ch]) {
      FitsHexadecimalPrefix(s + [ch]);
    }
  }

  lemma OneHexDigit(ch: byte)
    requires Unhex(ch) != -1
    ensures FitsHexadecimal([ch]) && Hexadecimal([ch]) == Unhex(ch)
  {
    assert [ch][..0] == [] && Hexadecimal([]) == 0;
  }

  /** Between two chunks, or before the first one. */
  predicate AtChunk(cfg: Settings, q: Parser) {
    Inv(cfg, q) && q.state == ChunkLine(ChunkSizeStart) && cfg.maxHeaderSize + 1 < UINT32_MODULUS
  }

  /** The registers inside a chunk line. */
  function InLine(q: Parser, w: seq<byte>): Parser {
    if w == [] then q
    else q.(contentLength := LineSize(w), nread := |w|,
            state := ChunkLine(if HexPrefix(w) == w then ChunkSize else ChunkParameters))
  }

  predicate LineTracks(cfg: Settings, c: Conf, w: seq<byte>, r: Conf) {
    && r.trace == c.trace
    && (if w == [] || (GoodLine(w) && |w| <= cfg.maxHeaderSize) then r.q == InLine(c.q, w) else r.q.errno != OK)
  }

  lemma LineByte(cfg: Settings, c: Conf, ch: byte)
    requires c.q.errno == OK && c.q.state.ChunkLine? && c.q.state != ChunkLine(ChunkSizeAlmostDone)
    requires c.q.nread < UINT32_MODULUS - 1
    ensures Advance(cfg, c, ch).trace == c.trace
    ensures Advance(cfg, c, ch).q == if c.q.nread + 1 > cfg.maxHeaderSize then Count(c.q, 1).(errno := HEADER_OVERFLOW)
                                     else OnChunkLine(Count(c.q, 1), ch).q
  {
    hide OnChunkLine, FeedAll, ByteEvents;
    ChunkLineStep(cfg, c.q, ch);
    LineQuiet(Count(c.q, 1), ch);
    NoEvents(c.q.state, Step(cfg, c.q, ch), ch);
    FeedAllNone(c.trace);
  }

  lemma ChunkLineStep(cfg: Settings, q: Parser, ch: byte)
    requires q.state.ChunkLine? && q.nread < UINT32_MODULUS - 1
    ensures Step(cfg, q, ch) == if q.nread + 1 > cfg.maxHeaderSize then Fail(Count(q, 1), HEADER_OVERFLOW)
                                else OnChunkLine(Count(q, 1), ch)
  {
    hide OnChunkLine;
  }

  lemma LineQuiet(q: Parser, ch: byte)
    requires q.state.ChunkLine? && q.state != ChunkLine(ChunkSizeAlmostDone)
    ensures OnChunkLine(q, ch).fx == NOTHING
  {
    hide PushHex, Unhex;
  }

  lemma NoEvents(s: State, out: Outcome, ch: byte)
    requires out.fx == NOTHING && s.ChunkLine?
    ensures ByteEvents(s, out, ch) == []
  {
  }

  lemma FirstLineByte(cfg: Settings, c: Conf, ch: byte)
    requires AtChunk(cfg, c.q) && ch != CR
    ensures LineTracks(cfg, c, [ch], Advance(cfg, c, ch))
  {
    hide Advance, Hexadecimal, FitsHexadecimal, HexPrefix;
    LineByte(cfg, c, ch);
    assert [] + [ch] == [ch] && HexPrefix([]) == [] by { PrefixNone(); }
    PrefixSnoc([], ch);
    if Unhex(ch) != -1 {
      OneHexDigit(ch);
    }
  }

  lemma PrefixNone()
    ensures HexPrefix([]) == []
  {
  }

  /** How a line's goodness develops from byte to byte. */
  lemma GoodLineGrows(w: seq<byte>, ch: byte)
    requires w != []
    ensures !GoodLine(w) ==> !GoodLine(w + [ch])
    ensures GoodLine(w) && HexPrefix(w) != w ==> GoodLine(w + [ch]) && LineSize(w + [ch]) == LineSize(w)
                                                 && HexPrefix(w + [ch]) != w + [ch]
    ensures GoodLine(w) && HexPrefix(w) == w && Unhex(ch) == -1 ==>
              (GoodLine(w + [ch]) <==> ch == ';' || ch == ' ')
              && LineSize(w + [ch]) == LineSize(w) && HexPrefix(w + [ch]) != w + [ch]
    ensures GoodLine(w) && HexPrefix(w) == w && Unhex(ch) != -1 ==>
              HexPrefix(w + [ch]) == w + [ch]
              && PushHex(LineSize(w), ch) == if GoodLine(w + [ch]) then Some(LineSize(w + [ch])) else None
  {
    hide Hexadecimal, HexPrefix, PushHex, Unhex;
    var s := HexPrefix(w);
    PrefixSnoc(w, ch);
    if s == w && Unhex(ch) != -1 {
      if FitsHexadecimal(w) {
        PushHexExact(w, ch);
      } else {
        UnfitHexStays(w, ch);
      }
    }
  }

  lemma NextLineByte(cfg: Settings, c: Conf, w: seq<byte>, r: Conf, ch: byte)
    requires AtChunk(cfg, c.q) && w != [] && ch != CR && LineTracks(cfg, c, w, r)
    ensures LineTracks(cfg, c, w + [ch], Advance(cfg, r, ch))
  {
    hide Advance, Hexadecimal, HexPrefix, GoodLine, PushHex, Unhex, LineSize;
    if GoodLine(w) && |w| <= cfg.maxHeaderSize {
      LineByte(cfg, r, ch);
      GoodLineGrows(w, ch);
    } else {
      FailedStays(cfg, r, ch);
      GoodLineGrows(w, ch);
    }
  }

  lemma {:induction false} LineRun(cfg: Settings, c: Conf, w: seq<byte>)
    requires AtChunk(cfg, c.q) && CR !in w
    ensures LineTracks(cfg, c, w, Run(cfg, c, w))
    decreases |w|
  {
    hide Advance, LineTracks, AtChunk;
    if w == [] {
      assert LineTracks(cfg, c, w, c) by { NothingTracked(cfg, c); }
    } else {
      var n := |w| - 1;
      assert w == w[..n] + [w[n]];
      LineRun(cfg, c, w[..n]);
      if n == 0 {
        assert w[..0] == [];
        FirstLineByte(cfg, c, w[0]);
      } else {
        NextLineByte(cfg, c, w[..n], Run(cfg, c, w[..n]), w[n]);
      }
    }
  }

  lemma NothingTracked(cfg: Settings, c: Conf)
    ensures LineTracks(cfg, c, [], c)
  {
  }

  // ------------------------------------------------------------------ the end of a line

  /** The registers behind a chunk line: the chunk's data follows, or the trailer. */
  function Announced(q: Parser, n: nat): Parser {
    if n == 0 then q.(contentLength := 0, flags := q.flags.(trailing := true), state := Header(HeaderFieldStart))
    else q.(contentLength := n, state := ChunkBody(ChunkData))
  }

  const CRLF: seq<byte> := [CR, LF]

  lemma LineCr(cfg: Settings, c: Conf, w: seq<byte>, r: Conf)
    requires AtChunk(cfg, c.q) && CR !in w && LineTracks(cfg, c, w, r)
    ensures var d := Advance(cfg, r, CR);
            && d.trace == c.trace
            && (if GoodLine(w) && |w| + 1 <= cfg.maxHeaderSize
                then d.q == InLine(c.q, w).(nread := |w| + 1, state := ChunkLine(ChunkSizeAlmostDone))
                else d.q.errno != OK)
  {
    hide Advance, Hexadecimal, HexPrefix, FitsHexadecimal, LineSize;
    if r.q.errno != OK {
      FailedStays(cfg, r, CR);
    } else {
      LineByte(cfg, r, CR);
    }
  }

  lemma LineLf(cfg: Settings, c: Conf, ch: byte)
    requires c.q.errno == OK && c.q.state == ChunkLine(ChunkSizeAlmostDone) && c.q.flags.chunked
    requires c.q.nread < UINT32_MODULUS - 1
    ensures var d := Advance(cfg, c, ch);
            if ch == LF && c.q.nread + 1 <= cfg.maxHeaderSize
            then d == Conf(Announced(c.q, c.q.contentLength).(nread := 0),
                           Feed(c.trace, ChunkHeader(c.q.contentLength)))
            else d.q.errno != OK && d.trace == c.trace
  {
    hide Feed, FeedAll;
    FeedAllNone(c.trace);
    FeedOne(c.trace, ChunkHeader(c.q.contentLength));
    var out := Step(cfg, c.q, ch);
    if out.q.errno == OK {
      assert ByteEvents(c.q.state, out, ch) == [ChunkHeader(c.q.contentLength)];
    } else {
      assert ByteEvents(c.q.state, out, ch) == [];
    }
  }

  lemma RunTwo(cfg: Settings, c: Conf, a: byte, b: byte)
    ensures Run(cfg, c, [a, b]) == Advance(cfg, Advance(cfg, c, a), b)
  {
    hide Advance;
    assert [a, b] == [a] + [b];
    RunConcat(cfg, c, [a], [b]);
    RunOne(cfg, c, a);
    RunOne(cfg, Advance(cfg, c, a), b);
  }

  /** A chunk line is read without an error exactly if it is good and short enough; its size is then what
      on_chunk_header reports, and what the chunk's bytes are counted against. */
  lemma ChunkAnnounced(cfg: Settings, c: Conf, w: seq<byte>)
    requires AtChunk(cfg, c.q) && CR !in w
    ensures var r := Run(cfg, c, w + CRLF);
            && (r.q.errno == OK <==> GoodLine(w) && |w| + 2 <= cfg.maxHeaderSize)
            && (if r.q.errno == OK
                then r == Conf(Announced(c.q, LineSize(w)), Feed(c.trace, ChunkHeader(LineSize(w))))
                else r.trace == c.trace)
  {
    hide Run, Advance, GoodLine, LineSize, HexPrefix, Feed, LineTracks;
    LineRun(cfg, c, w);
    var r := Run(cfg, c, w);
    RunConcat(cfg, c, w, CRLF);
    RunTwo(cfg, r, CR, LF);
    LineCr(cfg, c, w, r);
    var d := Advance(cfg, r, CR);
    if d.q.errno == OK {
      assert w != [] by { GoodLineNotEmpty(w); }
      LineLf(cfg, d, LF);
    } else {
      FailedStays(cfg, d, LF);
    }
  }

  lemma GoodLineNotEmpty(w: seq<byte>)
    requires GoodLine(w)
    ensures w != []
  {
  }

  // ------------------------------------------------------------------ a chunk's data

  /** One chunk on the wire: the line that announces it, and its bytes. */
  datatype ChunkText = ChunkText(line: seq<byte>, data: seq<byte>)

  predicate GoodChunk(cfg: Settings, k: ChunkText) {
    && CR !in k.line && GoodLine(k.line) && |k.line| + 2 <= cfg.maxHeaderSize
    && |k.data| == LineSize(k.line) > 0
  }

  function ChunkEvents(k: ChunkText): seq<Event> { [ChunkHeader(|k.data|), Data(Body, k.data), ChunkComplete] }

  function ChunkWire(k: ChunkText): seq<byte> { (k.line + CRLF) + (k.data + CRLF) }

  /** A beginning of a chunk's data, and all of it. */
  lemma DataRun(cfg: Settings, c: Conf, d: seq<byte>)
    requires Inv(cfg, c.q) && c.q.state == ChunkBody(ChunkData) && 0 < |d| <= c.q.contentLength
    ensures Run(cfg, c, d) == Conf(BodyAfter(c.q, |d|), Feed(c.trace, Data(Body, d)))
  {
    hide Inv, Feed, BodyAfter;
    assert d[..0] == [] && Run(cfg, c, d[..0]) == c;
    hide Run;
    BodyGrows(cfg, c, d, 0, |d|, c.q, c.trace);
    assert d[..0 + |d|] == d && d[0..|d|] == d;
  }

  lemma DataCr(cfg: Settings, c: Conf, ch: byte)
    requires c.q.errno == OK && c.q.state == ChunkBody(ChunkDataAlmostDone)
    requires c.q.flags.chunked && c.q.contentLength == 0
    ensures var d := Advance(cfg, c, ch);
            d.trace == c.trace
            && (if ch == CR then d.q == c.q.(state := ChunkBody(ChunkDataDone)) else d.q.errno != OK)
  {
    hide Feed, FeedAll;
    FeedAllNone(c.trace);
    assert ByteEvents(c.q.state, Step(cfg, c.q, ch), ch) == [];
  }

  lemma DataLf(cfg: Settings, c: Conf, ch: byte)
    requires c.q.errno == OK && c.q.state == ChunkBody(ChunkDataDone) && c.q.flags.chunked
    ensures var d := Advance(cfg, c, ch);
            if ch == LF
            then d == Conf(c.q.(nread := 0, state := ChunkLine(ChunkSizeStart)), Feed(c.trace, ChunkComplete))
            else d.q.errno != OK && d.trace == c.trace
  {
    hide Feed, FeedAll;
    FeedAllNone(c.trace);
    FeedOne(c.trace, ChunkComplete);
    var out := Step(cfg, c.q, ch);
    if ch == LF {
      assert ByteEvents(c.q.state, out, ch) == [ChunkComplete];
    } else {
      assert ByteEvents(c.q.state, out, ch) == [];
    }
  }

  lemma FeedsApart(t: seq<Event>, n: nat, d: seq<byte>)
    ensures Feed(Feed(Feed(t, ChunkHeader(n)), Data(Body, d)), ChunkComplete)
         == t + [ChunkHeader(n), Data(Body, d), ChunkComplete]
  {
  }

  lemma AnnouncedInv(cfg: Settings, q: Parser, n: nat)
    requires AtChunk(cfg, q) && 0 < n < NO_LENGTH
    ensures Inv(cfg, Announced(q, n)) && q.flags.chunked && q.errno == OK
    ensures BodyAfter(Announced(q, n), n) == q.(contentLength := 0, state := ChunkBody(ChunkDataAlmostDone))
  {
  }

  lemma LineSizeBound(w: seq<byte>)
    requires GoodLine(w)
    ensures LineSize(w) < NO_LENGTH
  {
    hide Hexadecimal, HexPrefix;
    FitsHexadecimalPrefix(HexPrefix(w));
  }

  /** A whole chunk: its data is delivered as it was sent, and the next chunk may follow. */
  lemma WholeChunk(cfg: Settings, c: Conf, k: ChunkText)
    requires AtChunk(cfg, c.q) && GoodChunk(cfg, k)
    ensures Run(cfg, c, ChunkWire(k)) == Conf(c.q.(contentLength := 0), c.trace + ChunkEvents(k))
    ensures AtChunk(cfg, c.q.(contentLength := 0))
  {
    hide Run, Advance, Feed, GoodLine, LineSize, BodyAfter, Announced, StateOk;
    var n := |k.data|;
    ChunkAnnounced(cfg, c, k.line);
    LineSizeBound(k.line);
    var r := Run(cfg, c, k.line + CRLF);
    AnnouncedInv(cfg, c.q, n);
    assert r.q.state == ChunkBody(ChunkData) && r.q.contentLength == n by { AnnouncedData(c.q, n); }
    DataRun(cfg, r, k.data);
    var d := Run(cfg, r, k.data);
    RunTwo(cfg, d, CR, LF);
    DataCr(cfg, d, CR);
    DataLf(cfg, Advance(cfg, d, CR), LF);
    FeedsApart(c.trace, n, k.data);
    RunConcat(cfg, r, k.data, CRLF);
    RunConcat(cfg, c, k.line + CRLF, k.data + CRLF);
    BetweenChunks(cfg, c.q);
  }

  lemma AnnouncedData(q: Parser, n: nat)
    requires n > 0
    ensures Announced(q, n).state == ChunkBody(ChunkData) && Announced(q, n).contentLength == n
  {
  }

  lemma BetweenChunks(cfg: Settings, q: Parser)
    requires AtChunk(cfg, q)
    ensures AtChunk(cfg, q.(contentLength := 0)) && q.errno == OK && q.nread == 0
    ensures q.(contentLength := 0, state := ChunkLine(ChunkSizeStart)) == q.(contentLength := 0)
  {
  }

  // ------------------------------------------------------------------ whole bodies

  function Wire(chunks: seq<ChunkText>): seq<byte> {
    if chunks == [] then [] else ChunkWire(chunks[0]) + Wire(chunks[1..])
  }

  function Told(chunks: seq<ChunkText>): seq<Event> {
    if chunks == [] then [] else ChunkEvents(chunks[0]) + Told(chunks[1..])
  }

  function Payload(chunks: seq<ChunkText>): seq<byte> {
    if chunks == [] then [] else chunks[0].data + Payload(chunks[1..])
  }

  predicate GoodChunks(cfg: Settings, chunks: seq<ChunkText>) {
    forall i :: 0 <= i < |chunks| ==> GoodChunk(cfg, chunks[i])
  }

  /** The line of the last chunk: its size is zero. */
  predicate LastLine(cfg: Settings, w: seq<byte>) {
    CR !in w && GoodLine(w) && |w| + 2 <= cfg.maxHeaderSize && LineSize(w) == 0
  }

  lemma {:induction false} ChunksRun(cfg: Settings, c: Conf, chunks: seq<ChunkText>)
    requires AtChunk(cfg, c.q) && GoodChunks(cfg, chunks)
    ensures var r := Run(cfg, c, Wire(chunks));
            && AtChunk(cfg, r.q) && r.trace == c.trace + Told(chunks)
            && r.q == c.q.(contentLength := if chunks == [] then c.q.contentLength else 0)
    decreases |chunks|
  {
    hide Run, AtChunk, GoodChunk, ChunkWire, ChunkEvents;
    if chunks == [] {
      RunNothing(cfg, c);
      assert c.trace + [] == c.trace;
    } else {
      WholeChunk(cfg, c, chunks[0]);
      var c1 := Run(cfg, c, ChunkWire(chunks[0]));
      ChunksRun(cfg, c1, chunks[1..]);
      RunConcat(cfg, c, ChunkWire(chunks[0]), Wire(chunks[1..]));
      assert c.trace + (ChunkEvents(chunks[0]) + Told(chunks[1..]))
          == (c.trace + ChunkEvents(chunks[0])) + Told(chunks[1..]);
    }
  }

  lemma BodyOfChunk(k: ChunkText)
    ensures BodyOf(ChunkEvents(k)) == k.data
  {
    var e := ChunkEvents(k);
    assert e[..2][..1] == e[..1] && e[..1][..0] == [];
    assert BodyOf(e[..1]) == [];
    assert BodyOf(e[..2]) == k.data;
  }

  lemma {:induction false} BodyOfTold(chunks: seq<ChunkText>)
    ensures BodyOf(Told(chunks)) == Payload(chunks)
    decreases |chunks|
  {
    hide BodyOf, ChunkEvents;
    if chunks == [] {
      NoBody();
    } else {
      BodyOfTold(chunks[1..]);
      BodyOfChunk(chunks[0]);
      BodyOfConcat(ChunkEvents(chunks[0]), Told(chunks[1..]));
    }
  }

  /** Behind the last chunk only trailer fields follow: no more bytes of the body. */
  lemma {:induction false} TrailerOnly(events: seq<Event>)
    requires Incomplete(events) && Monitor(Trailer, events) != Wrong
    ensures var m := Monitor(Trailer, events);
            && (m == Trailer || m == TrailerEnd || (m.InField? && m.trailing) || (m.InValue? && m.trailing))
            && BodyOf(events) == []
  {
    if events != [] {
      WrongOnce(Trailer, events);
      TrailerOnly(events[..|events| - 1]);
    }
  }

  /** The end of a message is reported from index n on. */
  ghost predicate Ends(t: seq<Event>, n: nat) { exists m :: n <= m < |t| && t[m].MessageComplete? }

  function CrAt(x: seq<byte>): (i: nat)
    ensures i <= |x| && CR !in x[..i] && (i < |x| ==> x[i] == CR)
  {
    if x == [] || x[0] == CR then 0
    else
      var i := CrAt(x[1..]);
      assert x[..1 + i] == [x[0]] + x[1..][..i];
      1 + i
  }

  /** If the message ends, the input goes on with a good chunk line. */
  lemma LineThere(cfg: Settings, c: Conf, x: seq<byte>)
    requires AtChunk(cfg, c.q) && Ends(Run(cfg, c, x).trace, |c.trace|)
    ensures var i := CrAt(x);
            && i + 2 <= |x| && x[..i + 2] == x[..i] + CRLF
            && GoodLine(x[..i]) && i + 2 <= cfg.maxHeaderSize
  {
    hide Run, Advance, GoodLine, AtChunk, LineTracks, CrAt;
    var i := CrAt(x);
    var w := x[..i];
    LineRun(cfg, c, w);
    assert x[..|x|] == x;
    assert Run(cfg, c, w).trace == c.trace by { TrackedTrace(cfg, c, w, Run(cfg, c, w)); }
    RunPrefix(cfg, c, x, i);
    LineCr(cfg, c, w, Run(cfg, c, w));
    LineCrBehind(cfg, c, w, Run(cfg, c, x[..i + 1]).q);
    LineGoesOn(cfg, c, x, i);
  }

  lemma TrackedTrace(cfg: Settings, c: Conf, w: seq<byte>, r: Conf)
    requires LineTracks(cfg, c, w, r)
    ensures r.trace == c.trace
  {
  }

  /** Behind the CR of a chunk line, unless the line is refused. */
  predicate BehindCr(q: Parser) {
    q.errno == OK ==> q.state == ChunkLine(ChunkSizeAlmostDone) && q.flags.chunked && q.nread < UINT32_MODULUS - 1
  }

  lemma LineCrBehind(cfg: Settings, c: Conf, w: seq<byte>, q: Parser)
    requires AtChunk(cfg, c.q)
    requires q.errno == OK ==>
               q == InLine(c.q, w).(nread := |w| + 1, state := ChunkLine(ChunkSizeAlmostDone))
               && |w| + 1 <= cfg.maxHeaderSize
    ensures BehindCr(q)
  {
    hide HexPrefix, LineSize;
  }

  lemma LineGoesOn(cfg: Settings, c: Conf, x: seq<byte>, i: nat)
    requires i < |x| && x[i] == CR && CR !in x[..i] && AtChunk(cfg, c.q)
    requires Run(cfg, c, x[..i + 1]).trace == c.trace && Ends(Run(cfg, c, x).trace, |c.trace|)
    requires BehindCr(Run(cfg, c, x[..i + 1]).q)
    ensures i + 2 <= |x| && x[..i + 2] == x[..i] + CRLF && GoodLine(x[..i]) && i + 2 <= cfg.maxHeaderSize
  {
    hide Run, Advance, GoodLine, AtChunk;
    assert x[..|x|] == x;
    GoesOn(cfg, c, x, i + 1, |c.trace|);
    RunPrefix(cfg, c, x, i + 1);
    var d := Run(cfg, c, x[..i + 1]);
    LineLf(cfg, d, x[i + 1]);
    if x[i + 1] != LF || d.q.nread + 1 > cfg.maxHeaderSize {
      GoesOn(cfg, c, x, i + 2, |c.trace|);
    }
    assert x[..i + 2] == x[..i] + [x[i], x[i + 1]];
    ChunkAnnounced(cfg, c, x[..i]);
  }

  /** A failure that has reported nothing reports nothing later. */
  lemma GoesOn(cfg: Settings, c: Conf, x: seq<byte>, p: nat, n: nat)
    requires p <= |x| && !Ends(Run(cfg, c, x[..p]).trace, n) && Ends(Run(cfg, c, x).trace, n)
    ensures p < |x| && Run(cfg, c, x[..p]).q.errno == OK
  {
    hide Run;
    assert x[..|x|] == x;
    if Run(cfg, c, x[..p]).q.errno != OK {
      RunStuck(cfg, c, x, p);
    }
  }

  lemma NothingEnds(t: seq<Event>, n: nat, d: seq<byte>)
    ensures !Ends(Feed(t, ChunkHeader(n)), |t|) && !Ends(Feed(Feed(t, ChunkHeader(n)), Data(Body, d)), |t|)
  {
  }

  /** If the message ends, an announced chunk is there with all its data and its line end. */
  lemma DataThere(cfg: Settings, c: Conf, z: seq<byte>, n: nat)
    requires AtChunk(cfg, c.q) && 0 < n < NO_LENGTH
    requires Ends(Run(cfg, Conf(Announced(c.q, n), Feed(c.trace, ChunkHeader(n))), z).trace, |c.trace|)
    ensures n + 2 <= |z| && z[n..n + 2] == CRLF
  {
    hide Run, Advance, AtChunk, Feed, BodyAfter, Announced, StateOk, Ends;
    var r, start := Conf(Announced(c.q, n), Feed(c.trace, ChunkHeader(n))), |c.trace|;
    AnnouncedInv(cfg, c.q, n);
    AnnouncedData(c.q, n);
    NothingEnds(c.trace, n, z);
    RunNothing(cfg, r);
    assert z[..0] == [] && z[..|z|] == z;
    GoesOn(cfg, r, z, 0, start);
    if |z| <= n {
      DataRun(cfg, r, z);
    } else {
      var d := Run(cfg, r, z[..n]);
      DataRun(cfg, r, z[..n]);
      NothingEnds(c.trace, n, z[..n]);
      RunPrefix(cfg, r, z, n);
      DataCr(cfg, d, z[n]);
      GoesOn(cfg, r, z, n + 1, start);
      RunPrefix(cfg, r, z, n + 1);
      DataLf(cfg, Run(cfg, r, z[..n + 1]), z[n + 1]);
      if z[n + 1] != LF {
        GoesOn(cfg, r, z, n + 2, start);
      }
      assert z[n..n + 2] == [z[n], z[n + 1]];
    }
  }

  lemma EndsLater(t: seq<Event>, before: seq<Event>, k: ChunkText)
    requires Ends(t, |before|) && |before| + 3 <= |t| && t[..|before| + 3] == before + ChunkEvents(k)
    ensures Ends(t, |before| + 3)
  {
    forall m | |before| <= m < |before| + 3 ensures !t[m].MessageComplete? {
      assert t[m] == t[..|before| + 3][m];
    }
  }

  /** If the message ends, its body was sent as a list of good chunks, a last line and whatever follows. */
  lemma {:induction false} ChunksThere(cfg: Settings, c: Conf, x: seq<byte>)
    returns (chunks: seq<ChunkText>, last: seq<byte>, rest: seq<byte>)
    requires AtChunk(cfg, c.q) && Ends(Run(cfg, c, x).trace, |c.trace|)
    ensures x == Wire(chunks) + ((last + CRLF) + rest) && GoodChunks(cfg, chunks) && LastLine(cfg, last)
    decreases |x|
  {
    hide Run, AtChunk, CrAt, GoodLine, LineSize, Feed, Announced, Ends, ChunkEvents;
    LineThere(cfg, c, x);
    var i := CrAt(x);
    var w, z := x[..i], x[i + 2..];
    var n := LineSize(w);
    assert x == (w + CRLF) + z;
    if n == 0 {
      chunks, last, rest := [], w, z;
    } else {
      ChunkAnnounced(cfg, c, w);
      RunConcat(cfg, c, w + CRLF, z);
      LineSizeBound(w);
      DataThere(cfg, c, z, n);
      var k := ChunkText(w, z[..n]);
      var y := z[n + 2..];
      assert x == ChunkWire(k) + y;
      WholeChunk(cfg, c, k);
      RunConcat(cfg, c, ChunkWire(k), y);
      var c1 := Run(cfg, c, ChunkWire(k));
      ChunkKept(cfg, c1, c.trace, k, y);
      EndsLater(Run(cfg, c, x).trace, c.trace, k);
      chunks, last, rest := ChunksThere(cfg, c1, y);
      chunks := [k] + chunks;
    }
  }

  lemma ChunkKept(cfg: Settings, c1: Conf, before: seq<Event>, k: ChunkText, y: seq<byte>)
    requires c1.trace == before + ChunkEvents(k)
    ensures |c1.trace| == |before| + 3
    ensures var t := Run(cfg, c1, y).trace; |before| + 3 <= |t| && t[..|before| + 3] == before + ChunkEvents(k)
  {
    hide Run;
    RunKeeps(cfg, c1, y, |before| + 3);
  }

  /** Chunks, the last chunk's header, and what follows up to the end of the message. */
  lemma PayloadIsBody(chunks: seq<ChunkText>, later: seq<Event>)
    requires Incomplete(later) && Monitor(Chunks, (Told(chunks) + [ChunkHeader(0)]) + later) != Wrong
    ensures BodyOf((Told(chunks) + [ChunkHeader(0)]) + later) == Payload(chunks)
  {
    hide Told, Payload, BodyOf, After, Incomplete;
    var told := Told(chunks) + [ChunkHeader(0)];
    MonitorConcat(Chunks, told, later);
    WrongStays(later);
    MonitorTold(chunks);
    TrailerOnly(later);
    BodyOfConcat(told, later);
    BodyOfConcat(Told(chunks), [ChunkHeader(0)]);
    BodyOfTold(chunks);
    NoBodyIn(ChunkHeader(0));
  }

  lemma PayloadDelivered(t: seq<Event>, k: nat, chunks: seq<ChunkText>, m: nat)
    requires Accepted(t) && k < m <= |t| && Incomplete(t[k + 1..m])
    requires var told := Told(chunks) + [ChunkHeader(0)];
             k + 1 + |told| <= m && t[k + 1..k + 1 + |told|] == told
    requires Monitor(Idle, t[..k + 1]) == Chunks
    ensures BodyOf(t[k + 1..m]) == Payload(chunks)
  {
    hide Told, Payload, BodyOf, After, Monitor;
    var told := Told(chunks) + [ChunkHeader(0)];
    var later := t[k + 1 + |told|..m];
    assert t[k + 1..m] == told + later;
    assert t[..m] == t[..k + 1] + (told + later) && t == t[..m] + t[m..];
    AcceptedPrefix(t[..m], t[m..]);
    MonitorConcat(Idle, t[..k + 1], told + later);
    assert Incomplete(later) by {
      assert forall i :: 0 <= i < |later| ==> later[i] == t[k + 1..m][|told| + i];
    }
    PayloadIsBody(chunks, later);
  }

  lemma {:induction false} MonitorToldOnly(chunks: seq<ChunkText>)
    requires Monitor(Chunks, Told(chunks)) != Wrong
    ensures Monitor(Chunks, Told(chunks)) == Chunks
    decreases |chunks|
  {
    if chunks != [] {
      MonitorChunk(chunks[0]);
      MonitorConcat(Chunks, ChunkEvents(chunks[0]), Told(chunks[1..]));
      WrongStays(Told(chunks[1..]));
      MonitorToldOnly(chunks[1..]);
    }
  }

  lemma MonitorChunk(k: ChunkText)
    ensures Monitor(Chunks, ChunkEvents(k)) == if k.data == [] then Wrong else Chunks
  {
    var e := ChunkEvents(k);
    assert e[..2][..1] == e[..1] && e[..1][..0] == [];
    assert Monitor(Chunks, e[..1]) == After(Chunks, e[0]);
    assert Monitor(Chunks, e[..2]) == After(After(Chunks, e[0]), e[1]);
  }

  lemma MonitorTold(chunks: seq<ChunkText>)
    requires Monitor(Chunks, Told(chunks) + [ChunkHeader(0)]) != Wrong
    ensures Monitor(Chunks, Told(chunks) + [ChunkHeader(0)]) == Trailer
  {
    MonitorSnoc(Chunks, Told(chunks), ChunkHeader(0));
    MonitorToldOnly(chunks);
  }

  /** Where a chunked body begins: on_headers_complete was the last callback, and a chunk line comes next. */
  predicate BodyBegins(c: Conf) {
    c.q.errno == OK && c.q.state == ChunkLine(ChunkSizeStart)
    && c.trace != [] && c.trace[|c.trace| - 1].HeadersComplete?
  }

  lemma BeginsInChunks(cfg: Settings, c: Conf)
    requires Good(cfg, c) && BodyBegins(c)
    ensures Inv(cfg, c.q) && Monitor(Idle, c.trace) == Chunks
  {
  }

  /** For every connection input a + x that has just entered a chunked body behind a: if the message ends, at
      index m of the callbacks, then x was a list of good chunks, a last line and whatever follows it, and the
      bytes given to on_body are exactly the data of those chunks, in order. */
  lemma ChunkedBody(cfg: Settings, typ: ParserType, a: seq<byte>, x: seq<byte>, m: nat)
    returns (chunks: seq<ChunkText>, last: seq<byte>, rest: seq<byte>)
    requires cfg.maxHeaderSize + 1 < UINT32_MODULUS && BodyBegins(Run(cfg, Conf(Init(typ), []), a))
    requires var t := Run(cfg, Conf(Init(typ), []), a + x).trace;
             var n := |Run(cfg, Conf(Init(typ), []), a).trace|;
             n <= m < |t| && t[m].MessageComplete? && Incomplete(t[n..m])
    ensures x == Wire(chunks) + ((last + CRLF) + rest) && GoodChunks(cfg, chunks) && LastLine(cfg, last)
    ensures BodyOf(Run(cfg, Conf(Init(typ), []), a + x).trace[|Run(cfg, Conf(Init(typ), []), a).trace|..m])
         == Payload(chunks)
  {
    hide Run, Inv, GoodChunks, LastLine, BodyBegins, Incomplete, Agrees, Monitor;
    var c := Run(cfg, Conf(Init(typ), []), a);
    RunGood(cfg, typ, a);
    RunGood(cfg, typ, a + x);
    RunConcat(cfg, Conf(Init(typ), []), a, x);
    BeginsInChunks(cfg, c);
    assert AtChunk(cfg, c.q) by { BeginsAtChunk(cfg, c); }
    chunks, last, rest := ChunksThere(cfg, c, x);
    var t := Run(cfg, c, x).trace;
    ToldInTrace(cfg, c, chunks, last, rest);
    ToldBeforeEnd(t, |c.trace|, chunks, m);
    BeforeKept(cfg, c, x);
    PayloadDelivered(t, |c.trace| - 1, chunks, m);
  }

  lemma BeginsAtChunk(cfg: Settings, c: Conf)
    requires cfg.maxHeaderSize + 1 < UINT32_MODULUS && BodyBegins(c) && Inv(cfg, c.q)
    ensures AtChunk(cfg, c.q)
  {
  }

  lemma BeforeKept(cfg: Settings, c: Conf, x: seq<byte>)
    requires BodyBegins(c)
    ensures |c.trace| > 0 && |c.trace| <= |Run(cfg, c, x).trace| && Run(cfg, c, x).trace[..|c.trace|] == c.trace
  {
    hide Run;
    RunKeeps(cfg, c, x, |c.trace|);
  }

  lemma ToldInTrace(cfg: Settings, c: Conf, chunks: seq<ChunkText>, last: seq<byte>, rest: seq<byte>)
    requires AtChunk(cfg, c.q) && GoodChunks(cfg, chunks) && LastLine(cfg, last)
    ensures var t := Run(cfg, c, Wire(chunks) + ((last + CRLF) + rest)).trace;
            var told := Told(chunks) + [ChunkHeader(0)];
            |c.trace| + |told| <= |t| && t[|c.trace|..|c.trace| + |told|] == told
  {
    hide Run, AtChunk, GoodChunks, GoodLine, LineSize, Told, Wire, Feed;
    var told := Told(chunks) + [ChunkHeader(0)];
    ChunksRun(cfg, c, chunks);
    var c1 := Run(cfg, c, Wire(chunks));
    ChunkAnnounced(cfg, c1, last);
    var c2 := Run(cfg, c1, last + CRLF);
    FeedsHeader(c1.trace, 0);
    assert c2.trace == c.trace + told;
    RunConcat(cfg, c1, last + CRLF, rest);
    RunConcat(cfg, c, Wire(chunks), (last + CRLF) + rest);
    RunKeeps(cfg, c2, rest, |c2.trace|);
    var t := Run(cfg, c2, rest).trace;
    assert t[|c.trace|..|c.trace| + |told|] == t[..|c2.trace|][|c.trace|..] == c2.trace[|c.trace|..] == told;
  }

  lemma FeedsHeader(t: seq<Event>, n: nat)
    ensures Feed(t, ChunkHeader(n)) == t + [ChunkHeader(n)]
  {
  }

  lemma ToldBeforeEnd(t: seq<Event>, n: nat, chunks: seq<ChunkText>, m: nat)
    requires n <= m < |t| && t[m].MessageComplete?
    requires var told := Told(chunks) + [ChunkHeader(0)]; n + |told| <= |t| && t[n..n + |told|] == told
    ensures n + |Told(chunks) + [ChunkHeader(0)]| <= m
  {
    var told := Told(chunks) + [ChunkHeader(0)];
    ToldPlain(chunks);
    forall i | n <= i < n + |told| ensures !t[i].MessageComplete? {
      assert t[i] == t[n..n + |told|][i - n];
    }
  }

  lemma {:induction false} ToldPlain(chunks: seq<ChunkText>)
    ensures Incomplete(Told(chunks))
    decreases |chunks|
  {
    if chunks != [] {
      ToldPlain(chunks[1..]);
    }
  }
}
