/** The numbers that announce a body: the 64-bit register holds exactly the written number or the message
    is refused, and how the choice of the body's end compares with RFC 2616. */
module HttpLength {
  import opened HttpTypes
  import opened HttpStep
  import opened HttpRun
  import opened HttpGrammar

  // ------------------------------------------------------------------ unbounded numbers

  predicate Digits(s: seq<byte>) { forall i | 0 <= i < |s| :: IsNum(s[i]) }

  predicate HexDigits(s: seq<byte>) { forall i | 0 <= i < |s| :: Unhex(s[i]) != -1 }

  function Decimal(s: seq<byte>): nat
    requires Digits(s)
  {
    if s == [] then 0 else Decimal(s[..|s| - 1]) * 10 + DigitValue(s[|s| - 1])
  }

  function Hexadecimal(s: seq<byte>): nat
    requires HexDigits(s)
  {
    if s == [] then 0 else Hexadecimal(s[..|s| - 1]) * 16 + Unhex(s[|s| - 1])
  }

  /** The conservative guard: everything but the last digit has to be at most a tenth of the range. */
  predicate FitsDecimal(s: seq<byte>)
    requires Digits(s)
  {
    |s| <= 1 || Decimal(s[..|s| - 1]) <= (NO_LENGTH - 10) / 10
  }

  predicate FitsHexadecimal(s: seq<byte>)
    requires HexDigits(s)
  {
    |s| <= 1 || Hexadecimal(s[..|s| - 1]) <= (NO_LENGTH - 16) / 16
  }

  lemma NoDigits()
    ensures Digits([]) && Decimal([]) == 0
  {
  }

  /** The digits at the front. */
  function Leading(s: seq<byte>): (digits: seq<byte>)
    ensures digits <= s && Digits(digits) && (|digits| < |s| ==> !IsNum(s[|digits|]))
  {
    if s == [] || !IsNum(s[0]) then [] else [s[0]] + Leading(s[1..])
  }

  /** A number that fits is below the sentinel, and so are its beginnings. */
  lemma FitsDecimalPrefix(s: seq<byte>)
    requires Digits(s) && s != [] && FitsDecimal(s)
    ensures Decimal(s) < NO_LENGTH
    ensures FitsDecimal(s[..|s| - 1])
  {
    var t := s[..|s| - 1];
    if |t| > 1 {
      assert Decimal(t) >= Decimal(t[..|t| - 1]);
    }
  }

  lemma FitsHexadecimalPrefix(s: seq<byte>)
    requires HexDigits(s) && s != [] && FitsHexadecimal(s)
    ensures Hexadecimal(s) < NO_LENGTH
    ensures FitsHexadecimal(s[..|s| - 1])
  {
    var t := s[..|s| - 1];
    if |t| > 1 {
      assert Hexadecimal(t) >= Hexadecimal(t[..|t| - 1]);
    }
  }

  // ------------------------------------------------------------------ Content-Length

  /** In a Content-Length value, the digits in s have been read. */
  predicate ReadingLength(q: Parser, s: seq<byte>)
    requires Digits(s)
  {
    q.state == Header(HeaderValue) && q.hstate == ContentLengthNum && q.errno == OK && q.contentLength == Decimal(s)
  }

  lemma LengthDigit(cfg: Settings, q: Parser, s: seq<byte>, ch: byte)
    requires Digits(s) && s != [] && ReadingLength(q, s) && FitsDecimal(s) && IsNum(ch)
    requires q.nread < cfg.maxHeaderSize < UINT32_MODULUS
    ensures Digits(s + [ch])
    ensures var out := Step(cfg, q, ch);
            && out.q.nread == q.nread + 1
            && (if FitsDecimal(s + [ch]) then ReadingLength(out.q, s + [ch])
                else out.q.errno == INVALID_CONTENT_LENGTH)
  {
    assert (s + [ch])[..|s|] == s;
    if FitsDecimal(s + [ch]) {
      FitsDecimalPrefix(s + [ch]);
    }
    LengthDigitStep(cfg, q, ch);
  }

  lemma LengthDigitStep(cfg: Settings, q: Parser, ch: byte)
    requires q.state == Header(HeaderValue) && q.hstate == ContentLengthNum && IsNum(ch)
    requires q.nread < cfg.maxHeaderSize < UINT32_MODULUS
    ensures Step(cfg, q, ch) == OnLengthDigit(Count(q, 1), ch)
  {
    hide OnLengthDigit;
  }

  /** Once the first digit has been read, the following digits make the register the exact decimal number,
      or the message is refused because the number does not fit: for all digit strings, cut in any way. */
  lemma {:induction false} ContentLengthExact(cfg: Settings, c: Conf, first: byte, rest: seq<byte>)
    requires IsNum(first) && Digits(rest) && ReadingLength(c.q, [first])
    requires c.q.nread + |rest| <= cfg.maxHeaderSize < UINT32_MODULUS
    ensures Digits([first] + rest)
    ensures var q := Run(cfg, c, rest).q;
            if FitsDecimal([first] + rest)
            then ReadingLength(q, [first] + rest) && q.nread == c.q.nread + |rest|
            else q.errno == INVALID_CONTENT_LENGTH
    decreases |rest|
  {
    hide Step, Advance, Decimal, FitsDecimal;
    if rest == [] {
      assert [first] + rest == [first];
      FitsOne(first);
    } else {
      var init, ch := rest[..|rest| - 1], rest[|rest| - 1];
      AdvanceRegisters(cfg, Run(cfg, c, init), ch);
      ContentLengthExact(cfg, c, first, init);
      assert [first] + rest == ([first] + init) + [ch];
      if FitsDecimal([first] + init) {
        LengthDigit(cfg, Run(cfg, c, init).q, [first] + init, ch);
      } else {
        UnfitStays([first] + init, ch);
      }
    }
  }

  lemma FitsOne(first: byte)
    requires IsNum(first)
    ensures FitsDecimal([first])
  {
  }

  lemma UnfitStays(s: seq<byte>, ch: byte)
    requires Digits(s) && !FitsDecimal(s) && IsNum(ch)
    ensures Digits(s + [ch]) && !FitsDecimal(s + [ch])
  {
    assert (s + [ch])[..|s|] == s;
    if FitsDecimal(s + [ch]) {
      FitsDecimalPrefix(s + [ch]);
    }
  }

  // ------------------------------------------------------------------ status codes

  predicate ReadingStatus(q: Parser, s: seq<byte>)
    requires Digits(s)
  {
    q.state == StatusLine(ResStatusCode) && q.errno == OK && s != [] && q.status == Decimal(s) <= 999
  }

  lemma StatusDigitStep(cfg: Settings, q: Parser, ch: byte)
    requires q.state.StatusLine? && q.nread < cfg.maxHeaderSize < UINT32_MODULUS
    ensures Step(cfg, q, ch) == OnStatusLine(Count(q, 1), ch)
  {
    hide OnStatusLine;
  }

  lemma FirstStatusDigit(cfg: Settings, c: Conf, ch: byte)
    requires IsNum(ch) && c.q.state == StatusLine(ResFirstStatusCode) && c.q.errno == OK
    requires c.q.nread < cfg.maxHeaderSize < UINT32_MODULUS
    ensures Digits([ch])
    ensures var q := Advance(cfg, c, ch).q; ReadingStatus(q, [ch]) && q.nread == c.q.nread + 1
  {
    hide Step, FeedAll, ByteEvents;
    assert [ch][..0] == [] && Decimal([]) == 0 && Decimal([ch]) == DigitValue(ch);
    StatusDigitStep(cfg, c.q, ch);
  }

  lemma NextStatusDigit(cfg: Settings, c: Conf, s: seq<byte>, ch: byte)
    requires Digits(s) && ReadingStatus(c.q, s) && IsNum(ch) && c.q.nread < cfg.maxHeaderSize < UINT32_MODULUS
    ensures Digits(s + [ch])
    ensures var q := Advance(cfg, c, ch).q;
            if Decimal(s + [ch]) <= 999 then ReadingStatus(q, s + [ch]) && q.nread == c.q.nread + 1
            else q.errno == INVALID_STATUS
  {
    hide Step, FeedAll, ByteEvents;
    assert (s + [ch])[..|s|] == s;
    StatusDigitStep(cfg, c.q, ch);
  }

  lemma StatusGrows(s: seq<byte>, ch: byte)
    requires Digits(s) && IsNum(ch)
    ensures Digits(s + [ch]) && Decimal(s + [ch]) >= Decimal(s)
  {
    assert (s + [ch])[..|s|] == s;
  }

  /** The digits of a status code make the register the exact number, or the response is refused because
      the number has more than three digits. */
  lemma {:induction false} StatusExact(cfg: Settings, c: Conf, s: seq<byte>)
    requires Digits(s) && s != [] && c.q.state == StatusLine(ResFirstStatusCode) && c.q.errno == OK
    requires c.q.nread + |s| <= cfg.maxHeaderSize < UINT32_MODULUS
    ensures var q := Run(cfg, c, s).q;
            if Decimal(s) <= 999 then ReadingStatus(q, s) && q.nread == c.q.nread + |s|
            else q.errno == INVALID_STATUS
    decreases |s|
  {
    hide Advance, Decimal;
    var n := |s| - 1;
    var init, ch := s[..n], s[n];
    RunPrefix(cfg, c, s, n);
    assert s[..n + 1] == s == init + [ch];
    if n == 0 {
      assert s[..0] == [] && s == [ch];
      FirstStatusDigit(cfg, c, ch);
    } else {
      StatusExact(cfg, c, init);
      StatusGrows(init, ch);
      if Decimal(init) <= 999 {
        NextStatusDigit(cfg, Run(cfg, c, init), init, ch);
      } else {
        FailedStays(cfg, Run(cfg, c, init), ch);
      }
    }
  }

  // ------------------------------------------------------------------ chunk sizes

  predicate ReadingChunk(q: Parser, s: seq<byte>)
    requires HexDigits(s)
  {
    && q.state == ChunkLine(if s == [] then ChunkSizeStart else ChunkSize) && q.errno == OK && q.flags.chunked
    && (if s == [] then q.nread == 0 else q.contentLength == Hexadecimal(s))
  }

  lemma HexGrows(s: seq<byte>, ch: byte)
    requires HexDigits(s) && Unhex(ch) != -1
    ensures HexDigits(s + [ch]) && Hexadecimal(s + [ch]) == Hexadecimal(s) * 16 + Unhex(ch)
    ensures FitsHexadecimal(s + [ch]) <==> s == [] || Hexadecimal(s) <= (NO_LENGTH - 16) / 16
    ensures s == [] ==> Hexadecimal(s) == 0
  {
    assert (s + [ch])[..|s|] == s;
  }

  lemma FirstChunkDigit(q: Parser, ch: byte)
    requires q.state == ChunkLine(ChunkSizeStart) && q.flags.chunked && q.nread == 1 && Unhex(ch) != -1
    ensures OnChunkLine(q, ch).q == q.(contentLength := Unhex(ch), state := ChunkLine(ChunkSize))
  {
    hide Unhex;
  }

  lemma NextChunkDigit(q: Parser, ch: byte)
    requires q.state == ChunkLine(ChunkSize) && q.flags.chunked && Unhex(ch) != -1
    ensures OnChunkLine(q, ch).q
         == if q.contentLength <= (NO_LENGTH - 16) / 16
            then q.(contentLength := q.contentLength * 16 + Unhex(ch)) else q.(errno := INVALID_CONTENT_LENGTH)
  {
    var n := q.contentLength;
    assert n <= (NO_LENGTH - 16) / 16 ==> n * 16 + Unhex(ch) <= NO_LENGTH;
  }

  lemma ChunkDigit(cfg: Settings, q: Parser, s: seq<byte>, ch: byte)
    requires HexDigits(s) && ReadingChunk(q, s) && FitsHexadecimal(s) && Unhex(ch) != -1
    requires q.nread < cfg.maxHeaderSize < UINT32_MODULUS
    ensures HexDigits(s + [ch])
    ensures var out := Step(cfg, q, ch);
            && out.q.nread == q.nread + 1
            && (if FitsHexadecimal(s + [ch]) then ReadingChunk(out.q, s + [ch])
                else out.q.errno == INVALID_CONTENT_LENGTH)
  {
    hide Step, OnChunkLine, Hexadecimal, FitsHexadecimal, Unhex;
    HexGrows(s, ch);
    ChunkDigitStep(cfg, q, ch);
    if s == [] {
      FirstChunkDigit(Count(q, 1), ch);
    } else {
      NextChunkDigit(Count(q, 1), ch);
    }
  }

  lemma ChunkDigitStep(cfg: Settings, q: Parser, ch: byte)
    requires q.state.ChunkLine? && q.nread < cfg.maxHeaderSize < UINT32_MODULUS
    ensures Step(cfg, q, ch) == OnChunkLine(Count(q, 1), ch)
  {
    hide OnChunkLine;
  }

  /** The digits of a chunk size make the register the exact hexadecimal number, or the message is refused:
      for all strings of characters that the digit table accepts. */
  lemma {:induction false} ChunkSizeExact(cfg: Settings, c: Conf, s: seq<byte>)
    requires HexDigits(s) && ReadingChunk(c.q, []) && |s| <= cfg.maxHeaderSize < UINT32_MODULUS
    ensures var q := Run(cfg, c, s).q;
            if FitsHexadecimal(s) then ReadingChunk(q, s) && q.nread == |s|
            else q.errno == INVALID_CONTENT_LENGTH
    decreases |s|
  {
    hide Step, Advance, Hexadecimal, FitsHexadecimal;
    if s == [] {
      FitsNone();
    } else {
      var init, ch := s[..|s| - 1], s[|s| - 1];
      AdvanceRegisters(cfg, Run(cfg, c, init), ch);
      ChunkSizeExact(cfg, c, init);
      assert s == init + [ch];
      if FitsHexadecimal(init) {
        ChunkDigit(cfg, Run(cfg, c, init).q, init, ch);
      } else {
        UnfitHexStays(init, ch);
      }
    }
  }

  lemma FitsNone()
    ensures FitsHexadecimal([])
  {
  }

  lemma UnfitHexStays(s: seq<byte>, ch: byte)
    requires HexDigits(s) && !FitsHexadecimal(s) && Unhex(ch) != -1
    ensures HexDigits(s + [ch]) && !FitsHexadecimal(s + [ch])
  {
    assert (s + [ch])[..|s|] == s;
    if FitsHexadecimal(s + [ch]) {
      FitsHexadecimalPrefix(s + [ch]);
    }
  }

  /** Which characters count as hexadecimal digits: the upper half of the table is zero, so every octet
      from 0x80 on is taken for the digit 0. */
  lemma AcceptedHexDigits(ch: byte)
    ensures Unhex(ch) != -1 <==> IsHex(ch) || ch >= 0x80 as char
    ensures ch >= 0x80 as char ==> Unhex(ch) == 0
  {
  }

  // ------------------------------------------------------------------ RFC 2616, section 4.4

  predicate Bodiless(h: Head) {
    h.skip || (h.response && (h.status / 100 == 1 || h.status == 204 || h.status == 304))
  }

  /** Section 4.4 of RFC 2616, rule by rule: 1xx, 204, 304 and answers to HEAD have no body; then
      Transfer-Encoding; then Content-Length; then, for a response, the end of the connection. */
  function RfcBody(h: Head): Phase {
    if h.tunnel || Bodiless(h) then AwaitEnd
    else if h.chunked then Chunks
    else match h.declared
      case Some(n) => if n == 0 then AwaitEnd else Sized(n)
      case None => if h.response then UntilEof else AwaitEnd
  }

  /** The parser looks at the two length headers before it looks at the status. It therefore differs from
      the standard exactly on 1xx, 204 and 304 responses that announce a body all the same. */
  lemma RfcDeviation(h: Head)
    ensures BodyPhase(h) != RfcBody(h) <==>
              && !h.tunnel && !h.skip && Bodiless(h)
              && (h.chunked || (h.declared.Some? && h.declared.value > 0))
  {
  }
}
