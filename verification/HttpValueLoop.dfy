/** The inner loop over the characters of a header value. */
module HttpValueLoop {
  import opened Common
  import opened HttpTypes
  import opened HttpStep
  import opened HttpRun
  import opened HttpInvariant
  import opened HttpGrammar
  import opened HttpOrder
  import opened HttpMarks
  import opened HttpFieldLoop

  ghost predicate ValueTracks(cfg: Settings, c0: Conf, data: seq<byte>, start: nat, p: nat, q: Parser,
                              mark: Mark, cbs: seq<Event>)
  {
    && start <= p <= |data| && q.nread >= 1
    && Inv(cfg, q) && q.state == Header(HeaderValue) && MarkOk(q.state, mark, data, p)
    && Uncounted(cfg, c0, data, start, p, q, mark, cbs)
  }

  /** Neither the end of the line nor forbidden. */
  predicate PlainChar(cfg: Settings, ch: byte) {
    ch != CR && ch != LF && (cfg.lenient || IsHeaderChar(ch))
  }

  lemma ValueIsSwitch(cfg: Settings, q: Parser, ch: byte)
    requires q.state == Header(HeaderValue) && PlainChar(cfg, ch)
    ensures Switch(cfg, q, ch) == OnValueChar(q, ch)
  {
    hide OnValueChar;
  }

  /** The value machine does not look at the byte counter. */
  predicate Blind(q: Parser, n: nat, a: Outcome, b: Outcome) {
    && a.fx == NOTHING && !a.leave && a.q.state == Header(HeaderValue) && a.q.nread == q.nread
    && b == a.(q := a.q.(nread := n))
  }

  lemma LengthBlind(q: Parser, ch: byte, n: nat)
    requires q.state == Header(HeaderValue)
    ensures Blind(q, n, OnLengthDigit(q, ch), OnLengthDigit(q.(nread := n), ch))
  {
  }

  lemma MatchBlind(q: Parser, literal: string, ch: byte, full: HState, miss: HState, n: nat)
    requires q.state == Header(HeaderValue)
    ensures Blind(q, n, MatchValue(q, literal, ch, full, miss), MatchValue(q.(nread := n), literal, ch, full, miss))
  {
    hide Match;
  }

  lemma TokenBlind(q: Parser, ch: byte, n: nat)
    requires q.state == Header(HeaderValue)
    ensures Blind(q, n, OnConnectionToken(q, ch), OnConnectionToken(q.(nread := n), ch))
  {
  }

  lemma ValueBlind(q: Parser, ch: byte, n: nat)
    requires q.state == Header(HeaderValue)
    ensures Blind(q, n, OnValueChar(q, ch), OnValueChar(q.(nread := n), ch))
  {
    hide OnLengthDigit, OnConnectionToken, MatchValue, TokenStart, Lower;
    match q.hstate
    case ContentLength => LengthBlind(q, ch, n);
    case ContentLengthNum => LengthBlind(q, ch, n);
    case MatchingTransferEncodingChunked => MatchBlind(q, CHUNKED, ch, TransferEncodingChunked, General, n);
    case MatchingConnectionKeepAlive =>
      MatchBlind(q, KEEP_ALIVE, ch, ConnectionKeepAlive, MatchingConnectionToken, n);
    case MatchingConnectionClose => MatchBlind(q, CLOSE, ch, ConnectionClose, MatchingConnectionToken, n);
    case MatchingConnectionUpgrade => MatchBlind(q, UPGRADE, ch, ConnectionUpgrade, MatchingConnectionToken, n);
    case ConnectionKeepAlive => TokenBlind(q, ch, n);
    case ConnectionClose => TokenBlind(q, ch, n);
    case ConnectionUpgrade => TokenBlind(q, ch, n);
    case _ =>
  }

  lemma ValueSwitch(cfg: Settings, q: Parser, ch: byte, n: nat)
    requires q.state == Header(HeaderValue) && PlainChar(cfg, ch)
    ensures Blind(q, n, OnValueChar(q, ch), Switch(cfg, q.(nread := n), ch))
  {
    ValueBlind(q, ch, n);
    ValueIsSwitch(cfg, q.(nread := n), ch);
    hide OnValueChar, Switch;
  }

  lemma BadValueSwitch(cfg: Settings, q: Parser, ch: byte)
    requires q.state == Header(HeaderValue) && ch != CR && ch != LF && !PlainChar(cfg, ch)
    ensures Switch(cfg, q, ch) == Fail(q, INVALID_HEADER_TOKEN)
  {
  }

  /** An uncounted byte at which the switch fails, whatever has been counted. */
  lemma UncountedFails(cfg: Settings, c0: Conf, data: seq<byte>, start: nat, p: nat, q: Parser,
                       mark: Mark, cbs: seq<Event>)
    requires start <= p < |data| && 1 <= q.nread && MarkInside(mark, data, p) && ParsingHeader(q.state)
    requires Uncounted(cfg, c0, data, start, p, q, mark, cbs)
    requires forall n: nat :: Switch(cfg, q.(nread := n), data[p]).q.errno != OK
    ensures Fails(cfg, c0, data, start)
  {
    hide Switch, Run, Feed, FeedAll, Fails, LeavesAt;
    RunPrefix(cfg, c0, data, p);
    var n := q.nread - 1 + (p - start);
    assert Switch(cfg, q.(nread := n).(nread := Count(q.(nread := n), 1).nread), data[p]).q.errno != OK;
    FailsAt(cfg, c0, data, start, p);
  }

  lemma ValueCharAgrees(cfg: Settings, c0: Conf, data: seq<byte>, start: nat, p: nat, q: Parser,
                        mark: Mark, cbs: seq<Event>)
    requires cfg.maxHeaderSize + 1 < UINT32_MODULUS
    requires p < |data| && ValueTracks(cfg, c0, data, start, p, q, mark, cbs) && PlainChar(cfg, data[p])
    ensures var out := OnValueChar(q, data[p]);
            if out.q.errno == OK then ValueTracks(cfg, c0, data, start, p + 1, out.q, mark, cbs)
            else Fails(cfg, c0, data, start)
  {
    var out := OnValueChar(q, data[p]);
    ValueCharSound(cfg, q, data[p]);
    hide Switch, Run, OnValueChar, Uncounted, PlainChar, Fails;
    forall n: nat ensures Switch(cfg, q.(nread := n), data[p]) == out.(q := out.q.(nread := n)) {
      ValueSwitch(cfg, q, data[p], n);
    }
    ValueSwitch(cfg, q, data[p], 0);
    if out.q.errno == OK {
      UncountedGrows(cfg, c0, data, start, p, q, out.q, mark, cbs);
    } else {
      UncountedFails(cfg, c0, data, start, p, q, mark, cbs);
    }
  }

  lemma BadValueChar(cfg: Settings, c0: Conf, data: seq<byte>, start: nat, p: nat, q: Parser,
                     mark: Mark, cbs: seq<Event>)
    requires p < |data| && ValueTracks(cfg, c0, data, start, p, q, mark, cbs)
    requires data[p] != CR && data[p] != LF && !PlainChar(cfg, data[p])
    ensures Fails(cfg, c0, data, start)
  {
    hide Switch, Run, Uncounted, PlainChar, Inv, Fails;
    forall n: nat ensures Switch(cfg, q.(nread := n), data[p]).q.errno != OK {
      BadValueSwitch(cfg, q.(nread := n), data[p]);
    }
    UncountedFails(cfg, c0, data, start, p, q, mark, cbs);
  }

  /** In the general state a plain character changes nothing. */
  lemma GeneralValueChar(cfg: Settings, c0: Conf, data: seq<byte>, start: nat, p: nat, q: Parser,
                         mark: Mark, cbs: seq<Event>)
    requires cfg.maxHeaderSize + 1 < UINT32_MODULUS
    requires p < |data| && ValueTracks(cfg, c0, data, start, p, q, mark, cbs) && PlainChar(cfg, data[p])
    requires q.hstate.General?
    ensures ValueTracks(cfg, c0, data, start, p + 1, q, mark, cbs)
  {
    ValueCharAgrees(cfg, c0, data, start, p, q, mark, cbs);
    hide ValueTracks, Run, PlainChar;
    assert q == OnValueChar(q, data[p]).q;
  }

  /** A run longer than the header limit: the byte after it is not looked at, and need not be. */
  lemma BeyondTheLimit(cfg: Settings, c0: Conf, data: seq<byte>, start: nat, p: nat, q: Parser,
                       mark: Mark, cbs: seq<Event>)
    requires cfg.maxHeaderSize + 1 < UINT32_MODULUS
    requires p < |data| && ValueTracks(cfg, c0, data, start, p, q, mark, cbs)
    requires p - start >= cfg.maxHeaderSize
    ensures ValueTracks(cfg, c0, data, start, p + 1, q, mark, cbs)
  {
    hide Switch, Run, Feed, FeedAll;
    RunPrefix(cfg, c0, data, p);
  }

  /** The fast loop of the general state over at most maxHeaderSize characters; p stays on the last of
      them. When the limit ends the loop, the caller's p + 1 passes over a byte unseen. */
  method ValueSkip(cfg: Settings, ghost c0: Conf, data: seq<byte>, start: nat, p0: nat, q: Parser, mark: Mark,
                   ghost cbs: seq<Event>)
    returns (p: nat, ok: bool)
    requires Countable(cfg, data)
    requires p0 < |data| && q.hstate.General? && ValueTracks(cfg, c0, data, start, p0, q, mark, cbs)
    requires PlainChar(cfg, data[p0]) && RunOk(cfg, data, start, p0)
    ensures if ok then p0 <= p < |data| && ValueTracks(cfg, c0, data, start, p + 1, q, mark, cbs)
                       && RunOk(cfg, data, start, p + 1)
            else p <= |data| && Fails(cfg, c0, data, start)
  {
    hide Run, Fails, Uncounted, MarkOk, Inv;
    p, ok := p0, true;
    var pe := p + Min(|data| - p, cfg.maxHeaderSize);
    while p != pe && data[p] != CR && data[p] != LF && ok
      invariant p0 <= p <= pe && (pe > p0 && ok && p == p0 ==> PlainChar(cfg, data[p0]))
      invariant ok ==> ValueTracks(cfg, c0, data, start, p, q, mark, cbs) && RunOk(cfg, data, start, p)
      invariant !ok ==> p <= |data| && Fails(cfg, c0, data, start)
      decreases pe - p, ok
    {
      if PlainChar(cfg, data[p]) {
        GeneralValueChar(cfg, c0, data, start, p, q, mark, cbs);
        p := p + 1;
      } else {
        BadValueChar(cfg, c0, data, start, p, q, mark, cbs);
        ok := false;
      }
    }
    if ok {
      if p == |data| || p != pe {
        p := p - 1;
      } else {
        RunBeyond(cfg, data, start, p);
        BeyondTheLimit(cfg, c0, data, start, p, q, mark, cbs);
      }
    }
  }

  /** The loop over the characters of a value, up to the end of the line or of the buffer. */
  method ValueScan(cfg: Settings, ghost c0: Conf, data: seq<byte>, start: nat, q0: Parser, mark: Mark,
                   ghost cbs: seq<Event>)
    returns (p: nat, q: Parser)
    requires Countable(cfg, data)
    requires ValueTracks(cfg, c0, data, start, start, q0, mark, cbs)
    ensures q.errno == OK ==>
              ValueTracks(cfg, c0, data, start, p, q, mark, cbs)
              && (p == |data| || data[p] == CR || data[p] == LF) && RunOk(cfg, data, start, p)
    ensures q.errno != OK ==> p <= |data| && Fails(cfg, c0, data, start)
  {
    hide Run, Fails, Uncounted, MarkOk, PlainChar, OnValueChar, ResumeMark, StateOk;
    p, q := start, q0;
    while p < |data| && data[p] != CR && data[p] != LF
      invariant ValueTracks(cfg, c0, data, start, p, q, mark, cbs) && RunOk(cfg, data, start, p)
    {
      if !PlainChar(cfg, data[p]) {
        BadValueChar(cfg, c0, data, start, p, q, mark, cbs);
        q := q.(errno := INVALID_HEADER_TOKEN);
        return;
      }
      if q.hstate.General? {
        var ok;
        p, ok := ValueSkip(cfg, c0, data, start, p, q, mark, cbs);
        if !ok {
          q := q.(errno := INVALID_HEADER_TOKEN);
          return;
        }
      } else {
        ValueCharAgrees(cfg, c0, data, start, p, q, mark, cbs);
        q := OnValueChar(q, data[p]).q;
        if q.errno != OK {
          return;
        }
      }
      p := p + 1;
    }
  }

  lemma ValueEndIsSwitch(cfg: Settings, q: Parser, ch: byte)
    requires q.state == Header(HeaderValue) && (ch == CR || ch == LF)
    ensures Switch(cfg, q, ch) == OnValue(cfg, q, ch) && !OnValue(cfg, q, ch).leave
  {
  }

  lemma ValueCounted(cfg: Settings, c0: Conf, data: seq<byte>, start: nat, p: nat, q: Parser, mark: Mark,
                     cbs: seq<Event>)
    requires start <= p && p - start + cfg.maxHeaderSize < UINT32_MODULUS
    requires p < |data| && ValueTracks(cfg, c0, data, start, p, q, mark, cbs)
    ensures start <= p && q.state == Header(HeaderValue) && q.nread >= 1 && StaysBetween(cfg, c0, data, start, p)
    ensures MarkInside(mark, data, p) && CountedTracks(cfg, c0, data, start, p, q, mark, cbs)
  {
    hide Switch, Run, ResumeMark, StaysBetween, Tracks;
    CountedStep(cfg, c0, data, start, p, q, mark, cbs);
  }

  /** The end of the line. After a carriage return the value is delivered before it is counted. */
  method ValueEnd(cfg: Settings, ghost c0: Conf, data: seq<byte>, start: nat, p0: nat, q0: Parser, mark: Mark,
                  cbs: seq<Event>)
    returns (p: nat, q: Parser, mark': Mark, cbs': seq<Event>)
    requires start <= p0 && p0 - start + cfg.maxHeaderSize < UINT32_MODULUS
    requires p0 < |data| && (data[p0] == CR || data[p0] == LF)
    requires ValueTracks(cfg, c0, data, start, p0, q0, mark, cbs)
    requires Good(cfg, c0) ==> Accepted(cbs) && Accepted(cbs + Delivered(mark, Flush(Value), data, p0))
    ensures Handed(cfg, c0, data, start, p, q, mark', cbs')
  {
    hide Switch, OnValue, Run, ResumeMark, Step, Inv, LeavesAt, Handed, Good, Accepted, ValueTracks, StaysBetween,
         Tracks;
    ValueCounted(cfg, c0, data, start, p0, q0, mark, cbs);
    p, q, mark', cbs' := p0, Count(q0, p0 - start), mark, cbs;
    if q.nread > cfg.maxHeaderSize {
      if data[p] == CR {
        cbs' := cbs + Delivered(mark, Flush(Value), data, p);
      }
      q := q.(errno := HEADER_OVERFLOW);
      TurnHands(cfg, c0, data, start, p, q, mark', cbs');
    } else {
      ghost var before := q0.(nread := q0.nread - 1 + (p - start));
      ValueEndIsSwitch(cfg, q, data[p]);
      q, mark', cbs' := Perform(cfg, c0, data, p, before, mark, cbs, OnValue(cfg, q, data[p]));
      TurnHands(cfg, c0, data, start, p, q, mark', cbs');
      p := p + 1;
    }
  }

  /** A value may be delivered whatever its length. */
  lemma ValueAccepted(cfg: Settings, c0: Conf, data: seq<byte>, start: nat, q: Parser, mark: Mark, cbs: seq<Event>,
                      p: nat)
    requires start <= p < |data| && Tracks(cfg, c0, data, start, q, mark, cbs) && q.state == Header(HeaderValue)
    ensures MarkInside(mark, data, p)
    ensures Good(cfg, c0) ==> Accepted(cbs + Delivered(mark, Flush(Value), data, p))
  {
    hide Run, Good, WithPending, Inv, Monitor, Agrees, Accepted;
    if Good(cfg, c0) {
      TracksAccepted(cfg, c0, data, start, q, mark, cbs);
      PendingAccepted(cbs, mark, data, start);
      var e := Data(Value, data[mark.value.start..p]);
      assert Delivered(mark, Flush(Value), data, p) == [e];
      MonitorSnoc(Idle, cbs, e);
      ValuePhase(Monitor(Idle, cbs), q, start - mark.value.start, |e.bytes|);
      AcceptedIs(cbs + [e]);
    }
  }

  lemma AcceptedIs(cbs: seq<Event>)
    ensures Accepted(cbs) <==> Monitor(Idle, cbs) != Wrong
  {
  }

  /** In a value every length is allowed. */
  lemma ValuePhase(m: Phase, q: Parser, n: nat, k: nat)
    requires q.state == Header(HeaderValue) && Agrees(if n > 0 then AfterItem(m, Value, n) else m, q)
    ensures AfterItem(m, Value, k) != Wrong
  {
  }

  /** s_header_value */
  method ValueRun(cfg: Settings, ghost c0: Conf, data: seq<byte>, start: nat, q0: Parser, mark: Mark, cbs: seq<Event>)
    returns (p: nat, q: Parser, mark': Mark, cbs': seq<Event>)
    requires Countable(cfg, data)
    requires start < |data| && Tracks(cfg, c0, data, start, q0, mark, cbs) && q0.state == Header(HeaderValue)
    ensures Handed(cfg, c0, data, start, p, q, mark', cbs')
  {
    p, q, mark', cbs' := start, Count(q0, 1), mark, cbs;
    CallbacksAccepted(cfg, c0, data, start, q0, mark, cbs);
    if q.nread > cfg.maxHeaderSize {
      q := q.(errno := HEADER_OVERFLOW);
      FirstByteOverflows(cfg, c0, data, start, q0, mark, cbs);
      return;
    }
    InnerLoopStarts(cfg, c0, data, start, q0, mark, cbs);
    p, q := ValueScan(cfg, c0, data, start, q, mark, cbs);
    if q.errno == OK {
      RunCounts(cfg, data, start, p);
      if p == |data| {
        q := EndOfBuffer(cfg, c0, data, start, q, mark, cbs);
      } else {
        ValueAccepted(cfg, c0, data, start, q0, mark, cbs, p);
        p, q, mark', cbs' := ValueEnd(cfg, c0, data, start, p, q, mark, cbs);
      }
    }
  }
}
