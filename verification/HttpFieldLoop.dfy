/** The inner loop over the characters of a header name. */
module HttpFieldLoop {
  import opened Common
  import opened HttpTypes
  import opened HttpStep
  import opened HttpRun
  import opened HttpInvariant
  import opened HttpGrammar
  import opened HttpOrder
  import opened HttpMarks

  /** No line end in data[i..j]. */
  predicate OneLine(data: seq<byte>, i: nat, j: nat) {
    forall k :: i <= k < j && k < |data| ==> data[k] != CR && data[k] != LF
  }

  /** An inner loop counts its run at its end, in 32 bits. The count cannot wrap if the buffer is not that long, or
      if every line in it is shorter than the header limit. */
  ghost predicate Countable(cfg: Settings, data: seq<byte>) {
    && cfg.maxHeaderSize + 1 < UINT32_MODULUS
    && (|data| + cfg.maxHeaderSize < UINT32_MODULUS
        || (2 * cfg.maxHeaderSize < UINT32_MODULUS
            && forall i: nat, j: nat :: i <= j <= |data| && OneLine(data, i, j) ==> j - i < cfg.maxHeaderSize))
  }

  /** What one run may pass over. */
  predicate RunOk(cfg: Settings, data: seq<byte>, start: nat, p: nat) {
    start <= p <= |data| && (OneLine(data, start, p) || |data| + cfg.maxHeaderSize < UINT32_MODULUS)
  }

  lemma RunCounts(cfg: Settings, data: seq<byte>, start: nat, p: nat)
    requires Countable(cfg, data) && RunOk(cfg, data, start, p)
    ensures p - start + cfg.maxHeaderSize < UINT32_MODULUS
  {
  }

  /** Only in a buffer of moderate length a run gets behind the header limit. */
  lemma RunBeyond(cfg: Settings, data: seq<byte>, start: nat, p: nat)
    requires Countable(cfg, data) && RunOk(cfg, data, start, p) && p - start >= cfg.maxHeaderSize
    ensures |data| + cfg.maxHeaderSize < UINT32_MODULUS
  {
  }

  lemma TokensRun(cfg: Settings, data: seq<byte>, start: nat, p: nat)
    requires start <= p <= |data| && forall k :: start <= k < p ==> IsToken(data[k])
    ensures RunOk(cfg, data, start, p)
  {
  }

  /** Inside a header name: start..p has been examined but not yet counted. q carries the count of the
      byte at start. If counting would overflow, the byte-by-byte meaning has stopped already. */
  ghost predicate FieldTracks(cfg: Settings, c0: Conf, data: seq<byte>, start: nat, p: nat, q: Parser,
                              mark: Mark, cbs: seq<Event>)
  {
    && start <= p <= |data| && q.nread >= 1
    && Inv(cfg, q) && q.state == Header(HeaderField) && MarkOk(q.state, mark, data, p)
    && Uncounted(cfg, c0, data, start, p, q, mark, cbs)
  }

  ghost predicate Uncounted(cfg: Settings, c0: Conf, data: seq<byte>, start: nat, p: nat, q: Parser,
                            mark: Mark, cbs: seq<Event>)
    requires start <= p <= |data| && q.nread >= 1 && MarkInside(mark, data, p)
  {
    var n := q.nread - 1 + (p - start);
    && (n <= cfg.maxHeaderSize ==>
          Run(cfg, c0, data[..p]) == Conf(q.(nread := n), WithPending(Glued(cbs), mark, data, p)))
    && (n > cfg.maxHeaderSize ==> Run(cfg, c0, data[..p]).q.errno != OK)
    && StaysBetween(cfg, c0, data, start, p)
  }

  /** A byte counted against the header limit, in a state that goes on as q'. */
  lemma StepGoes(cfg: Settings, q: Parser, ch: byte, q': Parser)
    requires ParsingHeader(q.state) && q.nread <= cfg.maxHeaderSize < UINT32_MODULUS - 1
    requires Switch(cfg, q.(nread := q.nread + 1), ch) == Outcome(q'.(nread := q.nread + 1), NOTHING, false)
    ensures Step(cfg, q, ch) == if q.nread + 1 > cfg.maxHeaderSize
                                then Fail(q.(nread := q.nread + 1), HEADER_OVERFLOW)
                                else Outcome(q'.(nread := q.nread + 1), NOTHING, false)
  {
    hide Switch;
  }

  lemma FieldSwitch(cfg: Settings, q: Parser, ch: byte)
    requires q.state == Header(HeaderField) && IsToken(ch) && FieldState(q.hstate, FieldIndex(q), ch).Some?
    ensures Switch(cfg, q, ch)
         == Outcome(q.(index := FieldIndex(q), hstate := FieldState(q.hstate, FieldIndex(q), ch).value),
                    NOTHING, false)
  {
    hide FieldState, FieldIndex;
  }

  /** An uncounted byte that leaves the item open. */
  lemma UncountedGrows(cfg: Settings, c0: Conf, data: seq<byte>, start: nat, p: nat, q: Parser, q': Parser,
                       mark: Mark, cbs: seq<Event>)
    requires cfg.maxHeaderSize + 1 < UINT32_MODULUS
    requires start <= p < |data| && 1 <= q.nread <= cfg.maxHeaderSize && q'.nread == q.nread
    requires Inv(cfg, q) && MarkOk(q.state, mark, data, p) && ResumeMark(q.state).Some? && q'.errno == OK
    requires q.state != ChunkLine(ChunkSizeStart) && ParsingHeader(q.state) && q'.state == q.state
    requires Uncounted(cfg, c0, data, start, p, q, mark, cbs)
    requires forall n: nat :: Switch(cfg, q.(nread := n), data[p]) == Outcome(q'.(nread := n), NOTHING, false)
    ensures MarkOk(q'.state, mark, data, p + 1) && Uncounted(cfg, c0, data, start, p + 1, q', mark, cbs)
  {
    hide Switch, Run, Feed, FeedAll, MarksFollow, WithPending, StateOk;
    RunPrefix(cfg, c0, data, p);
    var n := q.nread - 1 + (p - start);
    if n <= cfg.maxHeaderSize {
      assert Switch(cfg, q.(nread := n).(nread := n + 1), data[p]) == Outcome(q'.(nread := n + 1), NOTHING, false);
      StepGoes(cfg, q.(nread := n), data[p], q');
      var out := Step(cfg, q.(nread := n), data[p]);
      if n + 1 <= cfg.maxHeaderSize {
        assert ByteEvents(q.state, out, data[p]) == [Data(mark.value.kind, [data[p]])];
      }
      PendingGrows(mark, data, p, Glued(cbs));
      FeedOne(WithPending(Glued(cbs), mark, data, p), Data(mark.value.kind, [data[p]]));
    }
  }

  /** One token character of a name. */
  lemma FieldCharAgrees(cfg: Settings, c0: Conf, data: seq<byte>, start: nat, p: nat, q: Parser,
                        mark: Mark, cbs: seq<Event>)
    requires cfg.maxHeaderSize + 1 < UINT32_MODULUS
    requires p < |data| && FieldTracks(cfg, c0, data, start, p, q, mark, cbs) && IsToken(data[p])
    ensures FieldState(q.hstate, FieldIndex(q), data[p]).Some?
    ensures var q' := q.(index := FieldIndex(q), hstate := FieldState(q.hstate, FieldIndex(q), data[p]).value);
            FieldTracks(cfg, c0, data, start, p + 1, q', mark, cbs)
  {
    FieldStateOk(q.hstate, FieldIndex(q), data[p]);
    hide Switch, Run, Feed, FeedAll, MarksFollow, FieldState, Uncounted;
    var q' := q.(index := FieldIndex(q), hstate := FieldState(q.hstate, FieldIndex(q), data[p]).value);
    forall n: nat ensures Switch(cfg, q.(nread := n), data[p]) == Outcome(q'.(nread := n), NOTHING, false) {
      FieldSwitch(cfg, q.(nread := n), data[p]);
    }
    UncountedGrows(cfg, c0, data, start, p, q, q', mark, cbs);
  }

  /** Once the whole run has been counted, the byte that ends an inner loop is an ordinary step, unless the count
      is over the limit. */
  ghost predicate CountedTracks(cfg: Settings, c0: Conf, data: seq<byte>, start: nat, p: nat, q: Parser, mark: Mark,
                                cbs: seq<Event>)
    requires start <= p < |data| && q.nread >= 1
  {
    && (Count(q, p - start).nread > cfg.maxHeaderSize ==> Run(cfg, c0, data[..p + 1]).q.errno != OK)
    && (Count(q, p - start).nread <= cfg.maxHeaderSize ==>
          var before := q.(nread := q.nread - 1 + (p - start));
          && Tracks(cfg, c0, data, p, before, mark, cbs)
          && Step(cfg, before, data[p]) == Switch(cfg, Count(q, p - start), data[p]))
  }

  /** The outcome of the byte that ends an inner loop, once the whole run has been counted. */
  lemma CountedStep(cfg: Settings, c0: Conf, data: seq<byte>, start: nat, p: nat, q: Parser, mark: Mark,
                    cbs: seq<Event>)
    requires p - start + cfg.maxHeaderSize < UINT32_MODULUS
    requires start <= p < |data| && 1 <= q.nread <= cfg.maxHeaderSize
    requires Inv(cfg, q) && MarkOk(q.state, mark, data, p)
    requires ParsingHeader(q.state) && q.state != ChunkLine(ChunkSizeStart)
    requires Uncounted(cfg, c0, data, start, p, q, mark, cbs)
    ensures CountedTracks(cfg, c0, data, start, p, q, mark, cbs)
  {
    hide Switch, Run, ResumeMark, Feed, FeedAll;
    RunPrefix(cfg, c0, data, p);
  }

  /** The end of the buffer inside an inner loop: the bytes are counted and the item stays open. */
  lemma CountedEnd(cfg: Settings, c0: Conf, data: seq<byte>, start: nat, q: Parser, mark: Mark, cbs: seq<Event>)
    requires |data| - start + cfg.maxHeaderSize < UINT32_MODULUS
    requires start < |data| && 1 <= q.nread <= cfg.maxHeaderSize
    requires Inv(cfg, q) && MarkOk(q.state, mark, data, |data|) && q.state != ChunkLine(ChunkSizeStart)
    requires Uncounted(cfg, c0, data, start, |data|, q, mark, cbs)
    ensures var q' := Count(q, |data| - 1 - start);
            if q'.nread > cfg.maxHeaderSize then Fails(cfg, c0, data, start)
            else Tracks(cfg, c0, data, |data|, q', mark, cbs)
  {
    hide Run, ResumeMark, Feed, FeedAll, LeavesAt, Fails;
    assert data[..|data|] == data;
    if Count(q, |data| - 1 - start).nread > cfg.maxHeaderSize {
      FailsAt(cfg, c0, data, start, |data| - 1);
    }
  }

  /** The loop over the characters of a name, with the fast skip of the general state. */
  method FieldScan(cfg: Settings, ghost c0: Conf, data: seq<byte>, start: nat, q0: Parser, mark: Mark,
                   ghost cbs: seq<Event>)
    returns (p: nat, q: Parser)
    requires cfg.maxHeaderSize + 1 < UINT32_MODULUS
    requires FieldTracks(cfg, c0, data, start, start, q0, mark, cbs)
    ensures FieldTracks(cfg, c0, data, start, p, q, mark, cbs)
    ensures p == |data| || !IsToken(data[p])
    ensures forall k :: start <= k < p ==> IsToken(data[k])
  {
    hide Switch, Run, ResumeMark, FieldState, FieldIndex, Inv, Uncounted, Token;
    p, q := start, q0;
    while p < |data| && IsToken(data[p])
      invariant FieldTracks(cfg, c0, data, start, p, q, mark, cbs)
      invariant forall k :: start <= k < p ==> IsToken(data[k])
    {
      if q.hstate.General? {
        GeneralFieldChar(cfg, c0, data, start, p, q, mark, cbs);
        p := GeneralSkip(cfg, c0, data, start, p, q, mark, cbs);
      } else {
        FieldCharAgrees(cfg, c0, data, start, p, q, mark, cbs);
        var index := FieldIndex(q);
        q := q.(index := index, hstate := FieldState(q.hstate, index, data[p]).value);
      }
      p := p + 1;
    }
  }

  /** Token characters after p that cannot change the general state; p stays on the last of them. */
  method GeneralSkip(cfg: Settings, ghost c0: Conf, data: seq<byte>, start: nat, p0: nat, q: Parser, mark: Mark,
                     ghost cbs: seq<Event>)
    returns (p: nat)
    requires cfg.maxHeaderSize + 1 < UINT32_MODULUS
    requires p0 < |data| && q.hstate.General? && FieldTracks(cfg, c0, data, start, p0 + 1, q, mark, cbs)
    ensures p0 <= p < |data| && FieldTracks(cfg, c0, data, start, p + 1, q, mark, cbs)
    ensures forall k :: p0 < k <= p ==> IsToken(data[k])
  {
    hide FieldTracks, Run;
    p := p0;
    var pe := p + Min(|data| - p, cfg.maxHeaderSize);
    while p + 1 < pe && IsToken(data[p + 1])
      invariant p0 <= p < |data| && FieldTracks(cfg, c0, data, start, p + 1, q, mark, cbs)
      invariant forall k :: p0 < k <= p ==> IsToken(data[k])
    {
      GeneralFieldChar(cfg, c0, data, start, p + 1, q, mark, cbs);
      p := p + 1;
    }
  }

  lemma GeneralFieldChar(cfg: Settings, c0: Conf, data: seq<byte>, start: nat, p: nat, q: Parser,
                         mark: Mark, cbs: seq<Event>)
    requires cfg.maxHeaderSize + 1 < UINT32_MODULUS
    requires p < |data| && FieldTracks(cfg, c0, data, start, p, q, mark, cbs) && IsToken(data[p])
    requires q.hstate.General?
    ensures FieldTracks(cfg, c0, data, start, p + 1, q, mark, cbs)
  {
    hide FieldTracks, Run;
    FieldCharAgrees(cfg, c0, data, start, p, q, mark, cbs);
    assert q == q.(index := FieldIndex(q), hstate := FieldState(q.hstate, FieldIndex(q), data[p]).value);
  }

  lemma CallbacksAccepted(cfg: Settings, c0: Conf, data: seq<byte>, p: nat, q: Parser, mark: Mark, cbs: seq<Event>)
    requires p <= |data| && Tracks(cfg, c0, data, p, q, mark, cbs)
    ensures Good(cfg, c0) ==> Accepted(cbs)
  {
    hide Good, Accepted, Tracks;
    if Good(cfg, c0) {
      TracksAccepted(cfg, c0, data, p, q, mark, cbs);
    }
  }

  /** What every inner loop hands back to the outer one. */
  ghost predicate Handed(cfg: Settings, c0: Conf, data: seq<byte>, start: nat, p: nat, q: Parser, mark: Mark,
                         cbs: seq<Event>)
  {
    if q.errno == OK
    then start < p <= |data| && Tracks(cfg, c0, data, p, q, mark, cbs) && StaysBetween(cfg, c0, data, start, p)
    else p <= |data| && Fails(cfg, c0, data, start) && (Good(cfg, c0) ==> Accepted(cbs))
  }

  /** s_header_field */
  method FieldRun(cfg: Settings, ghost c0: Conf, data: seq<byte>, start: nat, q0: Parser, mark: Mark, cbs: seq<Event>)
    returns (p: nat, q: Parser, mark': Mark, cbs': seq<Event>)
    requires Countable(cfg, data)
    requires start < |data| && Tracks(cfg, c0, data, start, q0, mark, cbs) && q0.state == Header(HeaderField)
    ensures Handed(cfg, c0, data, start, p, q, mark', cbs')
  {
    p, q, mark', cbs' := start, Count(q0, 1), mark, cbs;
    CallbacksAccepted(cfg, c0, data, start, q0, mark, cbs);
    if q.nread > cfg.maxHeaderSize {
      q := q.(errno := HEADER_OVERFLOW);
      FirstByteOverflows(cfg, c0, data, start, q0, mark, cbs);
      return;
    }
    InnerLoopStarts(cfg, c0, data, start, q0, mark, cbs);
    p, q := FieldScan(cfg, c0, data, start, q, mark, cbs);
    TokensRun(cfg, data, start, p);
    RunCounts(cfg, data, start, p);
    if p == |data| {
      q := EndOfBuffer(cfg, c0, data, start, q, mark, cbs);
    } else {
      p, q, mark', cbs' := FieldEnd(cfg, c0, data, start, p, q, mark, cbs);
    }
  }

  /** The buffer ends inside an item: its bytes are counted now. */
  method EndOfBuffer(cfg: Settings, ghost c0: Conf, data: seq<byte>, start: nat, q0: Parser, mark: Mark,
                     ghost cbs: seq<Event>)
    returns (q: Parser)
    requires |data| - start + cfg.maxHeaderSize < UINT32_MODULUS
    requires start < |data| && 1 <= q0.nread && Inv(cfg, q0) && MarkOk(q0.state, mark, data, |data|)
    requires q0.state != ChunkLine(ChunkSizeStart)
    requires Uncounted(cfg, c0, data, start, |data|, q0, mark, cbs)
    requires Good(cfg, c0) ==> Accepted(cbs)
    ensures Handed(cfg, c0, data, start, |data|, q, mark, cbs)
  {
    CountedEnd(cfg, c0, data, start, q0, mark, cbs);
    q := Count(q0, |data| - 1 - start);
    if q.nread > cfg.maxHeaderSize {
      q := q.(errno := HEADER_OVERFLOW);
    }
  }

  lemma FieldCounted(cfg: Settings, c0: Conf, data: seq<byte>, start: nat, p: nat, q: Parser, mark: Mark,
                     cbs: seq<Event>)
    requires start <= p && p - start + cfg.maxHeaderSize < UINT32_MODULUS
    requires p < |data| && FieldTracks(cfg, c0, data, start, p, q, mark, cbs)
    ensures start <= p && q.state == Header(HeaderField) && q.nread >= 1 && StaysBetween(cfg, c0, data, start, p)
    ensures CountedTracks(cfg, c0, data, start, p, q, mark, cbs)
  {
    hide Switch, Run, ResumeMark, StaysBetween, Tracks;
    CountedStep(cfg, c0, data, start, p, q, mark, cbs);
  }

  /** The character that ends a name: a colon, or an error. */
  method FieldEnd(cfg: Settings, ghost c0: Conf, data: seq<byte>, start: nat, p0: nat, q0: Parser, mark: Mark,
                  cbs: seq<Event>)
    returns (p: nat, q: Parser, mark': Mark, cbs': seq<Event>)
    requires start <= p0 && p0 - start + cfg.maxHeaderSize < UINT32_MODULUS
    requires p0 < |data| && !IsToken(data[p0]) && FieldTracks(cfg, c0, data, start, p0, q0, mark, cbs)
    requires Good(cfg, c0) ==> Accepted(cbs)
    ensures Handed(cfg, c0, data, start, p, q, mark', cbs')
  {
    hide Switch, OnField, Run, ResumeMark, Step, Inv, LeavesAt, Handed, Good, Accepted, FieldTracks, StaysBetween,
         Tracks;
    FieldCounted(cfg, c0, data, start, p0, q0, mark, cbs);
    p, q, mark', cbs' := p0, Count(q0, p0 - start), mark, cbs;
    if q.nread > cfg.maxHeaderSize {
      q := q.(errno := HEADER_OVERFLOW);
      TurnHands(cfg, c0, data, start, p, q, mark', cbs');
    } else {
      ghost var before := q0.(nread := q0.nread - 1 + (p - start));
      FieldIsSwitch(cfg, q, data[p]);
      q, mark', cbs' := Perform(cfg, c0, data, p, before, mark, cbs, OnField(q, data[p]));
      TurnHands(cfg, c0, data, start, p, q, mark', cbs');
      p := p + 1;
    }
  }

  lemma FieldIsSwitch(cfg: Settings, q: Parser, ch: byte)
    requires q.state == Header(HeaderField)
    ensures Switch(cfg, q, ch) == OnField(q, ch) && !OnField(q, ch).leave
  {
  }

  lemma TurnHands(cfg: Settings, c0: Conf, data: seq<byte>, start: nat, p: nat, q: Parser, mark: Mark,
                  cbs: seq<Event>)
    requires start <= p < |data| && StaysBetween(cfg, c0, data, start, p)
    requires q.errno == OK ==> Tracks(cfg, c0, data, p + 1, q, mark, cbs) && !LeavesAt(cfg, c0, data, p)
    requires q.errno != OK ==> Run(cfg, c0, data[..p + 1]).q.errno != OK && (Good(cfg, c0) ==> Accepted(cbs))
    ensures Handed(cfg, c0, data, start, p + 1, q, mark, cbs)
    ensures q.errno != OK ==> Handed(cfg, c0, data, start, p, q, mark, cbs)
  {
    hide Run, Tracks, LeavesAt, Fails;
    if q.errno != OK {
      FailsAt(cfg, c0, data, start, p);
    }
  }

  lemma FirstByteOverflows(cfg: Settings, c0: Conf, data: seq<byte>, p: nat, q: Parser, mark: Mark, cbs: seq<Event>)
    requires p < |data| && Tracks(cfg, c0, data, p, q, mark, cbs) && ParsingHeader(q.state)
    requires Count(q, 1).nread > cfg.maxHeaderSize
    ensures Fails(cfg, c0, data, p)
  {
    hide Switch, Fails, LeavesAt;
    RunPrefix(cfg, c0, data, p);
    FailsAt(cfg, c0, data, p, p);
  }

  lemma InnerLoopStarts(cfg: Settings, c0: Conf, data: seq<byte>, p: nat, q: Parser, mark: Mark, cbs: seq<Event>)
    requires cfg.maxHeaderSize + 1 < UINT32_MODULUS
    requires p < |data| && Tracks(cfg, c0, data, p, q, mark, cbs) && q.state != ChunkLine(ChunkSizeStart)
    requires Count(q, 1).nread <= cfg.maxHeaderSize
    ensures Inv(cfg, Count(q, 1)) && MarkOk(q.state, mark, data, p)
    ensures Count(q, 1).nread >= 1 && Uncounted(cfg, c0, data, p, p, Count(q, 1), mark, cbs)
  {
    hide Run, ResumeMark;
    CountInv(cfg, q);
  }
}
