/** The parser object: its registers change with every call of Execute, and its callbacks are recorded. */
module HttpParser {
  import opened Common
  import opened HttpTypes
  import opened HttpStep
  import opened HttpRun
  import opened HttpInvariant
  import opened HttpGrammar
  import opened HttpOrder
  import opened HttpMarks
  import opened HttpFieldLoop
  import opened HttpExecute

  class StreamingParser {
    const cfg: Settings
    const typ: ParserType
    var q: Parser
    var callbacks: seq<Event>
    ghost var input: seq<byte>  // everything consumed so far
    ghost var ended: bool       // the end of the input has been signalled inside a body

    /** Whatever the calls were, the registers and the glued callbacks are those of the concatenated
        input read byte by byte. */
    ghost predicate Valid()
      reads this
    {
      && cfg.maxHeaderSize < UINT32_MODULUS
      && (q.errno == OK ==> Inv(cfg, q))
      && (q.errno == OK && !ended ==> Run(cfg, Conf(Init(typ), []), input) == Conf(q, Glued(callbacks)))
      && (!ended ==> Accepted(callbacks))
    }

    constructor (cfg: Settings, typ: ParserType)
      requires cfg.maxHeaderSize < UINT32_MODULUS
      ensures Valid() && this.cfg == cfg && this.typ == typ
      ensures q == Init(typ) && callbacks == [] && input == [] && !ended
    {
      this.cfg, this.typ := cfg, typ;
      q, callbacks, input, ended := Init(typ), [], [], false;
    }

    /** http_parser_execute. Returns the number of bytes consumed. */
    method Execute(data: seq<byte>) returns (n: nat)
      requires Valid() && Countable(cfg, data)
      modifies this
      ensures Valid()
      ensures old(q.errno) != OK ==> n == 0 && q == old(q) && callbacks == old(callbacks) && input == old(input)
      ensures old(q.errno) == OK && data == []
          ==> EndOfInput(old(q), old(callbacks), n, q, callbacks) && input == old(input)
      ensures old(q.errno) == OK && data != [] ==>
                Consumed(cfg, Conf(old(q), Glued(old(callbacks))), data, n, q, callbacks)
                && (q.errno == OK ==> input == old(input) + data[..n])
      ensures !old(ended) ==> Accepted(callbacks)
      ensures ended <==> old(ended) || (data == [] && old(q.errno) == OK && q.state == Content(BodyIdentityEof))
    {
      hide Run, Inv, LeavesAt, Consumed, EndOfInput, Accepted;
      if q.errno != OK {
        return 0;
      }
      if |data| == 0 {
        n := Finish();
        return;
      }
      ghost var c0 := Conf(q, Glued(callbacks));
      var r, cbs;
      n, r, cbs := Loop(cfg, c0, data, q, callbacks);
      ConsumedPrefix(cfg, c0, data, n, r, cbs);
      if !ended {
        ConsumedValid(cfg, typ, input, c0, data, n, r, cbs);
      }
      q, callbacks := r, cbs;
      if q.errno == OK {
        input := input + data[..n];
      }
    }

    /** The call without data: the input has ended. */
    method Finish() returns (n: nat)
      requires Valid() && q.errno == OK
      modifies this
      ensures Valid()
      ensures EndOfInput(old(q), old(callbacks), n, q, callbacks) && input == old(input)
      ensures ended <==> old(ended) || q.state == Content(BodyIdentityEof)
      ensures !old(ended) ==> Accepted(callbacks)
    {
      hide Run, Inv, Accepted, NeedsEof;
      if q.state == Content(BodyIdentityEof) && !ended {
        FinishAccepted(cfg, typ, input, q, callbacks);
      }
      match q.state
      case Content(BodyIdentityEof) =>
        EofIsLast(cfg, q);
        callbacks := callbacks + [MessageComplete(ShouldKeepAlive(q))];
        ended := true;
        n := 0;
      case Start(_) => n := 0;
      case _ =>
        q := q.(errno := INVALID_EOF_STATE);
        n := 1;
    }
  }

  /** What the end of the input does in each state. */
  predicate EndOfInput(q: Parser, callbacks: seq<Event>, n: nat, q': Parser, callbacks': seq<Event>) {
    if q.state == Content(BodyIdentityEof) then
      n == 0 && q' == q && callbacks' == callbacks + [MessageComplete(false)]
    else if q.state.Start? then n == 0 && q' == q && callbacks' == callbacks
    else n == 1 && q' == q.(errno := INVALID_EOF_STATE) && callbacks' == callbacks
  }

  /** A call that carries data does to the configuration what its bytes do one after the other. It stops
      after the first byte behind which another protocol begins, or fails exactly if a byte up to there
      does. */
  ghost predicate Consumed(cfg: Settings, c0: Conf, data: seq<byte>, n: nat, q: Parser, callbacks: seq<Event>) {
    if q.errno == OK
    then && 0 < n <= |data| && Run(cfg, c0, data[..n]) == Conf(q, Glued(callbacks))
         && StaysBefore(cfg, c0, data, n - 1) && (n == |data| || LeavesAt(cfg, c0, data, n - 1))
    else n <= |data| && Fails(cfg, c0, data, 0)
  }

  /** A call fails exactly if a byte fails before, or at the one where, the call would leave. */
  lemma FailsExactly(cfg: Settings, c0: Conf, data: seq<byte>, n: nat, q: Parser, cbs: seq<Event>)
    requires Consumed(cfg, c0, data, n, q, cbs)
    ensures q.errno != OK <==> Fails(cfg, c0, data, 0)
  {
    hide Run, LeavesAt;
    if q.errno == OK {
      forall i: nat | i < |data| && StaysBetween(cfg, c0, data, 0, i)
        ensures Run(cfg, c0, data[..i + 1]).q.errno == OK
      {
        if Run(cfg, c0, data[..i + 1]).q.errno != OK {
          assert data[..n][..i + 1] == data[..i + 1];
          RunStuck(cfg, c0, data[..n], i + 1);
        }
      }
    }
  }

  /** A message that ends with the connection is the last one. */
  lemma EofIsLast(cfg: Settings, q: Parser)
    requires Inv(cfg, q) && q.state == Content(BodyIdentityEof)
    ensures !ShouldKeepAlive(q)
  {
  }

  /** The first end of the input completes the message that was waiting for it, and is the last callback. */
  lemma FinishAccepted(cfg: Settings, typ: ParserType, input: seq<byte>, q: Parser, cbs: seq<Event>)
    requires cfg.maxHeaderSize < UINT32_MODULUS && q.state == Content(BodyIdentityEof) && q.errno == OK
    requires Run(cfg, Conf(Init(typ), []), input) == Conf(q, Glued(cbs))
    ensures Monitor(Idle, cbs + [MessageComplete(false)]) == Closed
    ensures Accepted(cbs + [MessageComplete(false)])
  {
    hide Run, Step, FeedAll;
    RunGood(cfg, typ, input);
    MonitorFeedAll(Idle, [], cbs);
    MonitorSnoc(Idle, cbs, MessageComplete(false));
  }

  /** A second end of the input would complete the same message again: the order of callbacks is kept for
      one such call only. */
  lemma SecondFinishBreaksOrder(cfg: Settings, typ: ParserType, input: seq<byte>, q: Parser, cbs: seq<Event>)
    requires cfg.maxHeaderSize < UINT32_MODULUS && q.state == Content(BodyIdentityEof) && q.errno == OK
    requires Run(cfg, Conf(Init(typ), []), input) == Conf(q, Glued(cbs))
    ensures var done := MessageComplete(false);
            EndOfInput(q, cbs, 0, q, cbs + [done]) && EndOfInput(q, cbs + [done], 0, q, cbs + [done] + [done])
            && Accepted(cbs + [done]) && !Accepted(cbs + [done] + [done])
  {
    hide Run, Step, FeedAll;
    var done := MessageComplete(false);
    FinishAccepted(cfg, typ, input, q, cbs);
    MonitorSnoc(Idle, cbs + [done], done);
  }

  lemma ConsumedPrefix(cfg: Settings, c0: Conf, data: seq<byte>, n: nat, q: Parser, cbs: seq<Event>)
    requires Consumed(cfg, c0, data, n, q, cbs)
    ensures n <= |data|
  {
    hide Run, LeavesAt;
  }

  lemma LoopGoesOn(cfg: Settings, c0: Conf, data: seq<byte>, start: nat, n: nat)
    requires start < n <= |data| && StaysBefore(cfg, c0, data, start) && StaysBetween(cfg, c0, data, start, n - 1)
    ensures StaysBefore(cfg, c0, data, n - 1)
    ensures !LeavesAt(cfg, c0, data, n - 1) ==> StaysBefore(cfg, c0, data, n)
  {
    hide LeavesAt;
  }

  lemma LoopStarts(cfg: Settings, c0: Conf, data: seq<byte>, q: Parser, cbs: seq<Event>)
    requires Inv(cfg, q) && c0 == Conf(q, Glued(cbs))
    ensures Tracks(cfg, c0, data, 0, q, FirstMark(q.state), cbs)
    ensures StaysBefore(cfg, c0, data, 0)
  {
    hide Inv, Step;
    assert data[..0] == [];
  }

  lemma TracksInv(cfg: Settings, c0: Conf, data: seq<byte>, n: nat, q: Parser, mark: Mark, cbs: seq<Event>)
    requires Tracks(cfg, c0, data, n, q, mark, cbs)
    ensures Inv(cfg, q) && q.errno == OK
  {
    hide Run;
  }

  lemma LoopLeaves(cfg: Settings, c0: Conf, data: seq<byte>, n: nat, q: Parser, cbs: seq<Event>)
    requires Tracks(cfg, c0, data, n, q, None, cbs)
    ensures Run(cfg, c0, data[..n]) == Conf(q, Glued(cbs))
  {
    hide Run, Inv;
  }

  /** At the end of the buffer the item that is still open is delivered; no other one is. */
  lemma LoopEnds(cfg: Settings, c0: Conf, data: seq<byte>, q: Parser, mark: Mark, cbs: seq<Event>)
    requires 0 < |data| && Tracks(cfg, c0, data, |data|, q, mark, cbs)
    ensures mark.Some? ==> mark.value.start < |data|
    ensures var rest := if mark.Some? then [Data(mark.value.kind, data[mark.value.start..])] else [];
            && Run(cfg, c0, data[..|data|]) == Conf(q, Glued(cbs + rest))
            && CallAll(AsMarks(mark), data) == rest
  {
    hide Run, Inv, Feed, FeedAll, CallAll, AsMarks;
    EndIsEnough(mark, data);
    assert data[..|data|] == data;
    if mark.Some? {
      FeedAllSnoc([], cbs, Data(mark.value.kind, data[mark.value.start..]));
    } else {
      assert cbs + [] == cbs;
    }
  }

  /** The input of a connection grows by what a call has consumed. */
  lemma ConsumedValid(cfg: Settings, typ: ParserType, input: seq<byte>, c0: Conf, data: seq<byte>, n: nat,
                      q: Parser, cbs: seq<Event>)
    requires Consumed(cfg, c0, data, n, q, cbs) && cfg.maxHeaderSize < UINT32_MODULUS
    requires Run(cfg, Conf(Init(typ), []), input) == c0
    requires q.errno != OK && Good(cfg, c0) ==> Accepted(cbs)
    ensures q.errno == OK ==> Run(cfg, Conf(Init(typ), []), input + data[..n]) == Conf(q, Glued(cbs))
    ensures Accepted(cbs)
  {
    hide Run, LeavesAt, Inv, Agrees, FeedAll, Step;
    RunGood(cfg, typ, input);
    if q.errno == OK {
      RunConcat(cfg, Conf(Init(typ), []), input, data[..n]);
      RunGood(cfg, typ, input + data[..n]);
      MonitorFeedAll(Idle, [], cbs);
    }
  }

  /** The outer loop with the deliveries after it. */
  method Loop(cfg: Settings, ghost c0: Conf, data: seq<byte>, q0: Parser, cbs0: seq<Event>)
    returns (n: nat, q: Parser, cbs: seq<Event>)
    requires Inv(cfg, q0) && q0.errno == OK && c0 == Conf(q0, Glued(cbs0)) && 0 < |data|
    requires Countable(cfg, data)
    ensures Consumed(cfg, c0, data, n, q, cbs) && (q.errno == OK ==> Inv(cfg, q))
    ensures q.errno != OK && Good(cfg, c0) ==> Accepted(cbs)
  {
    hide Run, Tracks, LeavesAt, ResumeMark, Accepted, Inv, Good, Fails;
    LoopStarts(cfg, c0, data, q0, cbs0);
    var mark, leave := FirstMark(q0.state), false;
    n, q, cbs := 0, q0, cbs0;
    while n < |data|
      invariant n <= |data| && q.errno == OK && Inv(cfg, q)
      invariant Tracks(cfg, c0, data, n, q, mark, cbs) && StaysBefore(cfg, c0, data, n)
    {
      ghost var start := n;
      n, q, mark, cbs, leave := Turn(cfg, c0, data, n, q, mark, cbs);
      if q.errno != OK {
        FailsEarlier(cfg, c0, data, start);
        return;
      }
      TracksInv(cfg, c0, data, n, q, mark, cbs);
      LoopGoesOn(cfg, c0, data, start, n);
      if leave {
        LoopLeaves(cfg, c0, data, n, q, cbs);
        return;
      }
    }
    LoopEnds(cfg, c0, data, q, mark, cbs);
    assert cbs + [] == cbs;
    if mark.Some? {
      cbs := cbs + [Data(mark.value.kind, data[mark.value.start..])];
    }
  }
}
