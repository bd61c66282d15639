/** Body bytes taken in bulk. */
module HttpBodyLoop {
  import opened Common
  import opened HttpTypes
  import opened HttpStep
  import opened HttpRun
  import opened HttpInvariant
  import opened HttpMarks
  import opened HttpFieldLoop

  predicate BodyState(s: State) {
    s == Content(BodyIdentity) || s == Content(BodyIdentityEof) || s == ChunkBody(ChunkData)
  }

  /** How many bytes the state takes without leaving the item. */
  predicate Room(q: Parser, k: nat) {
    && BodyState(q.state)
    && (q.state == Content(BodyIdentity) ==> k < q.contentLength)
    && (q.state == ChunkBody(ChunkData) ==> k <= q.contentLength)
  }

  function BodyAfter(q: Parser, k: nat): Parser
    requires Room(q, k)
  {
    if q.state == Content(BodyIdentityEof) then q
    else q.(contentLength := q.contentLength - k,
            state := if q.state == ChunkBody(ChunkData) && k == q.contentLength then ChunkBody(ChunkDataAlmostDone)
                     else q.state)
  }

  lemma BodyStep(cfg: Settings, q: Parser, ch: byte)
    requires Inv(cfg, q) && Room(q, 1)
    ensures Step(cfg, q, ch) == Outcome(BodyAfter(q, 1), Open(Body), false)
  {
  }

  lemma BodyByteEvents(s: State, q': Parser, ch: byte)
    requires q'.errno == OK
    ensures ByteEvents(s, Outcome(q', Open(Body), false), ch) == [Data(Body, [ch])]
  {
    hide ResumeMark;
  }

  lemma BodyByteRun(cfg: Settings, c0: Conf, data: seq<byte>, p: nat, q: Parser, t: seq<Event>)
    requires p < |data| && Run(cfg, c0, data[..p]) == Conf(q, t) && Inv(cfg, q) && Room(q, 1)
    ensures Run(cfg, c0, data[..p + 1]) == Conf(BodyAfter(q, 1), Feed(t, Data(Body, [data[p]])))
    ensures Inv(cfg, BodyAfter(q, 1)) && !LeavesAt(cfg, c0, data, p)
  {
    BodyStep(cfg, q, data[p]);
    StepSound(cfg, q, data[p]);
    assert q.errno == OK && BodyAfter(q, 1).errno == OK;
    hide Run, Step, FeedAll, Feed, ByteEvents, Inv, BodyAfter;
    RunPrefix(cfg, c0, data, p);
    FeedOne(t, Data(Body, [data[p]]));
    BodyByteEvents(q.state, BodyAfter(q, 1), data[p]);
  }

  lemma BodyAfterOne(q: Parser, k: nat)
    requires k > 0 && Room(q, k)
    ensures Room(q, k - 1) && Room(BodyAfter(q, k - 1), 1) && BodyAfter(BodyAfter(q, k - 1), 1) == BodyAfter(q, k)
  {
  }

  lemma BodyGrowsByOne(cfg: Settings, c0: Conf, data: seq<byte>, start: nat, p: nat, q: Parser, g: seq<Event>)
    requires start <= p < |data| && Inv(cfg, q) && Room(q, 1)
    requires Run(cfg, c0, data[..p]) == Conf(q, WithPending(g, Some(Pending(Body, start)), data, p))
    ensures Run(cfg, c0, data[..p + 1])
         == Conf(BodyAfter(q, 1), WithPending(g, Some(Pending(Body, start)), data, p + 1))
    ensures Inv(cfg, BodyAfter(q, 1)) && !LeavesAt(cfg, c0, data, p)
  {
    hide Run, BodyAfter, LeavesAt, Room, Inv, Feed;
    BodyByteRun(cfg, c0, data, p, q, WithPending(g, Some(Pending(Body, start)), data, p));
    PendingGrows(Some(Pending(Body, start)), data, p, g);
  }

  /** After k body bytes: one growing delivery. */
  ghost predicate Grown(cfg: Settings, c0: Conf, data: seq<byte>, p: nat, k: nat, q: Parser, g: seq<Event>)
    requires p + k <= |data| && Room(q, k)
  {
    && Run(cfg, c0, data[..p + k])
       == Conf(BodyAfter(q, k), WithPending(g, Some(Pending(Body, p)), data, p + k))
    && Inv(cfg, BodyAfter(q, k)) && StaysBetween(cfg, c0, data, p, p + k)
  }

  lemma GrownNone(cfg: Settings, c0: Conf, data: seq<byte>, p: nat, q: Parser, g: seq<Event>)
    requires p <= |data| && BodyState(q.state) && Inv(cfg, q) && Run(cfg, c0, data[..p]) == Conf(q, g)
    ensures Room(q, 0) && Grown(cfg, c0, data, p, 0, q, g)
  {
    hide Run;
    assert BodyAfter(q, 0) == q;
  }

  lemma GrownMore(cfg: Settings, c0: Conf, data: seq<byte>, p: nat, k: nat, q: Parser, g: seq<Event>)
    requires 0 < k && p + k <= |data| && Room(q, k)
    requires Room(q, k - 1) && Grown(cfg, c0, data, p, k - 1, q, g)
    ensures Grown(cfg, c0, data, p, k, q, g)
  {
    hide Run, BodyAfter, LeavesAt, Room, WithPending, Inv;
    BodyAfterOne(q, k);
    BodyGrowsByOne(cfg, c0, data, p, p + k - 1, BodyAfter(q, k - 1), g);
  }

  /** A run of body bytes is one delivery. */
  lemma {:induction false} BodyGrows(cfg: Settings, c0: Conf, data: seq<byte>, p: nat, k: nat, q: Parser, g: seq<Event>)
    requires p + k <= |data| && Room(q, k) && Inv(cfg, q) && Run(cfg, c0, data[..p]) == Conf(q, g)
    ensures Grown(cfg, c0, data, p, k, q, g)
    decreases k
  {
    hide Inv, Run, LeavesAt, BodyAfter, Grown, Room;
    if k == 0 {
      assert BodyState(q.state) by { RoomIsBody(q, k); }
      GrownNone(cfg, c0, data, p, q, g);
    } else {
      BodyAfterOne(q, k);
      BodyGrows(cfg, c0, data, p, k - 1, q, g);
      GrownMore(cfg, c0, data, p, k, q, g);
    }
  }

  lemma RoomIsBody(q: Parser, k: nat)
    requires Room(q, k)
    ensures BodyState(q.state)
  {
  }

  lemma NoResume(s: State)
    requires BodyState(s) || s == ChunkBody(ChunkDataAlmostDone)
    ensures ResumeMark(s) == None
  {
  }

  lemma BodyHands(cfg: Settings, c0: Conf, data: seq<byte>, start: nat, k: nat, q: Parser, cbs: seq<Event>)
    requires 0 < k && start + k <= |data| && Room(q, k) && Tracks(cfg, c0, data, start, q, None, cbs)
    requires start + k == |data| || (q.state == ChunkBody(ChunkData) && k == q.contentLength)
    ensures Handed(cfg, c0, data, start, start + k, BodyAfter(q, k), Some(Pending(Body, start)), cbs)
  {
    hide Run, ResumeMark, LeavesAt, StateOk;
    BodyGrows(cfg, c0, data, start, k, q, Glued(cbs));
    assert ResumeMark(BodyAfter(q, k).state) == None by { NoResume(BodyAfter(q, k).state); }
  }

  lemma BodyUnmarked(cfg: Settings, c0: Conf, data: seq<byte>, p: nat, q: Parser, mark: Mark, cbs: seq<Event>)
    requires p < |data| && Tracks(cfg, c0, data, p, q, mark, cbs) && BodyState(q.state)
    ensures mark == None && (q.state != Content(BodyIdentityEof) ==> 0 < q.contentLength)
  {
    hide Run;
  }

  lemma BodyFits(cfg: Settings, c0: Conf, data: seq<byte>, start: nat, k: nat, q: Parser, cbs: seq<Event>)
    requires start < |data| && Tracks(cfg, c0, data, start, q, None, cbs) && BodyState(q.state)
    requires k == if q.state == Content(BodyIdentityEof) then |data| - start else Min(q.contentLength, |data| - start)
    requires q.state == Content(BodyIdentity) ==> |data| - start < q.contentLength
    ensures Room(q, k)
    ensures Handed(cfg, c0, data, start, start + k, BodyAfter(q, k), Some(Pending(Body, start)), cbs)
  {
    hide Run, Handed, BodyAfter;
    assert 0 < k by { BodyUnmarked(cfg, c0, data, start, q, None, cbs); }
    BodyHands(cfg, c0, data, start, k, q, cbs);
  }

  /** s_chunk_data and s_body_identity_eof; also s_body_identity when the buffer ends first. */
  method BodyRun(cfg: Settings, ghost c0: Conf, data: seq<byte>, start: nat, q0: Parser, cbs: seq<Event>)
    returns (p: nat, q: Parser, mark: Mark)
    requires start < |data| && Tracks(cfg, c0, data, start, q0, None, cbs)
    requires BodyState(q0.state) && (q0.state == Content(BodyIdentity) ==> |data| - start < q0.contentLength)
    ensures Handed(cfg, c0, data, start, p, q, mark, cbs)
  {
    hide Run, Handed, Tracks, BodyAfter, Room;
    var left := |data| - start;
    var toRead := if q0.state == Content(BodyIdentityEof) then left else Min(q0.contentLength, left);
    BodyFits(cfg, c0, data, start, toRead, q0, cbs);
    mark, p := Some(Pending(Body, start)), start + toRead;
    q := BodyAfter(q0, toRead);
  }

  /** s_body_identity when the body is complete in this buffer: the last byte is delivered with the others
      and the message ends. */
  method BodyEnd(cfg: Settings, ghost c0: Conf, data: seq<byte>, start: nat, q0: Parser, cbs: seq<Event>)
    returns (p: nat, q: Parser, cbs': seq<Event>, leave: bool)
    requires start < |data| && Tracks(cfg, c0, data, start, q0, None, cbs)
    requires q0.state == Content(BodyIdentity) && q0.contentLength <= |data| - start
    ensures start < p <= |data| && q.errno == OK && Tracks(cfg, c0, data, p, q, None, cbs')
    ensures StaysBetween(cfg, c0, data, start, p - 1) && (leave <==> LeavesAt(cfg, c0, data, p - 1))
  {
    hide Run, LeavesAt, Inv, ResumeMark, CompleteMessage, StaysBetween, FeedAll, StateOk;
    BodyNotEmpty(cfg, c0, data, start, q0, cbs);
    BodyEnds(cfg, c0, data, start, q0, cbs);
    var toRead := q0.contentLength;
    p := start + toRead;
    cbs' := cbs + [Data(Body, data[start..p])];
    var out := CompleteMessage(q0.(contentLength := 0), q0.upgrade);
    cbs' := cbs' + out.fx.notices;
    q, leave := out.q, out.leave;
    CompleteIsFine(q0.(contentLength := 0), q0.upgrade);
  }

  lemma BodyNotEmpty(cfg: Settings, c0: Conf, data: seq<byte>, start: nat, q0: Parser, cbs: seq<Event>)
    requires start < |data| && Tracks(cfg, c0, data, start, q0, None, cbs) && q0.state == Content(BodyIdentity)
    ensures 0 < q0.contentLength && q0.errno == OK
  {
    hide Run;
  }

  lemma CompleteIsFine(q: Parser, leave: bool)
    requires q.errno == OK
    ensures CompleteMessage(q, leave).q.errno == OK
  {
  }

  lemma LastBodyStep(cfg: Settings, q: Parser, ch: byte)
    requires Inv(cfg, q) && q.state == Content(BodyIdentity) && q.contentLength == 1
    ensures Step(cfg, q, ch) == Join(Close(Through(Body)), CompleteMessage(q.(contentLength := 0), q.upgrade))
    ensures Inv(cfg, Step(cfg, q, ch).q) && ResumeMark(Step(cfg, q, ch).q.state) == None
  {
    StepSound(cfg, q, ch);
  }

  /** Delivering the marked bytes together with the last one. */
  lemma LastByteGlues(g: seq<Event>, data: seq<byte>, start: nat, p: nat, notices: seq<Event>)
    requires start <= p < |data|
    ensures FeedAll(WithPending(g, Some(Pending(Body, start)), data, p), [Data(Body, [data[p]])] + notices)
         == FeedAll(FeedAll(g, [Data(Body, data[start..p + 1])]), notices)
  {
    var t := WithPending(g, Some(Pending(Body, start)), data, p);
    FeedAllConcat(t, [Data(Body, [data[p]])], notices);
    PendingGrows(Some(Pending(Body, start)), data, p, g);
    FeedOne(g, Data(Body, data[start..p + 1]));
    FeedOne(t, Data(Body, [data[p]]));
  }

  lemma LastBodyAdvance(cfg: Settings, c: Conf, ch: byte)
    requires Inv(cfg, c.q) && c.q.state == Content(BodyIdentity) && c.q.contentLength == 1
    ensures var done := CompleteMessage(c.q.(contentLength := 0), c.q.upgrade);
            && Advance(cfg, c, ch) == Conf(done.q, FeedAll(c.trace, [Data(Body, [ch])] + done.fx.notices))
            && Inv(cfg, done.q) && ResumeMark(done.q.state) == None
            && Step(cfg, c.q, ch).leave == done.leave
  {
    LastBodyStep(cfg, c.q, ch);
    var done := CompleteMessage(c.q.(contentLength := 0), c.q.upgrade);
    var out := Join(Close(Through(Body)), done);
    hide Step, CompleteMessage, ResumeMark;
    assert ByteEvents(c.q.state, out, ch) == [Data(Body, [ch])] + done.fx.notices;
  }

  lemma LastBodyRun(cfg: Settings, c0: Conf, data: seq<byte>, p: nat, q: Parser, t: seq<Event>)
    requires p < |data| && Run(cfg, c0, data[..p]) == Conf(q, t)
    requires Inv(cfg, q) && q.state == Content(BodyIdentity) && q.contentLength == 1
    ensures var done := CompleteMessage(q.(contentLength := 0), q.upgrade);
            && Run(cfg, c0, data[..p + 1]) == Conf(done.q, FeedAll(t, [Data(Body, [data[p]])] + done.fx.notices))
            && Inv(cfg, done.q) && ResumeMark(done.q.state) == None
            && (done.leave <==> LeavesAt(cfg, c0, data, p))
  {
    assert q.errno == OK;
    hide CompleteMessage, ResumeMark, Step, Feed, FeedAll, Inv, Advance, Run;
    RunPrefix(cfg, c0, data, p);
    LastBodyAdvance(cfg, Run(cfg, c0, data[..p]), data[p]);
  }

  lemma AlmostEmptyBody(q: Parser)
    requires q.state == Content(BodyIdentity) && 0 < q.contentLength
    ensures Room(q, q.contentLength - 1)
    ensures var b := BodyAfter(q, q.contentLength - 1);
            b.state == Content(BodyIdentity) && b.contentLength == 1
            && CompleteMessage(b.(contentLength := 0), b.upgrade) == CompleteMessage(q.(contentLength := 0), q.upgrade)
  {
    hide CompleteMessage;
    var b := BodyAfter(q, q.contentLength - 1);
    assert b.(contentLength := 0) == q.(contentLength := 0);
  }

  lemma BodyEnds(cfg: Settings, c0: Conf, data: seq<byte>, start: nat, q0: Parser, cbs: seq<Event>)
    requires start < |data| && Tracks(cfg, c0, data, start, q0, None, cbs)
    requires q0.state == Content(BodyIdentity) && 0 < q0.contentLength <= |data| - start
    ensures var p := start + q0.contentLength;
            var out := CompleteMessage(q0.(contentLength := 0), q0.upgrade);
            && Tracks(cfg, c0, data, p, out.q, None, cbs + [Data(Body, data[start..p])] + out.fx.notices)
            && StaysBetween(cfg, c0, data, start, p - 1)
            && (out.leave <==> LeavesAt(cfg, c0, data, p - 1))
  {
    hide CompleteMessage, ResumeMark, Feed, FeedAll, Inv, Run, LeavesAt, BodyAfter;
    var p := start + q0.contentLength - 1;
    AlmostEmptyBody(q0);
    BodyGrows(cfg, c0, data, start, q0.contentLength - 1, q0, Glued(cbs));
    LastBodyRun(cfg, c0, data, p, BodyAfter(q0, q0.contentLength - 1),
                WithPending(Glued(cbs), Some(Pending(Body, start)), data, p));
    var done := CompleteMessage(q0.(contentLength := 0), q0.upgrade);
    LastByteGlues(Glued(cbs), data, start, p, done.fx.notices);
    FeedAll3([], cbs, [Data(Body, data[start..p + 1])], done.fx.notices);
  }
}
