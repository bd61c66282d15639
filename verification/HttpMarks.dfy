/** Deferred marks: what the loop over a buffer has delivered and what it still holds open, against the
    byte-by-byte meaning of the input; and the effects of a single byte. */
module HttpMarks {
  import opened Common
  import opened HttpTypes
  import opened HttpUrlChar
  import opened HttpStep
  import opened HttpRun
  import opened HttpInvariant
  import opened HttpGrammar
  import opened HttpOrder

  // ------------------------------------------------------------------ marks

  /** The one mark that is set, and where. The source has five variables; OneIsEnough shows that no other
      one is ever set, which is the assertion at the end of the source's loop. */
  datatype Pending = Pending(kind: Kind, start: nat)
  type Mark = Option<Pending>

  predicate MarkInside(mark: Mark, data: seq<byte>, p: nat) {
    p <= |data| && (mark.Some? ==> mark.value.start <= p)
  }

  /** The trace once the marked bytes before p are delivered too. */
  function WithPending(glued: seq<Event>, mark: Mark, data: seq<byte>, p: nat): seq<Event>
    requires MarkInside(mark, data, p)
  {
    if mark.Some? && mark.value.start < p
    then Feed(glued, Data(mark.value.kind, data[mark.value.start..p]))
    else glued
  }

  /** Which mark is set follows from the state, but for a chunk whose bytes are complete. */
  predicate MarkOk(s: State, mark: Mark, data: seq<byte>, p: nat) {
    && MarkInside(mark, data, p)
    && (match ResumeMark(s)
        case Some(k) => mark.Some? && mark.value.kind == k && (mark.value.start == p ==> p == 0)
        case None =>
          mark.Some? ==> mark.value.kind == Body && mark.value.start < p
                         && (s == ChunkBody(ChunkDataAlmostDone) || p == |data|))
  }

  predicate LeavesAt(cfg: Settings, c0: Conf, data: seq<byte>, i: nat)
    requires i < |data|
  {
    var c := Run(cfg, c0, data[..i]);
    c.q.errno == OK && Step(cfg, c.q, data[i]).leave
  }

  ghost predicate StaysBetween(cfg: Settings, c0: Conf, data: seq<byte>, start: nat, p: nat)
    requires p <= |data|
  {
    forall i: nat | start <= i < p :: !LeavesAt(cfg, c0, data, i)
  }

  ghost predicate StaysBefore(cfg: Settings, c0: Conf, data: seq<byte>, p: nat)
    requires p <= |data|
  {
    StaysBetween(cfg, c0, data, 0, p)
  }

  /** A byte from start on fails, and no byte before it leaves. */
  ghost predicate Fails(cfg: Settings, c0: Conf, data: seq<byte>, start: nat) {
    exists i: nat :: start <= i < |data| && StaysBetween(cfg, c0, data, start, i)
                     && Run(cfg, c0, data[..i + 1]).q.errno != OK
  }

  lemma FailsAt(cfg: Settings, c0: Conf, data: seq<byte>, start: nat, i: nat)
    requires start <= i < |data| && StaysBetween(cfg, c0, data, start, i)
    requires Run(cfg, c0, data[..i + 1]).q.errno != OK
    ensures Fails(cfg, c0, data, start)
  {
  }

  lemma FailsEarlier(cfg: Settings, c0: Conf, data: seq<byte>, start: nat)
    requires start <= |data| && StaysBefore(cfg, c0, data, start) && Fails(cfg, c0, data, start)
    ensures Fails(cfg, c0, data, 0)
  {
    hide Run, LeavesAt;
    var i: nat :| start <= i < |data| && StaysBetween(cfg, c0, data, start, i)
                  && Run(cfg, c0, data[..i + 1]).q.errno != OK;
    FailsAt(cfg, c0, data, 0, i);
  }

  lemma FailsRun(cfg: Settings, c0: Conf, data: seq<byte>, start: nat)
    requires Fails(cfg, c0, data, start)
    ensures Run(cfg, c0, data).q.errno != OK
  {
    hide Run, StaysBetween;
    var i: nat :| start <= i < |data| && StaysBetween(cfg, c0, data, start, i)
                  && Run(cfg, c0, data[..i + 1]).q.errno != OK;
    RunStuck(cfg, c0, data, i + 1);
  }

  /** The loop has consumed data[..p] as the byte-by-byte meaning says. */
  ghost predicate Tracks(cfg: Settings, c0: Conf, data: seq<byte>, p: nat, q: Parser, mark: Mark, cbs: seq<Event>) {
    && Inv(cfg, q)
    && MarkOk(q.state, mark, data, p)
    && Run(cfg, c0, data[..p]) == Conf(q, WithPending(Glued(cbs), mark, data, p))
  }

  // ------------------------------------------------------------------ the effects of one byte

  function Delivered(mark: Mark, c: Closing, data: seq<byte>, p: nat): seq<Event>
    requires MarkInside(mark, data, p) && p < |data|
  {
    var m := if mark.Some? then mark.value.start else p;
    match c
    case Keep => []
    case Flush(k) => if mark.Some? && mark.value.kind == k then [Data(k, data[m..p])] else []
    case Empty(k) => [Data(k, data[m..p])]
    case Through(k) => [Data(k, data[m..p + 1])]
  }

  function Marked'(mark: Mark, fx: Effects, p: nat): Mark {
    var left := if fx.close.Keep? then mark else None;
    if fx.open.Some? && left.None? then Some(Pending(fx.open.value, p)) else left
  }

  /** The bytes marked so far, delivered at once or ended by an empty delivery. */
  lemma FlushAgrees(k: Kind, start: nat, data: seq<byte>, p: nat, g: seq<Event>)
    requires start <= p < |data|
    ensures var t := WithPending(g, Some(Pending(k, start)), data, p);
            && Feed(t, Data(k, [])) == Feed(g, Data(k, data[start..p]))
            && (start < p ==> t == Feed(g, Data(k, data[start..p])))
  {
    var run := data[start..p];
    if start < p {
      FeedSplit(g, k, run, []);
      assert run + [] == run;
    } else {
      assert run == [];
    }
  }

  /** Closing an item over the whole buffer and over the single byte give the same trace. */
  lemma CloseAgrees(s: State, mark: Mark, out: Outcome, data: seq<byte>, p: nat, g: seq<Event>)
    requires MarkOk(s, mark, data, p) && p < |data| && MarksFollow(s, out) && !out.fx.close.Keep?
    ensures FeedAll(WithPending(g, mark, data, p), ClosingEvents(s, out.fx.close, data[p]))
         == FeedAll(g, Delivered(mark, out.fx.close, data, p))
  {
    hide Feed, FeedAll;
    var t := WithPending(g, mark, data, p);
    FeedAllNone(t);
    match out.fx.close
    case Flush(k) =>
      if mark.Some? {
        FeedOne(g, Data(k, data[mark.value.start..p]));
        FeedOne(t, Data(k, []));
        FlushAgrees(k, mark.value.start, data, p, g);
      }
    case Empty(k) => assert data[p..p] == [];
    case Through(k) => assert data[p..p + 1] == [data[p]];
  }

  /** An item that stays open grows by the byte. */
  lemma PendingGrows(mark: Mark, data: seq<byte>, p: nat, g: seq<Event>)
    requires MarkInside(mark, data, p) && p < |data| && mark.Some?
    ensures Feed(WithPending(g, mark, data, p), Data(mark.value.kind, [data[p]]))
         == WithPending(g, mark, data, p + 1)
  {
    var m := mark.value.start;
    assert data[m..p + 1] == data[m..p] + [data[p]];
    if m < p {
      FeedSplit(g, mark.value.kind, data[m..p], [data[p]]);
    } else {
      assert data[m..p + 1] == [data[p]];
    }
  }

  lemma FeedAll3(t: seq<Event>, a: seq<Event>, b: seq<Event>, c: seq<Event>)
    ensures FeedAll(t, a + b + c) == FeedAll(FeedAll(FeedAll(t, a), b), c)
  {
    FeedAllConcat(t, a + b, c);
    FeedAllConcat(t, a, b);
  }

  /** The effects of one byte, performed on the buffer, keep pace with the byte-by-byte trace. */
  lemma EffectsAgree(s: State, mark: Mark, out: Outcome, data: seq<byte>, p: nat, g: seq<Event>)
    requires MarkOk(s, mark, data, p) && p < |data| && MarksFollow(s, out) && out.q.errno == OK
    requires s != Content(BodyIdentity) && s != Content(BodyIdentityEof) && s != ChunkBody(ChunkData)
    ensures var mark' := Marked'(mark, out.fx, p);
            && MarkOk(out.q.state, mark', data, p + 1)
            && WithPending(FeedAll(g, Delivered(mark, out.fx.close, data, p) + out.fx.notices), mark', data, p + 1)
               == FeedAll(WithPending(g, mark, data, p), ByteEvents(s, out, data[p]))
  {
    var fx := out.fx;
    var t := WithPending(g, mark, data, p);
    var closing, opening := ClosingEvents(s, fx.close, data[p]), OpenEvents(s, fx, data[p]);
    FeedAll3(t, closing, fx.notices, opening);
    FeedAllConcat(g, Delivered(mark, fx.close, data, p), fx.notices);
    var g' := FeedAll(g, Delivered(mark, fx.close, data, p) + fx.notices);
    var t' := FeedAll(FeedAll(t, closing), fx.notices);
    if fx.close.Keep? && ResumeMark(s).Some? {
      assert g' == g && t' == t;
      PendingGrows(mark, data, p, g);
      FeedOne(t, Data(mark.value.kind, [data[p]]));
    } else {
      if !fx.close.Keep? {
        CloseAgrees(s, mark, out, data, p, g);
      }
      assert g' == t';
      if fx.open.Some? {
        PendingGrows(Some(Pending(fx.open.value, p)), data, p, g');
        FeedOne(g', Data(fx.open.value, [data[p]]));
      }
    }
  }

  // ------------------------------------------------------------------ one turn of the outer loop

  /** The loop's state after a byte with the given outcome. */
  ghost predicate TracksNext(cfg: Settings, c0: Conf, data: seq<byte>, p: nat, mark: Mark, cbs: seq<Event>,
                             out: Outcome)
    requires p < |data| && MarkInside(mark, data, p)
  {
    if out.q.errno == OK
    then Tracks(cfg, c0, data, p + 1, out.q, Marked'(mark, out.fx, p),
                cbs + Delivered(mark, out.fx.close, data, p) + out.fx.notices)
    else Run(cfg, c0, data[..p + 1]).q.errno != OK
  }

  lemma OutcomeAgrees(cfg: Settings, c0: Conf, data: seq<byte>, p: nat, q: Parser, mark: Mark, cbs: seq<Event>,
                      out: Outcome)
    requires p < |data| && Tracks(cfg, c0, data, p, q, mark, cbs)
    requires q.state != Content(BodyIdentity) && q.state != Content(BodyIdentityEof) && q.state != ChunkBody(ChunkData)
    requires out.q.errno == OK ==> Inv(cfg, out.q) && MarksFollow(q.state, out)
    requires Run(cfg, c0, data[..p + 1])
          == Conf(out.q, FeedAll(WithPending(Glued(cbs), mark, data, p), ByteEvents(q.state, out, data[p])))
    ensures TracksNext(cfg, c0, data, p, mark, cbs, out)
  {
    hide Step, Run, Feed, FeedAll, ByteEvents, Inv, WithPending, Marked', Delivered, ResumeMark, MarksFollow;
    if out.q.errno == OK {
      EffectsAgree(q.state, mark, out, data, p, Glued(cbs));
      var more := Delivered(mark, out.fx.close, data, p) + out.fx.notices;
      assert cbs + Delivered(mark, out.fx.close, data, p) + out.fx.notices == cbs + more;
      FeedAllConcat([], cbs, more);
    }
  }

  lemma StepAgrees(cfg: Settings, c0: Conf, data: seq<byte>, p: nat, q: Parser, mark: Mark, cbs: seq<Event>)
    requires p < |data| && Tracks(cfg, c0, data, p, q, mark, cbs)
    requires q.state != Content(BodyIdentity) && q.state != Content(BodyIdentityEof) && q.state != ChunkBody(ChunkData)
    ensures LeavesAt(cfg, c0, data, p) <==> Step(cfg, q, data[p]).leave
    ensures TracksNext(cfg, c0, data, p, mark, cbs, Step(cfg, q, data[p]))
  {
    RunPrefix(cfg, c0, data, p);
    StepSound(cfg, q, data[p]);
    OutcomeAgrees(cfg, c0, data, p, q, mark, cbs, Step(cfg, q, data[p]));
  }

  /** A call returns early only between messages, where nothing is being collected. */
  predicate Completes(out: Outcome) {
    MessageComplete(true) in out.fx.notices || MessageComplete(false) in out.fx.notices
  }

  lemma HeadersLeave(cfg: Settings, q: Parser, ch: byte)
    requires OnHeadersAlmostDone(cfg, q, ch).leave
    ensures var out := OnHeadersAlmostDone(cfg, q, ch); out.fx.open == None && out.q.state.Start? && Completes(out)
  {
  }

  lemma LineStays(q: Parser, ch: byte)
    ensures !OnStart(q, ch).leave && !OnReqMethod(q, ch).leave
    ensures !OnSpacesBeforeUrl(q, ch).leave && !OnUrl(q, ch).leave
    ensures q.state.StatusLine? ==> !OnStatusLine(q, ch).leave
    ensures q.state.Version? ==> !OnReqVersion(q, ch).leave
  {
    hide ParseUrlChar, MethodString, NextMethod, FirstMethod;
  }

  lemma NameAndValueStay(cfg: Settings, q: Parser, ch: byte)
    ensures !OnField(q, ch).leave && !OnValueStart(q, ch).leave && !OnDiscardWs(q, ch).leave
  {
    hide FieldState;
  }

  lemma ValueStays(cfg: Settings, q: Parser, ch: byte)
    ensures !OnValue(cfg, q, ch).leave
  {
  }

  lemma FieldStartLeaves(cfg: Settings, q: Parser, ch: byte)
    requires OnFieldStart(cfg, q, ch).leave
    ensures var out := OnFieldStart(cfg, q, ch); out.fx.open == None && out.q.state.Start? && Completes(out)
  {
    hide OnHeadersAlmostDone;
    HeadersLeave(cfg, q.(state := Header(HeadersAlmostDone)), ch);
  }

  lemma HeadersDoneLeaves(q: Parser, ch: byte)
    ensures var out := OnHeadersDone(q, ch); out.leave ==> out.fx.open == None && out.q.state.Start? && Completes(out)
  {
  }

  lemma HeaderLeaves(cfg: Settings, q: Parser, ch: byte)
    requires q.state.Header? && OnHeader(cfg, q, ch).leave
    ensures var out := OnHeader(cfg, q, ch); out.fx.open == None && out.q.state.Start? && Completes(out)
  {
    hide OnHeadersAlmostDone, OnFieldStart, OnField, OnValueStart, OnDiscardWs, OnValue, OnHeadersDone;
    HeadersDoneLeaves(q, ch);
    NameAndValueStay(cfg, q, ch);
    ValueStays(cfg, q, ch);
    match q.state
    case Header(HeaderFieldStart) => FieldStartLeaves(cfg, q, ch);
    case Header(HeaderValueLws) =>
      NameAndValueStay(cfg, q.(state := Header(HeaderValueStart),
                               hstate := if q.hstate.ContentLengthNum? then ContentLengthWs else q.hstate), ch);
      FieldStartLeaves(cfg, q.(flags := FinishHeader(q), state := Header(HeaderFieldStart)), ch);
    case Header(HeaderValueDiscardLws) =>
      FieldStartLeaves(cfg, q.(flags := FinishHeader(q), state := Header(HeaderFieldStart)), ch);
    case Header(HeadersAlmostDone) => HeadersLeave(cfg, q, ch);
    case _ =>
  }

  lemma SwitchLeaves(cfg: Settings, q: Parser, ch: byte)
    requires Switch(cfg, q, ch).leave
    ensures var out := Switch(cfg, q, ch); out.fx.open == None && out.q.state.Start? && Completes(out)
  {
    hide OnStart, OnStatusLine, OnReqMethod, OnSpacesBeforeUrl, OnUrl, OnReqVersion, OnHeader;
    LineStays(q, ch);
    if q.state.Header? && OnHeader(cfg, q, ch).leave {
      HeaderLeaves(cfg, q, ch);
    }
  }

  /** A call returns early only at the end of a message. */
  lemma OnlyAtTheEnd(cfg: Settings, q: Parser, ch: byte)
    requires Step(cfg, q, ch).leave
    ensures exists k :: MessageComplete(k) in Step(cfg, q, ch).fx.notices
  {
    hide Switch;
    SwitchLeaves(cfg, if ParsingHeader(q.state) then Count(q, 1) else q, ch);
  }

  lemma LeavesUnmarked(cfg: Settings, q: Parser, mark: Mark, data: seq<byte>, p: nat)
    requires Inv(cfg, q) && p < |data| && MarkOk(q.state, mark, data, p)
    ensures var out := Step(cfg, q, data[p]);
            out.leave && out.q.errno == OK ==> Marked'(mark, out.fx, p) == None
  {
    hide Switch, Inv;
    StepSound(cfg, q, data[p]);
    if Step(cfg, q, data[p]).leave {
      SwitchLeaves(cfg, if ParsingHeader(q.state) then Count(q, 1) else q, data[p]);
    }
  }

  // ------------------------------------------------------------------ what an error leaves behind

  /** Before an error a branch has at most delivered an empty value. */
  predicate FailsPlainly(s: State, out: Outcome) {
    out.q.errno != OK ==>
      && out.fx.open == None && out.fx.notices == []
      && (out.fx.close == Keep || (out.fx.close == Empty(Value) && s == Header(HeaderValueDiscardLws)))
  }

  lemma LineFails(q: Parser, ch: byte)
    requires q.errno == OK
    ensures FailsPlainly(q.state, OnStart(q, ch)) && FailsPlainly(q.state, OnReqMethod(q, ch))
    ensures FailsPlainly(q.state, OnSpacesBeforeUrl(q, ch)) && FailsPlainly(q.state, OnUrl(q, ch))
  {
    hide ParseUrlChar, MethodString, NextMethod, FirstMethod;
  }

  lemma VersionFails(q: Parser, ch: byte)
    requires q.errno == OK
    ensures q.state.StatusLine? ==> FailsPlainly(q.state, OnStatusLine(q, ch))
    ensures q.state.Version? ==> FailsPlainly(q.state, OnReqVersion(q, ch))
  {
  }

  lemma HeadersFail(cfg: Settings, q: Parser, ch: byte)
    requires q.errno == OK
    ensures var out := OnHeadersAlmostDone(cfg, q, ch); out.q.errno != OK ==> out.fx == NOTHING
    ensures var out := OnHeadersDone(q, ch); out.q.errno != OK ==> out.fx == NOTHING
  {
  }

  lemma FieldStartFails(cfg: Settings, q: Parser, ch: byte)
    requires q.errno == OK
    ensures var out := OnFieldStart(cfg, q, ch); out.q.errno != OK ==> out.fx == NOTHING
  {
    hide OnHeadersAlmostDone;
    HeadersFail(cfg, q.(state := Header(HeadersAlmostDone)), ch);
  }

  lemma ValueFails(cfg: Settings, q: Parser, ch: byte)
    requires q.errno == OK
    ensures var out := OnValueStart(q, ch); out.q.errno != OK ==> out.fx == NOTHING
    ensures var out := OnField(q, ch); out.q.errno != OK ==> out.fx == NOTHING
    ensures q.state == Header(HeaderValue) ==>
              var out := OnValue(cfg, q, ch); out.q.errno != OK ==> out.fx == NOTHING
  {
    hide OnValueChar, FieldState;
    if q.state == Header(HeaderValue) {
      ValueCharStays(q, ch);
    }
  }

  lemma HeaderFails(cfg: Settings, q: Parser, ch: byte)
    requires q.errno == OK && q.state.Header?
    ensures FailsPlainly(q.state, OnHeader(cfg, q, ch))
  {
    hide OnHeadersAlmostDone, OnHeadersDone, OnFieldStart, OnValueStart, OnValue, OnField;
    ValueFails(cfg, q, ch);
    HeadersFail(cfg, q, ch);
    match q.state.header
    case HeaderFieldStart => FieldStartFails(cfg, q, ch);
    case HeaderValueLws =>
      ValueFails(cfg, q.(state := Header(HeaderValueStart),
                         hstate := if q.hstate.ContentLengthNum? then ContentLengthWs else q.hstate), ch);
      FieldStartFails(cfg, q.(flags := FinishHeader(q), state := Header(HeaderFieldStart)), ch);
    case HeaderValueDiscardLws =>
      FieldStartFails(cfg, q.(flags := FinishHeader(q), state := Header(HeaderFieldStart)), ch);
    case _ =>
  }

  lemma BodyFails(q: Parser, ch: byte)
    requires q.errno == OK
    ensures q.state.ChunkLine? ==> FailsPlainly(q.state, OnChunkLine(q, ch))
    ensures q.state.ChunkBody? ==> FailsPlainly(q.state, OnChunkBody(q, ch))
    ensures q.state.Content? ==> FailsPlainly(q.state, OnBody(q, ch))
  {
    hide PushHex, Unhex;
  }

  lemma StepFails(cfg: Settings, q: Parser, ch: byte)
    requires q.errno == OK
    ensures FailsPlainly(q.state, Step(cfg, q, ch))
  {
    hide OnStart, OnStatusLine, OnReqMethod, OnSpacesBeforeUrl, OnUrl, OnReqVersion, OnHeader,
         OnChunkLine, OnChunkBody, OnBody;
    var q1 := if ParsingHeader(q.state) then Count(q, 1) else q;
    LineFails(q1, ch);
    VersionFails(q1, ch);
    BodyFails(q1, ch);
    if q.state.Header? {
      HeaderFails(cfg, q1, ch);
    }
  }

  /** Callbacks of a configuration that the loop tracks. */
  lemma {:induction false} RunStaysGood(cfg: Settings, c0: Conf, data: seq<byte>)
    requires Good(cfg, c0)
    ensures Good(cfg, Run(cfg, c0, data))
    decreases |data|
  {
    hide Good, Advance;
    if data != [] {
      RunStaysGood(cfg, c0, data[..|data| - 1]);
      AdvanceGood(cfg, Run(cfg, c0, data[..|data| - 1]), data[|data| - 1]);
    }
  }

  lemma PendingAccepted(cbs: seq<Event>, mark: Mark, data: seq<byte>, p: nat)
    requires MarkInside(mark, data, p) && Accepted(WithPending(Glued(cbs), mark, data, p))
    ensures Accepted(cbs)
    ensures Monitor(Idle, cbs) == Monitor(Idle, Glued(cbs))
    ensures Monitor(Idle, WithPending(Glued(cbs), mark, data, p))
         == (if mark.Some? && mark.value.start < p
             then AfterItem(Monitor(Idle, cbs), mark.value.kind, p - mark.value.start) else Monitor(Idle, cbs))
  {
    hide Feed, FeedAll, AfterItem;
    MonitorFeedAll(Idle, [], cbs);
    if mark.Some? && mark.value.start < p {
      MonitorFeed(Idle, Glued(cbs), Data(mark.value.kind, data[mark.value.start..p]));
      WrongItem(mark.value.kind, p - mark.value.start);
    }
  }

  lemma WrongItem(k: Kind, n: nat)
    ensures AfterItem(Wrong, k, n) == Wrong
  {
  }

  lemma TracksAccepted(cfg: Settings, c0: Conf, data: seq<byte>, p: nat, q: Parser, mark: Mark, cbs: seq<Event>)
    requires Good(cfg, c0) && p <= |data| && Tracks(cfg, c0, data, p, q, mark, cbs)
    ensures Accepted(cbs)
    ensures Agrees(Monitor(Idle, WithPending(Glued(cbs), mark, data, p)), q)
    ensures Accepted(WithPending(Glued(cbs), mark, data, p))
  {
    hide Run, Agrees, StateOk, WithPending, Accepted;
    RunStaysGood(cfg, c0, data[..p]);
    PendingAccepted(cbs, mark, data, p);
  }

  /** The callbacks before an error are in order too. */
  lemma FailureAccepted(cfg: Settings, c0: Conf, data: seq<byte>, p: nat, q: Parser, mark: Mark, cbs: seq<Event>)
    requires Good(cfg, c0) && p < |data| && Tracks(cfg, c0, data, p, q, mark, cbs)
    requires Step(cfg, q, data[p]).q.errno != OK
    ensures var fx := Step(cfg, q, data[p]).fx;
            Accepted(cbs + Delivered(mark, fx.close, data, p) + fx.notices)
  {
    assert q.errno == OK && MarkOk(q.state, mark, data, p);
    hide Step, Run, Inv, WithPending, Good, Accepted, Agrees, MarkOk, ResumeMark;
    StepFails(cfg, q, data[p]);
    TracksAccepted(cfg, c0, data, p, q, mark, cbs);
    var fx := Step(cfg, q, data[p]).fx;
    if fx.close == Keep {
      assert cbs + [] + [] == cbs;
    } else {
      NothingPending(q.state, mark, data, p, cbs);
      EmptyValueAccepted(cbs, q, mark, data, p);
    }
  }

  lemma NothingPending(s: State, mark: Mark, data: seq<byte>, p: nat, cbs: seq<Event>)
    requires MarkOk(s, mark, data, p) && s == Header(HeaderValueDiscardLws) && p < |data|
    ensures mark == None && Monitor(Idle, WithPending(Glued(cbs), mark, data, p)) == Monitor(Idle, cbs)
  {
    hide FeedAll, Monitor;
    MonitorFeedAll(Idle, [], cbs);
    MonitorNone(Idle);
  }

  lemma EmptyValueAccepted(cbs: seq<Event>, q: Parser, mark: Mark, data: seq<byte>, p: nat)
    requires p < |data| && MarkOk(q.state, mark, data, p) && q.state == Header(HeaderValueDiscardLws)
    requires Agrees(Monitor(Idle, cbs), q)
    ensures Accepted(cbs + Delivered(mark, Empty(Value), data, p) + [])
  {
    var e := Data(Value, data[p..p]);
    assert cbs + Delivered(mark, Empty(Value), data, p) + [] == cbs + [e];
    MonitorSnoc(Idle, cbs, e);
  }

  // ------------------------------------------------------------------ the five variables of the source

  // The source has one mark variable for each kind of item, and its macros name the one they mean. They are
  // modelled one by one here, to show that the one variable of the methods is enough.

  /** The marks that are set, and where. */
  type Marks = map<Kind, nat>

  /** Every mark lies before the byte at p. */
  predicate Before(ms: Marks, p: nat) { forall k :: k in ms ==> ms[k] <= p }

  /** MARK: non-destructive if the mark is already set. */
  function Set(ms: Marks, k: Kind, p: nat): Marks { if k in ms then ms else ms[k := p] }

  /** CALLBACK_DATA: nothing if the mark is not set. */
  function Call(ms: Marks, k: Kind, data: seq<byte>, end: nat): seq<Event>
    requires end <= |data| && Before(ms, end)
  {
    if k in ms then [Data(k, data[ms[k]..end])] else []
  }

  function SetFor(ms: Marks, c: Closing, p: nat): Marks {
    match c
    case Keep => ms
    case Flush(k) => ms
    case Empty(k) => Set(ms, k, p)
    case Through(k) => Set(ms, k, p)
  }

  /** What a branch delivers at byte p. */
  function CallFor(ms: Marks, c: Closing, data: seq<byte>, p: nat): seq<Event>
    requires p < |data| && Before(ms, p)
  {
    var m := SetFor(ms, c, p);
    match c
    case Keep => []
    case Flush(k) => Call(m, k, data, p)
    case Empty(k) => Call(m, k, data, p)
    case Through(k) => Call(m, k, data, p + 1)
  }

  /** The marks after it: the delivered one is reset, the opened one is set. */
  function MarksAfter(ms: Marks, fx: Effects, p: nat): Marks {
    var m := if fx.close.Keep? then ms else SetFor(ms, fx.close, p) - {fx.close.kind};
    match fx.open
    case Some(k) => Set(m, k, p)
    case None => m
  }

  function AsMarks(mark: Mark): Marks {
    match mark
    case Some(p) => map[p.kind := p.start]
    case None => map[]
  }

  /** The deliveries behind the loop, in the order of the source. */
  function CallAll(ms: Marks, data: seq<byte>): seq<Event>
    requires Before(ms, |data|)
  {
    Call(ms, Field, data, |data|) + Call(ms, Value, data, |data|) + Call(ms, Url, data, |data|)
      + Call(ms, Body, data, |data|) + Call(ms, Status, data, |data|)
  }

  /** Closing meets only a mark of its own kind, and opening meets none that is left. */
  lemma NoOtherMark(cfg: Settings, q: Parser, mark: Mark, data: seq<byte>, p: nat)
    requires Inv(cfg, q) && p < |data| && MarkOk(q.state, mark, data, p)
    requires Step(cfg, q, data[p]).q.errno == OK
    ensures var fx := Step(cfg, q, data[p]).fx;
            && (fx.close.Flush? && mark.Some? ==> mark.value.kind == fx.close.kind)
            && (fx.close.Empty? || fx.close.Through? ==> mark == None)
            && (fx.open.Some? ==> fx.close.Keep? ==> mark == None)
  {
    hide Step, Inv;
    StepSound(cfg, q, data[p]);
  }

  lemma FiveAgree(mark: Mark, fx: Effects, data: seq<byte>, p: nat)
    requires p < |data| && MarkInside(mark, data, p)
    requires fx.close.Flush? && mark.Some? ==> mark.value.kind == fx.close.kind
    requires fx.close.Empty? || fx.close.Through? ==> mark == None
    requires fx.open.Some? ==> fx.close.Keep? ==> mark == None
    ensures CallFor(AsMarks(mark), fx.close, data, p) == Delivered(mark, fx.close, data, p)
    ensures MarksAfter(AsMarks(mark), fx, p) == AsMarks(Marked'(mark, fx, p))
  {
  }

  /** With five variables a branch delivers and marks what it does with the one of this model. */
  lemma OneIsEnough(cfg: Settings, q: Parser, mark: Mark, data: seq<byte>, p: nat)
    requires Inv(cfg, q) && p < |data| && MarkOk(q.state, mark, data, p)
    ensures var fx := Step(cfg, q, data[p]).fx;
            && CallFor(AsMarks(mark), fx.close, data, p) == Delivered(mark, fx.close, data, p)
            && (Step(cfg, q, data[p]).q.errno == OK ==>
                  MarksAfter(AsMarks(mark), fx, p) == AsMarks(Marked'(mark, fx, p)))
  {
    hide Step, Inv, CallFor, MarksAfter, Delivered, Marked';
    assert q.errno == OK by { InvOk(cfg, q); }
    var out := Step(cfg, q, data[p]);
    if out.q.errno == OK {
      NoOtherMark(cfg, q, mark, data, p);
    } else {
      StepFails(cfg, q, data[p]);
    }
    FiveAgree(mark, out.fx, data, p);
  }

  lemma EndIsEnough(mark: Mark, data: seq<byte>)
    requires MarkInside(mark, data, |data|)
    ensures CallAll(AsMarks(mark), data)
         == if mark.Some? then [Data(mark.value.kind, data[mark.value.start..])] else []
  {
    var ms := AsMarks(mark);
    var rest := if mark.Some? then [Data(mark.value.kind, data[mark.value.start..])] else [];
    assert mark.Some? ==> data[mark.value.start..|data|] == data[mark.value.start..];
    forall k: Kind ensures Call(ms, k, data, |data|) == if mark.Some? && mark.value.kind == k then rest else [] {
    }
  }

  /** Do what the branch for byte p has decided. */
  method Perform(cfg: Settings, ghost c0: Conf, data: seq<byte>, p: nat, ghost q: Parser, mark: Mark,
                 cbs: seq<Event>, out: Outcome)
    returns (q': Parser, mark': Mark, cbs': seq<Event>)
    requires p < |data| && Tracks(cfg, c0, data, p, q, mark, cbs)
    requires q.state != Content(BodyIdentity) && q.state != Content(BodyIdentityEof) && q.state != ChunkBody(ChunkData)
    requires out == Step(cfg, q, data[p])
    ensures q' == out.q
    ensures q'.errno == OK ==> Tracks(cfg, c0, data, p + 1, q', mark', cbs')
    ensures q'.errno != OK ==> Run(cfg, c0, data[..p + 1]).q.errno != OK
    ensures out.leave <==> LeavesAt(cfg, c0, data, p)
    ensures out.leave && q'.errno == OK ==> mark' == None
    ensures q'.errno != OK && Good(cfg, c0) ==> Accepted(cbs')
    ensures cbs' == cbs + CallFor(AsMarks(mark), out.fx.close, data, p) + out.fx.notices
    ensures q'.errno == OK ==> AsMarks(mark') == MarksAfter(AsMarks(mark), out.fx, p)
  {
    hide Switch, Run, ResumeMark, Inv, CallFor, MarksAfter, AsMarks;
    OneIsEnough(cfg, q, mark, data, p);
    StepAgrees(cfg, c0, data, p, q, mark, cbs);
    LeavesUnmarked(cfg, q, mark, data, p);
    if out.q.errno != OK && Good(cfg, c0) {
      FailureAccepted(cfg, c0, data, p, q, mark, cbs);
    }
    q' := out.q;
    cbs' := cbs + Delivered(mark, out.fx.close, data, p) + out.fx.notices;
    mark' := Marked'(mark, out.fx, p);
  }
}
