/** The reference meaning of the parser: one byte at a time, as if every call carried one byte,
    with the delivered runs of bytes glued back together. */
module HttpRun {
  import opened Common
  import opened HttpTypes
  import opened HttpStep

  // ------------------------------------------------------------------ glueing callbacks

  /** Adjacent deliveries of the same kind belong to one item. */
  function Feed(trace: seq<Event>, e: Event): seq<Event> {
    if e.Data? && |trace| > 0 && trace[|trace| - 1].Data? && trace[|trace| - 1].kind == e.kind
    then trace[..|trace| - 1] + [Data(e.kind, trace[|trace| - 1].bytes + e.bytes)]
    else trace + [e]
  }

  function FeedAll(trace: seq<Event>, events: seq<Event>): seq<Event> {
    if events == [] then trace
    else Feed(FeedAll(trace, events[..|events| - 1]), events[|events| - 1])
  }

  /** The trace as an application sees it once it has concatenated each item's pieces. */
  function Glued(callbacks: seq<Event>): seq<Event> { FeedAll([], callbacks) }

  lemma {:induction false} FeedAllConcat(trace: seq<Event>, a: seq<Event>, b: seq<Event>)
    ensures FeedAll(trace, a + b) == FeedAll(FeedAll(trace, a), b)
    decreases |b|
  {
    if b == [] {
      assert a + b == a;
    } else {
      assert (a + b)[..|a + b| - 1] == a + b[..|b| - 1];
      FeedAllConcat(trace, a, b[..|b| - 1]);
    }
  }

  lemma FeedAllSnoc(trace: seq<Event>, a: seq<Event>, e: Event)
    ensures FeedAll(trace, a + [e]) == Feed(FeedAll(trace, a), e)
  {
    assert (a + [e])[..|a + [e]| - 1] == a;
  }

  lemma FeedAllNone(t: seq<Event>)
    ensures FeedAll(t, []) == t
  {
  }

  lemma FeedOne(trace: seq<Event>, e: Event)
    ensures FeedAll(trace, [e]) == Feed(trace, e)
  {
    assert [] + [e] == [e];
    FeedAllSnoc(trace, [], e);
  }

  lemma NoticeAppends(t: seq<Event>, e: Event)
    requires !e.Data?
    ensures Feed(t, e) == t + [e]
  {
  }

  /** An item begins behind a notification. */
  lemma ItemAppends(t: seq<Event>, e: Event, item: Event)
    requires !e.Data? && item.Data?
    ensures Feed(t + [e], item) == t + [e, item]
  {
  }

  /** Where a run of bytes is cut does not matter. */
  lemma FeedSplit(trace: seq<Event>, k: Kind, a: seq<byte>, b: seq<byte>)
    ensures Feed(Feed(trace, Data(k, a)), Data(k, b)) == Feed(trace, Data(k, a + b))
  {
    var t := Feed(trace, Data(k, a));
    assert t[|t| - 1].Data? && t[|t| - 1].kind == k;
    if |trace| > 0 && trace[|trace| - 1].Data? && trace[|trace| - 1].kind == k {
      var pre := trace[|trace| - 1].bytes;
      assert (pre + a) + b == pre + (a + b);
      assert t[..|t| - 1] == trace[..|trace| - 1];
    } else {
      assert t[..|t| - 1] == trace;
    }
  }

  // ------------------------------------------------------------------ one byte

  /** The item a call continues when it starts in state s. */
  function ResumeMark(s: State): Option<Kind> {
    if s == Header(HeaderField) then Some(Field)
    else if s == Header(HeaderValue) then Some(Value)
    else if s.Target? then Some(Url)
    else if s == StatusLine(ResStatus) then Some(Status)
    else None
  }

  function ClosingEvents(s: State, c: Closing, ch: byte): seq<Event> {
    match c
    case Keep => []
    case Flush(k) => if ResumeMark(s) == Some(k) then [Data(k, [])] else []
    case Empty(k) => [Data(k, [])]
    case Through(k) => [Data(k, [ch])]
  }

  /** The byte is part of the item that is open when the call ends. */
  function OpenEvents(s: State, fx: Effects, ch: byte): seq<Event> {
    match fx.open
    case Some(k) => [Data(k, [ch])]
    case None =>
      if fx.close.Keep? && ResumeMark(s).Some? then [Data(ResumeMark(s).value, [ch])] else []
  }

  /** The callbacks of a call that carries the single byte ch. */
  function ByteEvents(s: State, out: Outcome, ch: byte): seq<Event> {
    ClosingEvents(s, out.fx.close, ch) + out.fx.notices
      + if out.q.errno == OK then OpenEvents(s, out.fx, ch) else []
  }

  // ------------------------------------------------------------------ many bytes

  datatype Conf = Conf(q: Parser, trace: seq<Event>)

  function Advance(cfg: Settings, c: Conf, ch: byte): Conf {
    if c.q.errno != OK then c
    else
      var out := Step(cfg, c.q, ch);
      Conf(out.q, FeedAll(c.trace, ByteEvents(c.q.state, out, ch)))
  }

  lemma AdvanceRegisters(cfg: Settings, c: Conf, ch: byte)
    ensures Advance(cfg, c, ch).q == if c.q.errno == OK then Step(cfg, c.q, ch).q else c.q
  {
    hide Step, FeedAll, ByteEvents;
  }

  /** The configuration after the whole input, byte by byte. */
  function Run(cfg: Settings, c: Conf, input: seq<byte>): Conf {
    if input == [] then c
    else Advance(cfg, Run(cfg, c, input[..|input| - 1]), input[|input| - 1])
  }

  lemma RunOne(cfg: Settings, c: Conf, ch: byte)
    ensures Run(cfg, c, [ch]) == Advance(cfg, c, ch)
  {
    hide Advance;
    assert [ch][..0] == [];
  }

  lemma {:induction false} RunConcat(cfg: Settings, c: Conf, a: seq<byte>, b: seq<byte>)
    ensures Run(cfg, c, a + b) == Run(cfg, Run(cfg, c, a), b)
    decreases |b|
  {
    if b == [] {
      assert a + b == a;
    } else {
      assert (a + b)[..|a + b| - 1] == a + b[..|b| - 1];
      RunConcat(cfg, c, a, b[..|b| - 1]);
    }
  }

  lemma RunPrefix(cfg: Settings, c: Conf, input: seq<byte>, p: nat)
    requires p < |input|
    ensures Run(cfg, c, input[..p + 1]) == Advance(cfg, Run(cfg, c, input[..p]), input[p])
  {
    assert input[..p + 1][..p] == input[..p];
  }

  /** An error is final. */
  lemma {:induction false} RunStuck(cfg: Settings, c: Conf, input: seq<byte>, p: nat)
    requires p <= |input| && Run(cfg, c, input[..p]).q.errno != OK
    ensures Run(cfg, c, input) == Run(cfg, c, input[..p])
    decreases |input| - p
  {
    if p < |input| {
      RunPrefix(cfg, c, input, p);
      RunStuck(cfg, c, input, p + 1);
    } else {
      assert input[..p] == input;
    }
  }

  /** What is in the trace up to an event that is no run of bytes stays there. */
  lemma FeedKeeps(t: seq<Event>, n: nat, e: Event)
    requires n <= |t| && (n > 0 ==> !t[n - 1].Data?)
    ensures |Feed(t, e)| >= n && Feed(t, e)[..n] == t[..n]
  {
  }

  lemma {:induction false} FeedAllKeeps(t: seq<Event>, n: nat, events: seq<Event>)
    requires n <= |t| && (n > 0 ==> !t[n - 1].Data?)
    ensures |FeedAll(t, events)| >= n && FeedAll(t, events)[..n] == t[..n]
    decreases |events|
  {
    hide Feed;
    if events != [] {
      FeedAllKeeps(t, n, events[..|events| - 1]);
      var u := FeedAll(t, events[..|events| - 1]);
      assert n > 0 ==> u[n - 1] == u[..n][n - 1] == t[n - 1];
      FeedKeeps(u, n, events[|events| - 1]);
    }
  }

  lemma {:induction false} RunKeeps(cfg: Settings, c: Conf, b: seq<byte>, n: nat)
    requires n <= |c.trace| && (n > 0 ==> !c.trace[n - 1].Data?)
    ensures |Run(cfg, c, b).trace| >= n && Run(cfg, c, b).trace[..n] == c.trace[..n]
    decreases |b|
  {
    hide Step, FeedAll, ByteEvents;
    if b != [] {
      var before, ch := Run(cfg, c, b[..|b| - 1]), b[|b| - 1];
      RunKeeps(cfg, c, b[..|b| - 1], n);
      FeedAllKeeps(before.trace, n, ByteEvents(before.q.state, Step(cfg, before.q, ch), ch));
    }
  }

  lemma RunNothing(cfg: Settings, c: Conf)
    ensures Run(cfg, c, []) == c
  {
  }

  lemma RunNext(cfg: Settings, c: Conf, w: seq<byte>, ch: byte)
    ensures Run(cfg, c, w + [ch]) == Advance(cfg, Run(cfg, c, w), ch)
  {
    hide Advance;
    assert (w + [ch])[..|w|] == w;
  }

  lemma FailedStays(cfg: Settings, c: Conf, ch: byte)
    requires c.q.errno != OK
    ensures Advance(cfg, c, ch) == c
  {
  }

  /** What is read without an error was read without an error up to any point. */
  lemma OkBefore(cfg: Settings, c: Conf, a: seq<byte>, b: seq<byte>)
    requires Run(cfg, c, a + b).q.errno == OK
    ensures Run(cfg, c, a).q.errno == OK && Run(cfg, c, a + b) == Run(cfg, Run(cfg, c, a), b)
  {
    hide Run;
    RunConcat(cfg, c, a, b);
    if Run(cfg, c, a).q.errno != OK {
      assert (a + b)[..|a|] == a;
      RunStuck(cfg, c, a + b, |a|);
    }
  }

  // ------------------------------------------------------------------ room, and silent bytes

  /** No error so far, and n more header bytes before the limit. */
  predicate HeaderRoom(cfg: Settings, q: Parser, n: nat) {
    q.errno == OK && q.nread + n <= cfg.maxHeaderSize < UINT32_MODULUS
  }

  /** A byte that is part of no item and causes no callback. */
  lemma QuietByte(cfg: Settings, c: Conf, ch: byte)
    requires c.q.errno == OK && ResumeMark(c.q.state) == None && Step(cfg, c.q, ch).fx == NOTHING
    ensures Advance(cfg, c, ch) == Conf(Step(cfg, c.q, ch).q, c.trace)
  {
    hide Step, FeedAll, ResumeMark;
    FeedAllNone(c.trace);
    assert ByteEvents(c.q.state, Step(cfg, c.q, ch), ch) == [];
  }
}
