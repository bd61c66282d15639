/** The order and the amounts in which callbacks may come, independently of how the parser works: a
    monitor that reads one connection's callbacks. It counts body bytes against the announced sizes. */
module HttpGrammar {
  import opened HttpTypes
  import opened HttpRun

  /** Where a connection's callbacks stand. response tells the two kinds of messages apart. */
  datatype Phase =
    | Idle                                     // between messages
    | Begun                                    // on_message_begin
    | StartLine(response: bool)                // on_url or on_status
    | InField(response: bool, trailing: bool)
    | InValue(response: bool, trailing: bool)
    | AwaitEnd                                 // no body: only on_message_complete may follow
    | Sized(left: nat)                         // a body with left bytes to come
    | Chunks                                   // between chunks
    | Chunk(left: nat)                         // inside a chunk
    | Trailer                                  // after the last chunk's header
    | TrailerEnd
    | UntilEof                                 // a body that ends with the connection
    | Closed                                   // after a message that is the last one
    | Wrong

  /** Section 4.4 of RFC 2616, in the order in which the parser applies it. */
  function BodyPhase(h: Head): Phase {
    if h.tunnel || h.skip then AwaitEnd
    else if h.chunked then Chunks
    else match h.declared
      case Some(n) => if n == 0 then AwaitEnd else Sized(n)
      case None =>
        if !h.response || h.status / 100 == 1 || h.status == 204 || h.status == 304 then AwaitEnd else UntilEof
  }

  function AfterItem(m: Phase, k: Kind, n: nat): Phase {
    match k
    case Url => if m == Begun || m == StartLine(false) then StartLine(false) else Wrong
    case Status => if m == Begun || m == StartLine(true) then StartLine(true) else Wrong
    case Field =>
      (match m
       case StartLine(r) => InField(r, false)
       case Trailer => InField(false, true)
       case InValue(r, t) => InField(r, t)
       case InField(r, t) => m
       case _ => Wrong)
    case Value =>
      (match m
       case InField(r, t) => InValue(r, t)
       case InValue(r, t) => m
       case _ => Wrong)
    case Body =>
      (match m
       case Sized(left) => if n <= left then Sized(left - n) else Wrong
       case Chunk(left) => if n <= left then Chunk(left - n) else Wrong
       case UntilEof => m
       case _ => Wrong)
  }

  function After(m: Phase, e: Event): Phase {
    match e
    case Data(k, bytes) => AfterItem(m, k, |bytes|)
    case MessageBegin => if m == Idle then Begun else Wrong
    case HeadersComplete(h) =>
      if m == StartLine(h.response) || m == InValue(h.response, false) then BodyPhase(h) else Wrong
    case ChunkHeader(size) =>
      if m == Chunks then (if size == 0 then Trailer else Chunk(size)) else Wrong
    case ChunkComplete =>
      if m == Chunk(0) then Chunks
      else if m.Trailer? || (m.InValue? && m.trailing) then TrailerEnd
      else Wrong
    case MessageComplete(keepAlive) =>
      if m == AwaitEnd || m == Sized(0) || m == TrailerEnd then (if keepAlive then Idle else Closed)
      else if m == UntilEof && !keepAlive then Closed
      else Wrong
  }

  function Monitor(m: Phase, events: seq<Event>): Phase {
    if events == [] then m else After(Monitor(m, events[..|events| - 1]), events[|events| - 1])
  }

  /** The callbacks of a connection so far are a beginning of well-formed messages. */
  predicate Accepted(callbacks: seq<Event>) { Monitor(Idle, callbacks) != Wrong }

  // ------------------------------------------------------------------ the monitor and glueing

  lemma {:induction false} MonitorConcat(m: Phase, a: seq<Event>, b: seq<Event>)
    ensures Monitor(m, a + b) == Monitor(Monitor(m, a), b)
    decreases |b|
  {
    if b == [] {
      assert a + b == a;
    } else {
      assert (a + b)[..|a + b| - 1] == a + b[..|b| - 1];
      MonitorConcat(m, a, b[..|b| - 1]);
    }
  }

  lemma MonitorSnoc(m: Phase, a: seq<Event>, e: Event)
    ensures Monitor(m, a + [e]) == After(Monitor(m, a), e)
  {
    assert (a + [e])[..|a + [e]| - 1] == a;
  }

  lemma {:induction false} WrongStays(events: seq<Event>)
    ensures Monitor(Wrong, events) == Wrong
    decreases |events|
  {
    if events != [] {
      WrongStays(events[..|events| - 1]);
    }
  }

  /** Whatever has been accepted was accepted all the way. */
  lemma AcceptedPrefix(a: seq<Event>, b: seq<Event>)
    requires Accepted(a + b)
    ensures Accepted(a)
  {
    MonitorConcat(Idle, a, b);
    WrongStays(b);
  }

  lemma ItemSplit(m: Phase, k: Kind, a: nat, b: nat)
    ensures AfterItem(AfterItem(m, k, a), k, b) == AfterItem(m, k, a + b)
  {
  }

  /** Glueing does not change the verdict, so neither does the cutting of the input. */
  lemma MonitorFeed(m: Phase, trace: seq<Event>, e: Event)
    ensures Monitor(m, Feed(trace, e)) == After(Monitor(m, trace), e)
  {
    hide AfterItem, Monitor;
    if e.Data? && |trace| > 0 && trace[|trace| - 1].Data? && trace[|trace| - 1].kind == e.kind {
      var init, last := trace[..|trace| - 1], trace[|trace| - 1];
      MonitorSnoc(m, init, Data(e.kind, last.bytes + e.bytes));
      assert trace == init + [last];
      MonitorSnoc(m, init, last);
      ItemSplit(Monitor(m, init), e.kind, |last.bytes|, |e.bytes|);
    } else {
      MonitorSnoc(m, trace, e);
    }
  }

  lemma {:induction false} MonitorFeedAll(m: Phase, trace: seq<Event>, events: seq<Event>)
    ensures Monitor(m, FeedAll(trace, events)) == Monitor(Monitor(m, trace), events)
    decreases |events|
  {
    if events != [] {
      MonitorFeedAll(m, trace, events[..|events| - 1]);
      MonitorFeed(m, FeedAll(trace, events[..|events| - 1]), events[|events| - 1]);
    }
  }
}
