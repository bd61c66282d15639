/** Body conservation: what the bytes given to on_body add up to. */
module HttpBodies {
  import opened HttpTypes
  import opened HttpGrammar

  // ------------------------------------------------------------------ totals over a trace

  /** What on_body is given, one delivery behind the other. */
  function BodyOf(events: seq<Event>): seq<byte> {
    if events == [] then []
    else
      var e := events[|events| - 1];
      BodyOf(events[..|events| - 1]) + if e.Data? && e.kind == Body then e.bytes else []
  }

  /** The sum of the chunk sizes that were announced. */
  function ChunkBytes(events: seq<Event>): nat {
    if events == [] then 0
    else
      var e := events[|events| - 1];
      ChunkBytes(events[..|events| - 1]) + if e.ChunkHeader? then e.size else 0
  }

  lemma NoBody()
    ensures BodyOf([]) == []
  {
  }

  predicate Incomplete(events: seq<Event>) {
    forall i :: 0 <= i < |events| ==> !events[i].MessageComplete?
  }

  lemma {:induction false} BodyOfConcat(a: seq<Event>, b: seq<Event>)
    ensures BodyOf(a + b) == BodyOf(a) + BodyOf(b)
    decreases |b|
  {
    if b == [] {
      assert a + b == a;
    } else {
      assert (a + b)[..|a + b| - 1] == a + b[..|b| - 1];
      BodyOfConcat(a, b[..|b| - 1]);
    }
  }

  lemma NoBodyIn(e: Event)
    requires !e.Data?
    ensures BodyOf([e]) == []
  {
  }

  lemma WrongOnce(m: Phase, events: seq<Event>)
    requires events != [] && Monitor(m, events) != Wrong
    ensures Monitor(m, events[..|events| - 1]) != Wrong
  {
  }

  lemma {:induction false} SizedCounts(n: nat, events: seq<Event>)
    requires Incomplete(events) && Monitor(Sized(n), events) != Wrong
    ensures |BodyOf(events)| <= n && Monitor(Sized(n), events) == Sized(n - |BodyOf(events)|)
  {
    if events != [] {
      WrongOnce(Sized(n), events);
      SizedCounts(n, events[..|events| - 1]);
    }
  }

  lemma {:induction false} NothingAwaited(events: seq<Event>)
    requires Incomplete(events) && Monitor(AwaitEnd, events) != Wrong
    ensures events == []
  {
    if events != [] {
      WrongOnce(AwaitEnd, events);
      NothingAwaited(events[..|events| - 1]);
    }
  }

  predicate InChunks(m: Phase) {
    m == Chunks || m.Chunk? || m == Trailer || m == TrailerEnd
    || (m.InField? && m.trailing) || (m.InValue? && m.trailing)
  }

  lemma {:induction false} ChunksCount(events: seq<Event>)
    requires Incomplete(events) && Monitor(Chunks, events) != Wrong
    ensures var m := Monitor(Chunks, events);
            InChunks(m) && |BodyOf(events)| + (if m.Chunk? then m.left else 0) == ChunkBytes(events)
  {
    if events != [] {
      WrongOnce(Chunks, events);
      ChunksCount(events[..|events| - 1]);
    }
  }

  lemma {:induction false} UntilEofStays(events: seq<Event>)
    requires Incomplete(events) && Monitor(UntilEof, events) != Wrong
    ensures Monitor(UntilEof, events) == UntilEof
  {
    if events != [] {
      WrongOnce(UntilEof, events);
      UntilEofStays(events[..|events| - 1]);
    }
  }

  /** What the monitor sees from the headers of a message to its end. */
  lemma MessagePhases(t: seq<Event>, k: nat, m: nat)
    requires Accepted(t) && k < m < |t| && t[k].HeadersComplete? && t[m].MessageComplete?
    ensures var body, after := t[k + 1..m], Monitor(BodyPhase(t[k].head), t[k + 1..m]);
            after != Wrong && After(after, t[m]) != Wrong
  {
    hide After, BodyPhase;
    var before, body := t[..k], t[k + 1..m];
    assert t[..m + 1] == t[..m] + [t[m]] && t[..m] == t[..k + 1] + body && t[..k + 1] == before + [t[k]];
    assert t == t[..m + 1] + t[m + 1..];
    AcceptedPrefix(t[..m + 1], t[m + 1..]);
    AcceptedPrefix(t[..m], [t[m]]);
    AcceptedPrefix(t[..k + 1], body);
    MonitorSnoc(Idle, t[..m], t[m]);
    MonitorSnoc(Idle, before, t[k]);
    MonitorConcat(Idle, t[..k + 1], body);
    HeadersLead(Monitor(Idle, before), t[k].head);
  }

  lemma HeadersLead(m: Phase, h: Head)
    ensures After(m, HeadersComplete(h)) == Wrong || After(m, HeadersComplete(h)) == BodyPhase(h)
  {
  }

  /** From the headers of a message to its end: the bytes given to on_body are exactly as many as were
      declared, or as its chunks announced, or none. */
  lemma MessageBody(t: seq<Event>, k: nat, m: nat)
    requires Accepted(t) && k < m < |t| && t[k].HeadersComplete? && t[m].MessageComplete?
    requires Incomplete(t[k + 1..m])
    ensures match BodyPhase(t[k].head)
            case Sized(n) => |BodyOf(t[k + 1..m])| == n
            case Chunks => |BodyOf(t[k + 1..m])| == ChunkBytes(t[k + 1..m])
            case AwaitEnd => t[k + 1..m] == []
            case _ => BodyPhase(t[k].head) == UntilEof && !t[m].keepAlive
  {
    hide BodyOf, ChunkBytes, AfterItem, Monitor;
    var body := t[k + 1..m];
    MessagePhases(t, k, m);
    match BodyPhase(t[k].head)
    case Sized(n) => SizedCounts(n, body);
    case Chunks => ChunksCount(body);
    case AwaitEnd => NothingAwaited(body);
    case UntilEof => UntilEofStays(body);
    case _ =>
  }
}
