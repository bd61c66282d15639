/** One turn of the outer loop of http_parser_execute, whatever the state. */
module HttpExecute {
  import opened Common
  import opened HttpTypes
  import opened HttpStep
  import opened HttpRun
  import opened HttpGrammar
  import opened HttpOrder
  import opened HttpMarks
  import opened HttpFieldLoop
  import opened HttpValueLoop
  import opened HttpBodyLoop

  /** The item that a call resumes is marked at the start of the buffer. */
  function FirstMark(s: State): Mark {
    match ResumeMark(s)
    case Some(k) => Some(Pending(k, 0))
    case None => None
  }

  /** What a turn of the outer loop leaves behind. */
  ghost predicate Turned(cfg: Settings, c0: Conf, data: seq<byte>, start: nat, p: nat, q: Parser, mark: Mark,
                         cbs: seq<Event>, leave: bool)
  {
    if q.errno == OK
    then start < p <= |data| && Tracks(cfg, c0, data, p, q, mark, cbs)
         && StaysBetween(cfg, c0, data, start, p - 1) && (leave <==> LeavesAt(cfg, c0, data, p - 1))
         && (leave ==> mark == None)
    else p <= |data| && Fails(cfg, c0, data, start) && (Good(cfg, c0) ==> Accepted(cbs))
  }

  lemma HandedTurned(cfg: Settings, c0: Conf, data: seq<byte>, start: nat, p: nat, q: Parser, mark: Mark,
                     cbs: seq<Event>)
    requires Handed(cfg, c0, data, start, p, q, mark, cbs)
    ensures Turned(cfg, c0, data, start, p, q, mark, cbs, false)
  {
    hide Run, Tracks, LeavesAt, Fails;
  }

  /** s_body_identity */
  method IdentityTurn(cfg: Settings, ghost c0: Conf, data: seq<byte>, start: nat, q0: Parser, cbs: seq<Event>)
    returns (p: nat, q: Parser, mark: Mark, cbs': seq<Event>, leave: bool)
    requires start < |data| && Tracks(cfg, c0, data, start, q0, None, cbs) && q0.state == Content(BodyIdentity)
    ensures Turned(cfg, c0, data, start, p, q, mark, cbs', leave)
  {
    hide Run, Step, LeavesAt, Tracks;
    BodyUnmarked(cfg, c0, data, start, q0, None, cbs);
    if q0.contentLength <= |data| - start {
      p, q, cbs', leave := BodyEnd(cfg, c0, data, start, q0, cbs);
      mark := None;
    } else {
      p, q, mark := BodyRun(cfg, c0, data, start, q0, cbs);
      cbs', leave := cbs, false;
      HandedTurned(cfg, c0, data, start, p, q, mark, cbs);
    }
  }

  /** A state without an inner loop. */
  method SingleTurn(cfg: Settings, ghost c0: Conf, data: seq<byte>, start: nat, q0: Parser, mark: Mark, cbs: seq<Event>)
    returns (p: nat, q: Parser, mark': Mark, cbs': seq<Event>, leave: bool)
    requires start < |data| && Tracks(cfg, c0, data, start, q0, mark, cbs) && !BodyState(q0.state)
    ensures Turned(cfg, c0, data, start, p, q, mark', cbs', leave)
  {
    hide Run, Step, LeavesAt, Tracks;
    var out := Step(cfg, q0, data[start]);
    q, mark', cbs' := Perform(cfg, c0, data, start, q0, mark, cbs, out);
    p, leave := start + 1, out.leave;
    if q.errno != OK {
      FailsAt(cfg, c0, data, start, start);
    }
  }

  /** One turn of the outer loop, whatever the state. */
  method Turn(cfg: Settings, ghost c0: Conf, data: seq<byte>, start: nat, q0: Parser, mark: Mark, cbs: seq<Event>)
    returns (p: nat, q: Parser, mark': Mark, cbs': seq<Event>, leave: bool)
    requires Countable(cfg, data)
    requires start < |data| && Tracks(cfg, c0, data, start, q0, mark, cbs)
    ensures Turned(cfg, c0, data, start, p, q, mark', cbs', leave)
  {
    hide Run, Step, LeavesAt, Tracks, Handed, Turned;
    cbs', leave := cbs, false;
    if BodyState(q0.state) {
      BodyUnmarked(cfg, c0, data, start, q0, mark, cbs);
      if q0.state == Content(BodyIdentity) {
        p, q, mark', cbs', leave := IdentityTurn(cfg, c0, data, start, q0, cbs);
        return;
      }
      p, q, mark' := BodyRun(cfg, c0, data, start, q0, cbs);
    } else if q0.state == Header(HeaderField) {
      p, q, mark', cbs' := FieldRun(cfg, c0, data, start, q0, mark, cbs);
    } else if q0.state == Header(HeaderValue) {
      p, q, mark', cbs' := ValueRun(cfg, c0, data, start, q0, mark, cbs);
    } else {
      p, q, mark', cbs', leave := SingleTurn(cfg, c0, data, start, q0, mark, cbs);
      return;
    }
    HandedTurned(cfg, c0, data, start, p, q, mark', cbs');
  }
}
