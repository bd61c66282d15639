/** The five mark variables of http_parser_execute over a whole call: no two of them are ever set together. */
module HttpFiveMarks {
  import opened Common
  import opened HttpTypes
  import opened HttpStep
  import opened HttpRun
  import opened HttpInvariant
  import opened HttpMarks
  import opened HttpExecute

  /** The five marks of a call that starts in c0, after the first p bytes. */
  function MarksAt(cfg: Settings, c0: Conf, data: seq<byte>, p: nat): Marks
    requires p <= |data|
  {
    if p == 0 then AsMarks(FirstMark(c0.q.state))
    else
      var c := Run(cfg, c0, data[..p - 1]);
      MarksAfter(MarksAt(cfg, c0, data, p - 1), Step(cfg, c.q, data[p - 1]).fx, p - 1)
  }

  /** The states in which part of a body can be marked. */
  predicate MayHoldBody(s: State) {
    s == Content(BodyIdentity) || s == Content(BodyIdentityEof)
    || s == ChunkBody(ChunkData) || s == ChunkBody(ChunkDataAlmostDone)
  }

  /** Which marks can be set in a state. */
  predicate MarksFit(s: State, ms: Marks) {
    match ResumeMark(s)
    case Some(k) => ms.Keys == {k}
    case None => if MayHoldBody(s) then ms.Keys <= {Body} else ms == map[]
  }

  /** A byte of a body stays in it, or ends it together with its mark. */
  predicate BodyGoesOn(s: State, out: Outcome) {
    MayHoldBody(s) && s != ChunkBody(ChunkDataAlmostDone) ==>
      && out.fx.open == (if out.fx.close.Keep? then Some(Body) else None)
      && (out.fx.close.Keep? ==> MayHoldBody(out.q.state))
      && (!out.fx.close.Keep? ==> out.fx.close.kind == Body)
  }

  lemma BodyByte(cfg: Settings, q: Parser, ch: byte)
    requires Inv(cfg, q) && Step(cfg, q, ch).q.errno == OK
    ensures BodyGoesOn(q.state, Step(cfg, q, ch))
  {
  }

  lemma KeysFollow(ms: Marks, fx: Effects, p: nat)
    ensures MarksAfter(ms, fx, p).Keys
         == (if fx.close.Keep? then ms.Keys else ms.Keys - {fx.close.kind})
            + (if fx.open.Some? then {fx.open.value} else {})
  {
  }

  lemma MarksFitNext(s: State, out: Outcome, ms: Marks, p: nat)
    requires MarksFit(s, ms) && MarksFollow(s, out) && BodyGoesOn(s, out)
    ensures MarksFit(out.q.state, MarksAfter(ms, out.fx, p))
  {
    hide MarksAfter;
    KeysFollow(ms, out.fx, p);
    var m := MarksAfter(ms, out.fx, p);
    assert m.Keys == {} ==> m == map[];
  }

  /** After every byte of every call, the marks that are set are the one of the state's item, or that of the
      body, or none: never two. */
  lemma {:induction false} AtMostOne(cfg: Settings, c0: Conf, data: seq<byte>, p: nat)
    requires Inv(cfg, c0.q) && p <= |data| && Run(cfg, c0, data[..p]).q.errno == OK
    ensures Inv(cfg, Run(cfg, c0, data[..p]).q)
    ensures MarksFit(Run(cfg, c0, data[..p]).q.state, MarksAt(cfg, c0, data, p))
    ensures |MarksAt(cfg, c0, data, p)| <= 1
    decreases p
  {
    hide Step, Inv, Run, MarksFit, MarksAfter, MarksFollow;
    assert data[..0] == [];
    if p == 0 {
      RunNothing(cfg, c0);
      FirstFits(c0.q.state);
    } else {
      RunPrefix(cfg, c0, data, p - 1);
      var c := Run(cfg, c0, data[..p - 1]);
      if c.q.errno == OK {
        AtMostOne(cfg, c0, data, p - 1);
        StepSound(cfg, c.q, data[p - 1]);
        BodyByte(cfg, c.q, data[p - 1]);
        MarksFitNext(c.q.state, Step(cfg, c.q, data[p - 1]), MarksAt(cfg, c0, data, p - 1), p - 1);
      }
    }
    AtMostOneKey(Run(cfg, c0, data[..p]).q.state, MarksAt(cfg, c0, data, p));
  }

  lemma FirstFits(s: State)
    ensures MarksFit(s, AsMarks(FirstMark(s)))
  {
  }

  lemma AtMostOneKey(s: State, ms: Marks)
    requires MarksFit(s, ms)
    ensures |ms| <= 1
  {
    assert |ms| == |ms.Keys|;
    if ms.Keys <= {Body} {
      SubsetSize(ms.Keys, Body);
    }
  }

  lemma SubsetSize(ks: set<Kind>, k: Kind)
    requires ks <= {k}
    ensures |ks| <= 1
  {
    if k in ks {
      assert ks == {k};
    } else {
      assert ks == {};
    }
  }
}
