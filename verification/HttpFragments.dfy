/** Cutting the input differently does not matter, stated over the contract of Execute. */
module HttpFragments {
  import opened HttpTypes
  import opened HttpStep
  import opened HttpRun
  import opened HttpMarks
  import opened HttpParser

  lemma LeavesLater(cfg: Settings, c0: Conf, a: seq<byte>, b: seq<byte>, i: nat)
    requires i < |b|
    ensures LeavesAt(cfg, c0, a + b, |a| + i) <==> LeavesAt(cfg, Run(cfg, c0, a), b, i)
  {
    hide Run, Step;
    assert (a + b)[..|a| + i] == a + b[..i];
    RunConcat(cfg, c0, a, b[..i]);
  }

  lemma LeavesSooner(cfg: Settings, c0: Conf, a: seq<byte>, b: seq<byte>, i: nat)
    requires i < |a|
    ensures LeavesAt(cfg, c0, a + b, i) <==> LeavesAt(cfg, c0, a, i)
  {
    hide Run, Step;
    assert (a + b)[..i] == a[..i];
  }

  /** If one call consumes a + b without an error and without leaving, then a call with a and a call with
      b consume everything too and end in the same registers with the same glued callbacks. */
  lemma TwoCalls(cfg: Settings, c0: Conf, a: seq<byte>, b: seq<byte>, q: Parser, cbs: seq<Event>,
                 n1: nat, q1: Parser, cbs1: seq<Event>, n2: nat, q2: Parser, cbs2: seq<Event>)
    requires a != [] && b != []
    requires Consumed(cfg, c0, a + b, |a + b|, q, cbs) && q.errno == OK
    requires Consumed(cfg, c0, a, n1, q1, cbs1)
    requires q1.errno == OK ==> Consumed(cfg, Conf(q1, Glued(cbs1)), b, n2, q2, cbs2)
    ensures q1.errno == OK && n1 == |a|
    ensures n2 == |b| && q2 == q && Glued(cbs2) == Glued(cbs)
  {
    hide Run, Step, Glued, LeavesAt;
    assert (a + b)[..|a + b|] == a + b;
    RunConcat(cfg, c0, a, b);
    assert (a + b)[..|a|] == a;
    if q1.errno != OK {
      FailsRun(cfg, c0, a, 0);
      RunStuck(cfg, c0, a + b, |a|);
    } else {
      if n1 < |a| {
        LeavesSooner(cfg, c0, a, b, n1 - 1);
      }
      assert a[..n1] == a;
      var c1 := Run(cfg, c0, a);
      if q2.errno == OK {
        if n2 < |b| {
          LeavesLater(cfg, c0, a, b, n2 - 1);
        }
        assert b[..n2] == b;
      } else {
        FailsRun(cfg, c1, b, 0);
      }
    }
  }

  /** Conversely, two calls that consume everything without an error, the first without leaving, do what
      one call does. */
  lemma OneCall(cfg: Settings, c0: Conf, a: seq<byte>, b: seq<byte>, n: nat, q: Parser, cbs: seq<Event>,
                q1: Parser, cbs1: seq<Event>, q2: Parser, cbs2: seq<Event>)
    requires a != [] && b != []
    requires Consumed(cfg, c0, a, |a|, q1, cbs1) && q1.errno == OK && !LeavesAt(cfg, c0, a, |a| - 1)
    requires Consumed(cfg, Conf(q1, Glued(cbs1)), b, |b|, q2, cbs2) && q2.errno == OK
    requires Consumed(cfg, c0, a + b, n, q, cbs)
    ensures n == |a + b| && q == q2 && Glued(cbs) == Glued(cbs2)
  {
    hide Run, Step, Glued, LeavesAt;
    assert a[..|a|] == a && b[..|b|] == b;
    RunConcat(cfg, c0, a, b);
    if q.errno == OK {
      if n < |a + b| {
        if n - 1 < |a| {
          LeavesSooner(cfg, c0, a, b, n - 1);
        } else {
          LeavesLater(cfg, c0, a, b, n - 1 - |a|);
        }
      }
      assert (a + b)[..n] == a + b;
    } else {
      FailsRun(cfg, c0, a + b, 0);
    }
  }
}
