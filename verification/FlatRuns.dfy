/** Runs of operations on a flat byte sequence with a cursor: what a position holds is what was last
    stored there, and the size is the farthest the cursor has been. */
module FlatRuns {
  import opened Common
  import opened FlatBytes

  datatype Op = Store(data: seq<byte>) | Fetch(n: nat) | Seek(v: nat)

  predicate InRange(f: Flat) { f.position <= f.size <= |f.memory| }

  ghost predicate FlatStep(f: Flat, op: Op, out: Outcome<seq<byte>>, g: Flat)
    requires InRange(f)
  {
    match op
    case Store(data) => Wrote(f, g, data) && out == Done([])
    case Fetch(n) =>
      if n > f.size - f.position then out == OutOfRange && g == f
      else if n == 0 && f.position == |f.memory| then out == NullNode && g == f
      else out == Done(f.memory[f.position..f.position + n]) && g == f.(position := f.position + n)
    case Seek(v) =>
      if v > |f.memory| then out == OutOfRange && g == f
      else out == Done([]) && g == f.(position := v, size := Max(f.size, v))
  }

  /** The states a run goes through. */
  ghost predicate FlatRun(trace: seq<Flat>, ops: seq<Op>, outs: seq<Outcome<seq<byte>>>)
    decreases |ops|
  {
    && |trace| == |ops| + 1 == |outs| + 1 && InRange(trace[|ops|])
    && (ops != [] ==>
          var n := |ops| - 1;
          && FlatRun(trace[..n + 1], ops[..n], outs[..n])
          && FlatStep(trace[n], ops[n], outs[n], trace[n + 1]))
  }

  lemma FlatRunSnoc(trace: seq<Flat>, ops: seq<Op>, outs: seq<Outcome<seq<byte>>>,
                    op: Op, out: Outcome<seq<byte>>, g: Flat)
    requires FlatRun(trace, ops, outs) && FlatStep(trace[|ops|], op, out, g) && InRange(g)
    ensures FlatRun(trace + [g], ops + [op], outs + [out])
  {
    var n := |ops|;
    assert (trace + [g])[..n + 1] == trace && (ops + [op])[..n] == ops && (outs + [out])[..n] == outs;
  }

  /** The byte last stored at position i, if any store of the run covered it. */
  function LastStored(trace: seq<Flat>, ops: seq<Op>, i: nat): Option<byte>
    requires |trace| == |ops| + 1
  {
    if ops == [] then None
    else
      var n := |ops| - 1;
      var at := trace[n].position;
      if ops[n].Store? && at <= i < at + |ops[n].data| then Some(ops[n].data[i - at])
      else LastStored(trace[..n + 1], ops[..n], i)
  }

  /** The memory at the end of a run is determined by the stores: each position holds the byte last
      stored there, and what no store covered is as it was. */
  lemma {:induction false} Remembered(trace: seq<Flat>, ops: seq<Op>, outs: seq<Outcome<seq<byte>>>, i: nat)
    requires FlatRun(trace, ops, outs) && i < |trace[|ops|].memory|
    ensures |trace[0].memory| <= |trace[|ops|].memory|
    ensures match LastStored(trace, ops, i)
            case Some(b) => trace[|ops|].memory[i] == b
            case None => i < |trace[0].memory| ==> trace[|ops|].memory[i] == trace[0].memory[i]
    decreases |ops|
  {
    if ops != [] {
      var n := |ops| - 1;
      if i < |trace[n].memory| {
        Remembered(trace[..n + 1], ops[..n], outs[..n], i);
      } else {
        Covers(trace[..n + 1], ops[..n], outs[..n]);
        Uncovered(trace[..n + 1], ops[..n], outs[..n], i);
      }
    }
  }

  lemma {:induction false} Covers(trace: seq<Flat>, ops: seq<Op>, outs: seq<Outcome<seq<byte>>>)
    requires FlatRun(trace, ops, outs)
    ensures |trace[0].memory| <= |trace[|ops|].memory|
    decreases |ops|
  {
    if ops != [] {
      var n := |ops| - 1;
      Covers(trace[..n + 1], ops[..n], outs[..n]);
    }
  }

  /** Nothing was stored behind the end of the memory. */
  lemma {:induction false} Uncovered(trace: seq<Flat>, ops: seq<Op>, outs: seq<Outcome<seq<byte>>>, i: nat)
    requires FlatRun(trace, ops, outs) && i >= |trace[|ops|].memory|
    ensures LastStored(trace, ops, i) == None
    decreases |ops|
  {
    if ops != [] {
      var n := |ops| - 1;
      Uncovered(trace[..n + 1], ops[..n], outs[..n], i);
    }
  }

  function Farthest(trace: seq<Flat>): nat
    requires trace != []
  {
    var n := |trace| - 1;
    if n == 0 then trace[0].size else Max(Farthest(trace[..n]), trace[n].position)
  }

  /** The size is the farthest position the cursor has reached; no operation shrinks it. */
  lemma {:induction false} SizeIsFarthest(trace: seq<Flat>, ops: seq<Op>, outs: seq<Outcome<seq<byte>>>)
    requires FlatRun(trace, ops, outs)
    ensures trace[|ops|].size == Farthest(trace)
    decreases |ops|
  {
    if ops != [] {
      var n := |ops| - 1;
      SizeIsFarthest(trace[..n + 1], ops[..n], outs[..n]);
    }
  }

  /** A successful read at the end of a run returns, byte by byte, what was last stored. */
  lemma ReadsBack(trace: seq<Flat>, ops: seq<Op>, outs: seq<Outcome<seq<byte>>>, x: nat)
    requires FlatRun(trace, ops, outs) && ops != [] && ops[|ops| - 1].Fetch? && outs[|ops| - 1].Done?
    requires x < ops[|ops| - 1].n
    ensures var n := |ops| - 1;
            var got := outs[n].value;
            var at := trace[n].position + x;
            && |got| == ops[n].n
            && match LastStored(trace[..n + 1], ops[..n], at)
               case Some(b) => got[x] == b
               case None => at < |trace[0].memory| ==> got[x] == trace[0].memory[at]
  {
    var n := |ops| - 1;
    Remembered(trace[..n + 1], ops[..n], outs[..n], trace[n].position + x);
  }
}
