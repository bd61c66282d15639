/** A store of equally long chunks seen as one flat byte sequence, and what it means to overwrite a
    part of it. */
module FlatBytes {
  import opened Common

  type byte = x: int | 0 <= x < 0x100

  /** One flat byte sequence with a cursor: bytes at and after `size` have never been given a value. */
  datatype Flat = Flat(memory: seq<byte>, position: nat, size: nat)

  datatype Outcome<+T> = Done(value: T) | OutOfRange | NullNode

  /** What a write of `data` has done: it overwrote exactly the bytes from the cursor on. */
  ghost predicate Wrote(f: Flat, g: Flat, data: seq<byte>) {
    && g.position == f.position + |data| <= |g.memory|
    && g.size == Max(f.size, g.position)
    && |f.memory| <= |g.memory|
    && (forall i :: f.position <= i < g.position ==> g.memory[i] == data[i - f.position])
    && (forall i :: 0 <= i < |f.memory| && !(f.position <= i < g.position) ==> g.memory[i] == f.memory[i])
  }

  function Flatten(chunks: seq<seq<byte>>): seq<byte> {
    if chunks == [] then [] else Flatten(chunks[..|chunks| - 1]) + chunks[|chunks| - 1]
  }

  predicate Uniform(chunks: seq<seq<byte>>, base: nat) {
    forall i :: 0 <= i < |chunks| ==> |chunks[i]| == base
  }

  /** The memory with `data` put at `at`; everything else stays. */
  function Overwrite(memory: seq<byte>, at: nat, data: seq<byte>): (r: seq<byte>)
    requires at + |data| <= |memory|
    ensures |r| == |memory|
  {
    memory[..at] + data + memory[at + |data|..]
  }

  ghost predicate Put(before: seq<byte>, after: seq<byte>, at: nat, data: seq<byte>) {
    at + |data| <= |before| && after == Overwrite(before, at, data)
  }

  /** Where chunk k starts. */
  function Offset(k: nat, base: nat): nat { k * base }

  /** The chunk that holds position p. */
  function IndexOf(p: nat, base: nat): nat
    requires base > 0
  {
    p / base
  }

  lemma {:induction false} FlattenLength(chunks: seq<seq<byte>>, base: nat)
    requires Uniform(chunks, base)
    ensures |Flatten(chunks)| == |chunks| * base
  {
    if chunks != [] {
      var n := |chunks| - 1;
      FlattenLength(chunks[..n], base);
      assert (n + 1) * base == n * base + base;
    }
  }

  lemma {:induction false} FlattenAppend(a: seq<seq<byte>>, b: seq<seq<byte>>)
    ensures Flatten(a + b) == Flatten(a) + Flatten(b)
    decreases |b|
  {
    if b == [] {
      assert a + b == a;
    } else {
      var n := |b| - 1;
      assert (a + b)[..|a| + n] == a + b[..n];
      FlattenAppend(a, b[..n]);
    }
  }

  /** Chunk k occupies the flat range that starts at k * base. */
  lemma FlattenAt(chunks: seq<seq<byte>>, base: nat, k: nat)
    requires Uniform(chunks, base) && k < |chunks|
    ensures Flatten(chunks) == Flatten(chunks[..k]) + chunks[k] + Flatten(chunks[k + 1..])
    ensures |Flatten(chunks[..k])| == k * base
  {
    assert chunks == chunks[..k] + [chunks[k]] + chunks[k + 1..];
    FlattenAppend(chunks[..k] + [chunks[k]], chunks[k + 1..]);
    FlattenAppend(chunks[..k], [chunks[k]]);
    assert Flatten([chunks[k]]) == chunks[k];
    FlattenLength(chunks[..k], base);
  }

  /** A part of chunk k is the same part of the flat sequence. */
  lemma FlattenSlice(chunks: seq<seq<byte>>, base: nat, k: nat, from: nat, to: nat)
    requires Uniform(chunks, base) && k < |chunks| && from <= to <= base
    ensures k * base + to <= |Flatten(chunks)|
    ensures Flatten(chunks)[k * base + from..k * base + to] == chunks[k][from..to]
  {
    FlattenAt(chunks, base, k);
  }

  /** Overwriting inside chunk k overwrites the flat sequence at the matching place. */
  lemma FlattenPatch(chunks: seq<seq<byte>>, base: nat, k: nat, at: nat, data: seq<byte>)
    requires Uniform(chunks, base) && k < |chunks| && at + |data| <= base
    ensures Put(Flatten(chunks), Flatten(chunks[k := Overwrite(chunks[k], at, data)]), k * base + at, data)
  {
    var patched := chunks[k := Overwrite(chunks[k], at, data)];
    FlattenAt(chunks, base, k);
    FlattenAt(patched, base, k);
    assert patched[..k] == chunks[..k] && patched[k + 1..] == chunks[k + 1..];
    OverwriteMiddle(Flatten(chunks[..k]), chunks[k], Flatten(chunks[k + 1..]), at, data);
  }

  lemma OverwriteMiddle(pre: seq<byte>, mid: seq<byte>, post: seq<byte>, at: nat, data: seq<byte>)
    requires at + |data| <= |mid|
    ensures pre + Overwrite(mid, at, data) + post == Overwrite(pre + mid + post, |pre| + at, data)
  {
    var all := pre + mid + post;
    assert all[..|pre| + at] == pre + mid[..at];
    assert all[|pre| + at + |data|..] == mid[at + |data|..] + post;
  }

  /** Two overwrites of adjoining ranges are one. */
  lemma PutAdjoining(m: seq<byte>, n: seq<byte>, o: seq<byte>, at: nat, a: seq<byte>, b: seq<byte>)
    requires Put(m, n, at, a) && Put(n, o, at + |a|, b)
    ensures Put(m, o, at, a + b)
  {
  }

  lemma PutNothing(m: seq<byte>, at: nat)
    requires at <= |m|
    ensures Put(m, m, at, [])
  {
  }

  lemma DivMod(p: nat, base: nat, k: nat, off: nat)
    requires p == k * base + off && off < base
    ensures p / base == k && p % base == off
  {
    var q := p / base;
    if q > k {
      MulStep(k, q, base);
    } else if q < k {
      MulStep(q, k, base);
    }
  }
}
