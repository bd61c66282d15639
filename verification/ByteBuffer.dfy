/** The byte array: a linked list of equally large nodes with a cursor. Its methods follow the source
    statement by statement and are proved to act on one flat byte sequence. */
module ByteBuffer {
  import opened Common
  import opened FlatBytes
  import opened FlatRuns

  /** The capacity after room for `need` more bytes was asked for: whole nodes, and not one too many. As
      written it grows by what was missing, to the byte. */
  predicate RoomMade(code: Code, before: nat, after: nat, position: nat, need: nat, base: nat) {
    && before <= after && position + need <= after
    && (before < after ==> after < position + need + base && (code.AsWritten? ==> after == position + need))
    && (position + need <= before ==> after == before)
  }

  /** When the growth that drops the remainder gives enough room, and leaves the cursor on a node. */
  predicate RoundsExactly(free: nat, need: nat, base: nat)
    requires base > 0
  {
    need == 0 || need <= free || (free > 0 && (need - free) % base == 0)
  }

  predicate RoomEnough(code: Code, free: nat, need: nat, base: nat)
    requires base > 0
  {
    code.Intended? || RoundsExactly(free, need, base)
  }

  /** The source divides in floating point and truncates; the intended count is rounded up. */
  function NodesToAdd(code: Code, missing: nat, base: nat): nat
    requires base > 0
  {
    missing / base + if code.Intended? && missing % base != 0 then 1 else 0
  }

  lemma Rounding(code: Code, missing: nat, base: nat, count: nat, added: nat)
    requires base > 0 && count == NodesToAdd(code, missing, base) && added == count * base
    ensures code.Intended? ==> missing <= added < missing + base
    ensures code.AsWritten? ==> added <= missing && (added == missing <==> missing % base == 0)
  {
    var q, r := missing / base, missing % base;
    assert missing == q * base + r;
    assert (q + 1) * base == q * base + base;
  }

  /** How many bytes the positional read thinks there are behind `from`: an unsigned difference. */
  function Behind(size: nat, from: nat): int {
    if from <= size then size - from else UINT64_MODULUS + size - from
  }

  /** The flat position the positional read starts at: the source keeps the current node. */
  function ReadStart(code: Code, position: nat, from: nat, base: nat): nat
    requires base > 0
  {
    if code.Intended? then from else Offset(IndexOf(position, base), base) + from % base
  }

  /** The bound of the positional read: as written an unsigned difference, which a position behind the size
      passes. */
  predicate Refused(code: Code, size: nat, n: nat, from: nat) {
    n > Behind(size, from) || (code.Intended? && from > size)
  }

  /** What a positional read does. */
  datatype ReadPlan =
    | Refuse             // an exception
    | NoNode             // the list is left through a null pointer
    | Nothing            // no bytes
    | Slice(start: nat)  // the bytes from start on

  function PlanRead(code: Code, size: nat, capacity: nat, position: nat, n: nat, from: nat, base: nat): (r: ReadPlan)
    requires base > 0
    ensures r.Slice? ==> r.start + n <= capacity
  {
    var start := ReadStart(code, position, from, base);
    if Refused(code, size, n, from) then Refuse
    else if start >= capacity || start + n > capacity then NoNode
    else if n == 0 then Nothing
    else Slice(start)
  }

  /** How many bytes the positional scatter view covers: the source counts from the cursor. */
  function ViewLength(code: Code, size: nat, position: nat, from: nat, len: nat): nat
    requires position <= size
  {
    Min(len, if code.AsWritten? then size - position else if from <= size then size - from else 0)
  }

  /** A stretch of one node's memory, as handed to readv and writev. */
  datatype IoVec = IoVec(base: array<byte>, from: nat, len: nat)

  class Node {
    const ptr: array<byte>
    const size: nat
    var next: Node?

    constructor (s: nat)
      ensures size == s == ptr.Length && next == null && fresh(ptr)
    {
      size := s;
      ptr := new byte[s];
      next := null;
    }
  }

  predicate Sized(nodes: seq<Node>, base: nat) {
    forall i :: 0 <= i < |nodes| ==> nodes[i].size == nodes[i].ptr.Length == base
  }

  /** No two nodes are the same or share memory. */
  predicate Separate(nodes: seq<Node>) {
    forall i, j :: 0 <= i < j < |nodes| ==> nodes[i] != nodes[j] && nodes[i].ptr != nodes[j].ptr
  }

  /** Each node leads to the following one. */
  ghost predicate Chained(nodes: seq<Node>)
    reads nodes
  {
    && (forall i, j :: 0 <= i < j < |nodes| && j == i + 1 ==> nodes[i].next == nodes[j])
    && (nodes != [] ==> nodes[|nodes| - 1].next == null)
  }

  /** The segment lies inside one node, at flat position p. */
  predicate Holds(nodes: seq<Node>, base: nat, s: IoVec, p: nat)
    requires base > 0
  {
    var k := IndexOf(p, base);
    && k < |nodes| && s.base == nodes[k].ptr && p == Offset(k, base) + s.from
    && 0 < s.len && s.from + s.len <= base
  }

  /** The segments cover exactly the flat range [q, q + len), in order. */
  predicate Spans(nodes: seq<Node>, base: nat, segs: seq<IoVec>, q: nat, len: nat)
    requires base > 0
  {
    if segs == [] then len == 0
    else segs[0].len <= len && Holds(nodes, base, segs[0], q)
         && Spans(nodes, base, segs[1..], q + segs[0].len, len - segs[0].len)
  }

  lemma {:induction false} SpansSnoc(nodes: seq<Node>, base: nat, segs: seq<IoVec>, q: nat, len: nat, s: IoVec)
    requires base > 0 && Spans(nodes, base, segs, q, len) && Holds(nodes, base, s, q + len)
    ensures Spans(nodes, base, segs + [s], q, len + s.len)
  {
    if segs == [] {
      assert (segs + [s])[1..] == [];
    } else {
      assert (segs + [s])[1..] == segs[1..] + [s];
      SpansSnoc(nodes, base, segs[1..], q + segs[0].len, len - segs[0].len, s);
    }
  }

  /** What a gathering system call reads through the segments. */
  ghost function Gathered(segs: seq<IoVec>): seq<byte>
    requires forall i :: 0 <= i < |segs| ==> segs[i].from + segs[i].len <= segs[i].base.Length
    reads set s <- segs :: s.base
  {
    if segs == [] then [] else segs[0].base[segs[0].from..segs[0].from + segs[0].len] + Gathered(segs[1..])
  }

  /** The contents of the nodes, one chunk each. */
  ghost function Chunks(nodes: seq<Node>): (r: seq<seq<byte>>)
    reads set n <- nodes :: n.ptr
    ensures |r| == |nodes| && forall i :: 0 <= i < |nodes| ==> r[i] == nodes[i].ptr[..]
  {
    if nodes == [] then [] else Chunks(nodes[..|nodes| - 1]) + [nodes[|nodes| - 1].ptr[..]]
  }

  /** memcpy into a node. */
  method Copy(dst: array<byte>, at: nat, src: seq<byte>)
    requires at + |src| <= dst.Length
    modifies dst
    ensures dst[..] == Overwrite(old(dst[..]), at, src)
  {
    forall i | 0 <= i < |src| {
      dst[at + i] := src[i];
    }
  }

  class ByteArray {
    const code: Code
    const baseSize: nat
    const root: Node
    var position: nat
    var capacity: nat
    var size: nat
    var cur: Node?
    ghost var nodes: seq<Node>
    ghost var Repr: set<object>

    /** The list: from root, each node leads to the following one, and no two share memory. */
    ghost predicate Linked()
      reads this, Repr
    {
      && this in Repr && (forall i :: 0 <= i < |nodes| ==> nodes[i] in Repr && nodes[i].ptr in Repr)
      && baseSize > 0 && nodes != [] && nodes[0] == root
      && Sized(nodes, baseSize) && Separate(nodes) && Chained(nodes)
      && capacity == |nodes| * baseSize
    }

    ghost function NodeAt(i: nat): Node?
      reads this
    {
      if i < |nodes| then nodes[i] else null
    }

    ghost predicate Valid()
      reads this, Repr
    {
      && Linked()
      && position <= size <= capacity
      && cur == NodeAt(IndexOf(position, baseSize))
    }

    ghost function Memory(): seq<byte>
      reads this, Repr
      requires Linked()
    {
      Flatten(Chunks(nodes))
    }

    ghost function View(): (f: Flat)
      reads this, Repr
      requires Linked()
      ensures f.position == position && f.size == size && f.memory == Memory() && |f.memory| == capacity
    {
      MemoryLength();
      Flat(Memory(), position, size)
    }

    lemma MemoryLength()
      requires Linked()
      ensures |Memory()| == capacity
    {
      FlattenLength(Chunks(nodes), baseSize);
    }

    constructor (code: Code, baseSize: nat)
      requires baseSize > 0
      ensures Valid() && fresh(Repr) && this.code == code && this.baseSize == baseSize
      ensures position == size == 0 && capacity == baseSize
    {
      this.code, this.baseSize := code, baseSize;
      position, capacity, size := 0, baseSize, 0;
      var node := new Node(baseSize);
      root, cur := node, node;
      nodes := [node];
      Repr := {this, node, node.ptr};
    }

    method LastNode() returns (tmp: Node)
      requires Linked()
      ensures tmp == nodes[|nodes| - 1]
    {
      tmp := root;
      ghost var at := 0;
      while tmp.next != null
        invariant 0 <= at < |nodes| && tmp == nodes[at]
        invariant at + 1 < |nodes| ==> tmp.next == nodes[at + 1]
        decreases |nodes| - at
      {
        tmp := tmp.next;
        at := at + 1;
      }
    }

    method Append(tmp: Node) returns (node: Node)
      requires Linked() && tmp == nodes[|nodes| - 1]
      modifies this`nodes, this`capacity, this`Repr, tmp
      ensures Linked() && nodes == old(nodes) + [node]
      ensures fresh(node) && Repr == old(Repr) + {node, node.ptr} && fresh(node.ptr)
    {
      node := new Node(baseSize);
      tmp.next := node;
      nodes := nodes + [node];
      Repr := Repr + {node, node.ptr};
      capacity := capacity + baseSize;
      assert capacity == |nodes| * baseSize;
    }

    ghost predicate AtCursor()
      reads this, Repr
      requires baseSize > 0
    {
      cur == NodeAt(IndexOf(position, baseSize))
    }

    /** The growing loop: `count` nodes are linked behind the last one. */
    method AddNodes(count: nat) returns (first: Node?)
      requires Linked()
      modifies this`nodes, this`capacity, this`Repr, nodes[|nodes| - 1]
      ensures Linked() && old(nodes) <= nodes && |nodes| == |old(nodes)| + count
      ensures old(Repr) <= Repr && fresh(Repr - old(Repr))
      ensures forall k :: 0 <= k < |old(nodes)| ==> nodes[k].ptr[..] == old(nodes[k].ptr[..])
      ensures first == if count == 0 then null else nodes[|old(nodes)|]
    {
      var tmp := LastNode();
      ghost var last := tmp;
      first := null;
      var i := 0;
      while i < count
        invariant 0 <= i <= count
        invariant Linked() && |nodes| == |old(nodes)| + i && old(nodes) <= nodes && tmp == nodes[|nodes| - 1]
        invariant old(Repr) <= Repr && fresh(Repr - old(Repr)) && (tmp == last || fresh(tmp))
        invariant first == if i == 0 then null else nodes[|old(nodes)|]
        invariant forall k :: 0 <= k < |old(nodes)| ==> nodes[k].ptr[..] == old(nodes[k].ptr[..])
      {
        tmp := Append(tmp);
        if first == null {
          first := tmp;
        }
        i := i + 1;
      }
    }

    lemma MemoryGrown(before: seq<seq<byte>>)
      requires Linked() && before <= Chunks(nodes)
      ensures Flatten(before) <= Memory()
    {
      PrefixFlattens(before, Chunks(nodes));
    }

    method GrowBy(count: nat) returns (first: Node?)
      requires Linked()
      modifies this`nodes, this`capacity, this`Repr, nodes[|nodes| - 1]
      ensures Linked() && old(nodes) <= nodes && old(Repr) <= Repr && fresh(Repr - old(Repr))
      ensures old(Memory()) <= Memory() && capacity == old(capacity) + count * baseSize
      ensures first == NodeAt(|old(nodes)|)
    {
      hide Chunks;
      ghost var was := nodes;
      first := AddNodes(count);
      MemoryGrown(old(Chunks(was)));
      Distribute(|was|, count, baseSize);
    }

    method AddCapacity(size: nat)
      requires Valid()
      modifies this`nodes, this`capacity, this`Repr, this`cur, nodes[|nodes| - 1]
      ensures Linked() && old(nodes) <= nodes && old(Repr) <= Repr && fresh(Repr - old(Repr))
      ensures old(Memory()) <= Memory()
      ensures if RoomEnough(code, old(capacity) - position, size, baseSize)
              then Valid() && RoomMade(code, old(capacity), capacity, position, size, baseSize)
              else cur == null || (AtCursor() && capacity < position + size)
    {
      hide NodesToAdd, Chunks, RoomEnough, RoomMade, IndexOf, Sized, Separate;
      if size == 0 {
        NoneAdded(code, capacity, position, size, baseSize);
        return;
      }
      var oldCap := capacity - position;
      if oldCap >= size {
        NoneAdded(code, capacity, position, size, baseSize);
        return;
      }
      var count := NodesToAdd(code, size - oldCap, baseSize);
      ghost var cap := capacity;
      CursorIndex(|nodes|, baseSize, position);
      var first := GrowBy(count);
      EnoughAdded(code, cap, count * baseSize, count, baseSize, position, size);
      if code.Intended? && oldCap == 0 {
        cur := first;
      }
    }

    /** One memcpy into node k, after `done` was put at `from`. */
    method CopyIn(dst: array<byte>, at: nat, data: seq<byte>,
                  ghost k: nat, ghost start: seq<byte>, ghost from: nat, ghost done: seq<byte>)
      requires Linked() && k < |nodes| && dst == nodes[k].ptr && at + |data| <= baseSize
      requires Offset(k, baseSize) + at == from + |done| && Put(start, Memory(), from, done)
      modifies dst
      ensures Linked() && Put(start, Memory(), from, done + data)
    {
      hide Flatten, Put;
      ghost var before := Chunks(nodes);
      FlattenPatch(before, baseSize, k, at, data);
      Copy(dst, at, data);
      assert Chunks(nodes) == before[k := Overwrite(before[k], at, data)];
      PutAdjoining(start, Flatten(before), Memory(), from, done, data);
    }

    /** Where the cursor stands after n bytes that fit in node k. */
    lemma Moved(k: nat, at: nat, n: nat, q: nat)
      requires Linked() && k < |nodes| && at < baseSize && at + n <= baseSize && q == Offset(k, baseSize) + at + n
      ensures q <= capacity && IndexOf(q, baseSize) == if at + n == baseSize then k + 1 else k
      ensures at + n == baseSize ==> q == Offset(k + 1, baseSize) && (k + 1 == |nodes| <==> q == capacity)
      ensures nodes[k].next == NodeAt(k + 1)
    {
      MulLess(k + 1, |nodes|, baseSize);
      if at + n == baseSize {
        DivMod(q, baseSize, k + 1, 0);
        if k + 1 < |nodes| {
          MulStep(k + 1, |nodes|, baseSize);
        }
      } else {
        DivMod(q, baseSize, k, at + n);
      }
    }

    /** The cursor moves n bytes on, and to the following node when it leaves this one. */
    method Advance(n: nat, leaves: bool)
      requires Linked() && cur != null && cur in nodes
      modifies this`position, this`cur
      ensures position == old(position) + n && cur == if leaves then old(cur).next else old(cur)
      ensures Linked() && Memory() == old(Memory())
    {
      hide Flatten;
      ghost var chunks := Chunks(nodes);
      position := position + n;
      if leaves {
        cur := cur.next;
      }
      assert Chunks(nodes) == chunks;
    }

    /** The size follows the cursor. */
    method Raise()
      requires Linked()
      modifies this`size
      ensures size == Max(old(size), position) && Linked() && Memory() == old(Memory())
    {
      hide Flatten;
      ghost var chunks := Chunks(nodes);
      if position > size {
        size := position;
      }
      assert Chunks(nodes) == chunks;
    }

    /** The copying loop of write. It fails where the list ends before the data does. */
    method Transfer(data: seq<byte>) returns (ok: bool)
      requires Linked() && position < capacity && cur == NodeAt(IndexOf(position, baseSize)) && data != []
      modifies this`position, this`cur, set n <- nodes :: n.ptr
      ensures Linked()
      ensures ok <==> old(position) + |data| <= capacity
      ensures ok ==> position == old(position) + |data| && cur == NodeAt(IndexOf(position, baseSize))
      ensures ok ==> Put(old(Memory()), Memory(), old(position), data)
    {
      hide Put, Chunks, Flatten, Offset, IndexOf, Separate, Chained;
      MemoryLength();
      PutNothing(Memory(), position);
      Start();
      ghost var k := IndexOf(position, baseSize);
      var npos: nat := position % baseSize;
      var ncap := cur.size - npos;
      var bpos: nat, left: nat := 0, |data|;
      while left > 0
        invariant Linked() && bpos + left == |data| && position == old(position) + bpos <= capacity
        invariant left > 0 ==> 0 <= k < |nodes| && cur == nodes[k] && npos + ncap == baseSize && ncap > 0
        invariant left > 0 ==> position == Offset(k, baseSize) + npos
        invariant left == 0 ==> cur == NodeAt(IndexOf(position, baseSize))
        invariant Put(old(Memory()), Memory(), old(position), data[..bpos])
      {
        var n := if ncap >= left then left else ncap;
        Moved(k, npos, n, position + n);
        CopyIn(cur.ptr, npos, data[bpos..bpos + n], k, old(Memory()), old(position), data[..bpos]);
        assert data[..bpos] + data[bpos..bpos + n] == data[..bpos + n];
        if ncap >= left {
          Advance(left, cur.size == npos + left);
          bpos := bpos + left;
          left := 0;
        } else {
          Advance(ncap, true);
          bpos := bpos + ncap;
          left := left - ncap;
          if cur == null {
            return false;
          }
          ncap := cur.size;
          npos := 0;
          k := k + 1;
        }
      }
      assert data[..bpos] == data;
      return true;
    }

    lemma Start()
      requires Linked() && position < capacity
      ensures var k := IndexOf(position, baseSize);
              k < |nodes| && position == Offset(k, baseSize) + position % baseSize
    {
      CursorIndex(|nodes|, baseSize, position);
    }

    lemma AtEnd()
      requires Linked() && position <= capacity
      ensures cur == NodeAt(IndexOf(position, baseSize)) ==> (cur == null <==> position == capacity)
    {
      CursorIndex(|nodes|, baseSize, position);
    }

    /** The part of write that follows the growth. */
    method Place(data: seq<byte>) returns (ok: bool)
      requires Linked() && position <= size <= capacity && cur == NodeAt(IndexOf(position, baseSize)) && cur != null
      requires data != []
      modifies this`position, this`cur, this`size, set n <- nodes :: n.ptr
      ensures ok <==> old(position) + |data| <= capacity
      ensures ok ==> Valid() && position == old(position) + |data| && size == Max(old(size), position)
      ensures ok ==> Put(old(Memory()), Memory(), old(position), data)
    {
      hide Sized, Separate, Chained, Put, Memory, IndexOf;
      AtEnd();
      ok := Transfer(data);
      if ok {
        Raise();
      }
    }

    method Write(data: seq<byte>) returns (ok: bool)
      requires Valid()
      modifies Repr
      ensures ok <==> RoomEnough(code, old(capacity) - old(position), |data|, baseSize)
      ensures old(Repr) <= Repr && fresh(Repr - old(Repr))
      ensures ok ==> Valid() && Wrote(old(View()), View(), data)
      ensures ok ==> RoomMade(code, old(capacity), capacity, old(position), |data|, baseSize)
    {
      hide Sized, Separate, Chained, Put, RoomEnough, RoomMade, Memory, IndexOf, Wrote;
      if |data| == 0 {
        NoneAdded(code, capacity, position, 0, baseSize);
        MemoryLength();
        WroteNothing(View());
        return true;
      }
      AddCapacity(|data|);
      RoomIsThere(code, old(capacity), capacity, position, |data|, baseSize);
      AtEnd();
      if cur == null {
        return false;
      }
      ghost var grown := Memory();
      ok := Place(data);
      if ok {
        WroteOver(old(View()), grown, View(), data);
      }
    }

    /** Bytes of node k are bytes of the flat memory. */
    lemma Piece(k: nat, at: nat, n: nat, q: nat)
      requires Linked() && k < |nodes| && at + n <= baseSize && q == Offset(k, baseSize) + at
      ensures q + n <= |Memory()| && nodes[k].ptr[at..at + n] == Memory()[q..q + n]
    {
      hide Flatten;
      FlattenSlice(Chunks(nodes), baseSize, k, at, at + n);
    }

    /** One piece more of a slice that is being copied out. */
    lemma Longer(buf: seq<byte>, from: nat, k: nat, at: nat, n: nat)
      requires Linked() && k < |nodes| && at + n <= baseSize && from + |buf| == Offset(k, baseSize) + at
      requires from + |buf| <= |Memory()| && buf == Memory()[from..from + |buf|]
      ensures from + |buf| + n <= |Memory()|
      ensures buf + nodes[k].ptr[at..at + n] == Memory()[from..from + |buf| + n]
    {
      hide Memory;
      Piece(k, at, n, from + |buf|);
      var at' := from + |buf|;
      assert Memory()[from..at' + n] == Memory()[from..at'] + Memory()[at'..at' + n];
    }

    method Read(n: nat) returns (r: Outcome<seq<byte>>)
      requires Valid()
      modifies this`position, this`cur
      ensures Valid() && Memory() == old(Memory()) && |Memory()| == capacity
      ensures r.OutOfRange? <==> n > size - old(position)
      ensures r.NullNode? <==> n == 0 && old(position) == capacity
      ensures if r.Done? then position == old(position) + n && r.value == Memory()[old(position)..position]
              else position == old(position)
    {
      hide Sized, Separate, Chained, Memory, IndexOf, Offset;
      MemoryLength();
      AtEnd();
      if n > size - position {
        return OutOfRange;
      }
      if cur == null {
        return NullNode;
      }
      Start();
      ghost var k := IndexOf(position, baseSize);
      var npos: nat := position % baseSize;
      Width(k);
      var ncap := cur.size - npos;
      var buf: seq<byte>, left: nat := [], n;
      while left > 0
        invariant Linked() && Memory() == old(Memory()) && position <= size
        invariant position == old(position) + |buf| && |buf| + left == n && buf == Memory()[old(position)..position]
        invariant left > 0 ==> 0 <= k < |nodes| && cur == nodes[k] && npos + ncap == baseSize && ncap > 0
        invariant left > 0 ==> position == Offset(k, baseSize) + npos
        invariant cur == NodeAt(IndexOf(position, baseSize))
      {
        var m := if ncap >= left then left else ncap;
        Width(k);
        Moved(k, npos, m, position + m);
        Longer(buf, old(position), k, npos, m);
        buf := buf + cur.ptr[npos..npos + m];
        if ncap >= left {
          Advance(left, cur.size == npos + left);
          left := 0;
        } else {
          Advance(ncap, true);
          left := left - ncap;
          k := k + 1;
          Width(k);
          ncap := cur.size;
          npos := 0;
        }
      }
      return Done(buf);
    }

    lemma Width(k: nat)
      requires Linked() && k < |nodes|
      ensures nodes[k].size == nodes[k].ptr.Length == baseSize
    {
    }

    /** Following `count` links from the root. */
    method Walk(count: nat) returns (node: Node?)
      requires Linked()
      ensures node == NodeAt(count)
    {
      node := root;
      var left := count;
      ghost var k := 0;
      while left > 0
        invariant k + left == count && node == NodeAt(k)
      {
        if node == null {
          return;
        }
        assert node == nodes[k];
        Following(k);
        node := node.next;
        left := left - 1;
        k := k + 1;
      }
    }

    lemma Following(k: nat)
      requires Linked() && k < |nodes|
      ensures nodes[k].next == NodeAt(k + 1)
    {
    }

    /** read(buf, size, position) */
    method ReadAt(n: nat, from: nat) returns (r: Outcome<seq<byte>>)
      requires Valid() && n < UINT64_MODULUS && from < UINT64_MODULUS
      ensures |Memory()| == capacity
      ensures match PlanRead(code, size, capacity, position, n, from, baseSize)
              case Refuse => r == OutOfRange
              case NoNode => r == NullNode
              case Nothing => r == Done([])
              case Slice(start) => r == Done(Memory()[start..start + n])
    {
      hide Sized, Separate, Chained, Memory;
      MemoryLength();
      AtEnd();
      if Refused(code, size, n, from) {
        return OutOfRange;
      }
      var npos: nat := from % baseSize;
      ghost var k := IndexOf(if code.Intended? then from else position, baseSize);
      ghost var start := ReadStart(code, position, from, baseSize);
      DivMod(start, baseSize, k, npos);
      StartsInside(start);
      var node := cur;
      if code.Intended? {
        node := Walk(from / baseSize);
      }
      if node == null {
        return NullNode;
      }
      r := CopyOut(node, npos, n, k);
    }

    lemma StartsInside(p: nat)
      requires Linked()
      ensures NodeAt(IndexOf(p, baseSize)) == null <==> p >= capacity
    {
      if p < capacity {
        CursorIndex(|nodes|, baseSize, p);
      } else {
        DivMod(p, baseSize, p / baseSize, p % baseSize);
        if p / baseSize < |nodes| {
          MulStep(p / baseSize, |nodes|, baseSize);
        }
      }
    }

    /** The loop of the positional read. */
    method CopyOut(node: Node, at: nat, n: nat, ghost from: nat) returns (r: Outcome<seq<byte>>)
      requires Linked() && from < |nodes| && node == nodes[from] && at < baseSize
      ensures var start := Offset(from, baseSize) + at;
              && |Memory()| == capacity && r.OutOfRange? == false
              && (r.Done? <==> start + n <= capacity)
              && (r.Done? ==> r.value == Memory()[start..start + n])
    {
      hide Sized, Separate, Chained, Memory, IndexOf, Offset;
      MemoryLength();
      ghost var k, start := from, Offset(from, baseSize) + at;
      Width(k);
      Moved(k, at, 0, start);
      var cur, npos: nat, left: nat := node, at, n;
      var ncap := cur.size - npos;
      var buf: seq<byte> := [];
      while left > 0
        invariant |buf| + left == n && start + |buf| <= capacity && buf == Memory()[start..start + |buf|]
        invariant left > 0 ==> 0 <= k < |nodes| && cur == nodes[k] && npos + ncap == baseSize && ncap > 0
        invariant left > 0 ==> start + |buf| == Offset(k, baseSize) + npos
      {
        var m := if ncap >= left then left else ncap;
        Width(k);
        Moved(k, npos, m, start + |buf| + m);
        Longer(buf, start, k, npos, m);
        buf := buf + cur.ptr[npos..npos + m];
        if ncap >= left {
          left := 0;
        } else {
          left := left - ncap;
          if cur.next == null {
            return NullNode;
          }
          cur := cur.next;
          k := k + 1;
          Width(k);
          ncap := cur.size;
          npos := 0;
        }
      }
      return Done(buf);
    }

    method SetPosition(v: nat) returns (ok: bool)
      requires Valid()
      modifies this`position, this`size, this`cur
      ensures ok <==> v <= capacity
      ensures Valid() && Memory() == old(Memory())
      ensures position == (if ok then v else old(position)) && size == (if ok then Max(old(size), v) else old(size))
    {
      hide Sized, Separate, Chained, Memory, IndexOf, Offset;
      if v > capacity {
        return false;
      }
      var node, left: nat := root, v;
      ghost var k := 0;
      Width(0);
      StartOfAll();
      while left > node.size
        invariant 0 <= k < |nodes| && node == nodes[k] && node.size == baseSize && left + Offset(k, baseSize) == v
        modifies {}
      {
        Moved(k, 0, baseSize, Offset(k, baseSize) + baseSize);
        left := left - node.size;
        node := node.next;
        k := k + 1;
        Width(k);
      }
      if left < baseSize {
        Moved(k, left, 0, v);
      } else {
        Moved(k, 0, baseSize, v);
      }
      Jump(v, if left == node.size then node.next else node);
      return true;
    }

    method Jump(v: nat, node: Node?)
      requires Linked()
      modifies this`position, this`size, this`cur
      ensures position == v && size == Max(old(size), v) && cur == node && Linked() && Memory() == old(Memory())
    {
      hide Flatten;
      ghost var chunks := Chunks(nodes);
      position := v;
      if position > size {
        size := position;
      }
      cur := node;
      assert Chunks(nodes) == chunks;
    }

    lemma StartOfAll()
      ensures Offset(0, baseSize) == 0
    {
    }

    method Clear()
      requires Valid()
      modifies Repr
      ensures Valid() && fresh(Repr - old(Repr)) && position == size == 0 && capacity == baseSize
      ensures Memory() == old(Memory())[..baseSize]
    {
      hide Flatten, Chunks, IndexOf, Chained, Sized;
      Width(0);
      ghost var first := nodes[0].ptr[..];
      FirstNode();
      position, size, capacity := 0, 0, baseSize;
      cur := root;
      root.next := null;
      nodes := [root];
      Repr := {this, root, root.ptr};
      OneNode(root);
      assert Chunks(nodes) == [first];
      OneChunk(first);
    }

    lemma OneNode(n: Node)
      requires baseSize > 0 && n.next == null && n.size == n.ptr.Length == baseSize
      ensures Sized([n], baseSize) && Separate([n]) && Chained([n]) && IndexOf(0, baseSize) == 0
    {
    }

    lemma FirstNode()
      requires Linked()
      ensures baseSize <= |Memory()| && Memory()[..baseSize] == nodes[0].ptr[..]
    {
      Piece(0, 0, baseSize, 0);
      assert nodes[0].ptr[0..baseSize] == nodes[0].ptr[..];
    }

    /** The loop that cuts a flat range into one segment per node; it fails past the last node. */
    method Segments(node: Node, at: nat, len: nat, ghost from: nat) returns (segs: seq<IoVec>, ok: bool)
      requires Linked() && from < |nodes| && node == nodes[from] && at < baseSize && len > 0
      ensures ok <==> Offset(from, baseSize) + at + len <= capacity
      ensures ok ==> Spans(nodes, baseSize, segs, Offset(from, baseSize) + at, len)
    {
      hide Sized, Separate, Chained, IndexOf, Offset, Spans;
      ghost var k, start := from, Offset(from, baseSize) + at;
      Width(k);
      Moved(k, at, 0, start);
      var cur, npos: nat, left: nat := node, at, len;
      var ncap: nat := cur.size - npos;
      segs := [];
      SpansNone(nodes, baseSize, start);
      while left > 0
        invariant left <= len && start + (len - left) <= capacity
        invariant Spans(nodes, baseSize, segs, start, len - left)
        invariant left > 0 ==> 0 <= k < |nodes| && cur == nodes[k] && npos + ncap == baseSize && ncap > 0
        invariant left > 0 ==> start + (len - left) == Offset(k, baseSize) + npos
      {
        var m := if ncap >= left then left else ncap;
        ghost var p := start + (len - left);
        Moved(k, npos, 0, p);
        Moved(k, npos, m, p + m);
        var s := IoVec(cur.ptr, npos, m);
        assert Holds(nodes, baseSize, s, p);
        SpansSnoc(nodes, baseSize, segs, start, len - left, s);
        segs := segs + [s];
        if ncap >= left {
          left := 0;
        } else {
          left := left - ncap;
          if cur.next == null {
            return segs, false;
          }
          cur := cur.next;
          k := k + 1;
          Width(k);
          ncap := cur.size;
          npos := 0;
        }
      }
      ok := true;
    }

    /** The segments hold exactly the flat slice. */
    lemma {:induction false} GatheredSlice(segs: seq<IoVec>, q: nat, len: nat)
      requires Linked() && Spans(nodes, baseSize, segs, q, len) && q + len <= capacity
      ensures forall i :: 0 <= i < |segs| ==> segs[i].from + segs[i].len <= segs[i].base.Length
      ensures |Memory()| == capacity && Gathered(segs) == Memory()[q..q + len]
      decreases |segs|
    {
      hide Memory, Chained, Separate;
      MemoryLength();
      if segs != [] {
        var s := segs[0];
        GatheredSlice(segs[1..], q + s.len, len - s.len);
        Piece(IndexOf(q, baseSize), s.from, s.len, q);
        assert Memory()[q..q + len] == Memory()[q..q + s.len] + Memory()[q + s.len..q + len];
        assert forall i :: 0 < i < |segs| ==> segs[i] == segs[1..][i - 1];
      }
    }

    method GetReadBuffers(len: nat) returns (segs: seq<IoVec>, n: nat)
      requires Valid()
      ensures n == Min(len, size - position)
      ensures Spans(nodes, baseSize, segs, position, n)
    {
      hide Sized, Separate, Chained, IndexOf, Offset, Spans;
      SpansNone(nodes, baseSize, position);
      n := if len > size - position then size - position else len;
      if n == 0 {
        return [], 0;
      }
      AtEnd();
      var ok;
      segs, ok := SegmentsHere(n);
    }

    /** getReadBuffers(buffers, len, position) */
    method GetReadBuffersAt(len: nat, from: nat) returns (r: Outcome<seq<IoVec>>)
      requires Valid()
      ensures var n := ViewLength(code, size, position, from, len);
              && (r.Done? <==> n == 0 || from + n <= capacity)
              && (r.Done? ==> Spans(nodes, baseSize, r.value, from, n))
      ensures !r.OutOfRange?
    {
      hide Sized, Separate, Chained, IndexOf, Offset, Spans;
      SpansNone(nodes, baseSize, from);
      var n := ViewLength(code, size, position, from, len);
      if n == 0 {
        return Done([]);
      }
      StartsInside(from);
      IndexIs(from);
      var node := Walk(from / baseSize);
      if node == null {
        return NullNode;
      }
      var segs, ok := Segments(node, from % baseSize, n, IndexOf(from, baseSize));
      r := if ok then Done(segs) else NullNode;
    }

    lemma IndexIs(p: nat)
      requires baseSize > 0
      ensures IndexOf(p, baseSize) == p / baseSize && p == Offset(p / baseSize, baseSize) + p % baseSize
    {
    }

    method GetWriteBuffers(len: nat) returns (segs: seq<IoVec>, ok: bool)
      requires Valid()
      modifies this`nodes, this`capacity, this`Repr, this`cur, nodes[|nodes| - 1]
      ensures ok <==> RoomEnough(code, old(capacity) - position, len, baseSize)
      ensures old(Repr) <= Repr && fresh(Repr - old(Repr)) && old(nodes) <= nodes
      ensures ok ==> Valid() && Spans(nodes, baseSize, segs, position, len) && old(Memory()) <= Memory()
      ensures ok ==> RoomMade(code, old(capacity), capacity, position, len, baseSize)
    {
      hide Sized, Separate, Chained, IndexOf, Offset, Spans, RoomEnough, Memory;
      segs := [];
      if len == 0 {
        SpansNone(nodes, baseSize, position);
        NoneAdded(code, capacity, position, 0, baseSize);
        return segs, true;
      }
      AddCapacity(len);
      AtEnd();
      if cur == null {
        return segs, false;
      }
      segs, ok := SegmentsHere(len);
    }

    method SegmentsHere(len: nat) returns (segs: seq<IoVec>, ok: bool)
      requires Linked() && position < capacity && cur == NodeAt(IndexOf(position, baseSize)) && len > 0
      ensures ok <==> position + len <= capacity
      ensures ok ==> Spans(nodes, baseSize, segs, position, len)
    {
      hide Sized, Separate, Chained, IndexOf, Offset, Spans;
      AtEnd();
      Start();
      segs, ok := Segments(cur, position % baseSize, len, IndexOf(position, baseSize));
    }

    /** A scattering system call: the first |data| bytes of the segments are written. */
    method Fill(segs: seq<IoVec>, data: seq<byte>, ghost q: nat, ghost len: nat)
      requires Linked() && Spans(nodes, baseSize, segs, q, len) && |data| <= len && q + len <= capacity
      modifies set n <- nodes :: n.ptr
      ensures Linked() && Put(old(Memory()), Memory(), q, data)
    {
      hide Sized, Separate, Chained, Put, Memory, Offset;
      MemoryLength();
      PutNothing(Memory(), q);
      var rest, bpos: nat := segs, 0;
      while bpos < |data|
        invariant Linked() && bpos <= |data| && Spans(nodes, baseSize, rest, q + bpos, len - bpos)
        invariant Put(old(Memory()), Memory(), q, data[..bpos])
        decreases |data| - bpos
      {
        var s := rest[0];
        var m: nat := if |data| - bpos <= s.len then |data| - bpos else s.len;
        CopyIn(s.base, s.from, data[bpos..bpos + m], IndexOf(q + bpos, baseSize), old(Memory()), q, data[..bpos]);
        assert data[..bpos] + data[bpos..bpos + m] == data[..bpos + m];
        bpos := bpos + m;
        rest := rest[1..];
        if m < s.len {
          break;
        }
      }
      assert data[..bpos] == data;
    }

    /** SocketStream::read: segments for `len` bytes are filled by the kernel with |data| of them, and
        the cursor is moved behind these. It is a write of the data. */
    method Receive(len: nat, data: seq<byte>) returns (ok: bool)
      requires Valid() && |data| <= len
      modifies Repr
      ensures ok <==> RoomEnough(code, old(capacity) - old(position), len, baseSize)
      ensures old(Repr) <= Repr && fresh(Repr - old(Repr))
      ensures ok ==> Valid() && Wrote(old(View()), View(), data)
      ensures ok ==> RoomMade(code, old(capacity), capacity, old(position), len, baseSize)
    {
      hide Sized, Separate, Chained, Put, RoomEnough, Memory, IndexOf, Wrote, Spans;
      var segs;
      segs, ok := GetWriteBuffers(len);
      if !ok {
        return;
      }
      ghost var grown := Memory();
      Fill(segs, data, position, len);
      ok := SetPosition(position + |data|);
      WroteOver(old(View()), grown, View(), data);
    }

    /** toString: the readable bytes, with no effect on the cursor. */
    method ToString() returns (r: Outcome<seq<byte>>)
      requires Valid() && capacity < UINT64_MODULUS
      ensures |Memory()| == capacity && r == Done(Memory()[position..size])
    {
      hide Sized, Separate, Chained, Memory, IndexOf, Offset;
      if size == position {
        MemoryLength();
        assert Memory()[position..size] == [];
        return Done([]);
      }
      SameStart();
      r := ReadAt(size - position, position);
    }

    lemma SameStart()
      requires baseSize > 0
      ensures ReadStart(code, position, position, baseSize) == position
    {
    }

    /** One operation on the node list is one operation on the flat sequence. */
    method Perform(op: Op) returns (out: Outcome<seq<byte>>)
      requires Valid() && code.Intended?
      modifies Repr
      ensures Valid() && old(Repr) <= Repr && fresh(Repr - old(Repr))
      ensures FlatStep(old(View()), op, out, View())
    {
      hide Sized, Separate, Chained, Memory, IndexOf, Wrote;
      MemoryLength();
      match op {
        case Store(data) =>
          var ok := Write(data);
          out := Done([]);
        case Fetch(n) =>
          out := Read(n);
        case Seek(v) =>
          var ok := SetPosition(v);
          out := if ok then Done([]) else OutOfRange;
      }
    }

    /** Every run on the node list is a run on one flat sequence. */
    method PerformAll(ops: seq<Op>) returns (outs: seq<Outcome<seq<byte>>>, ghost trace: seq<Flat>)
      requires Valid() && code.Intended?
      modifies Repr
      ensures Valid() && FlatRun(trace, ops, outs)
      ensures trace[0] == old(View()) && trace[|ops|] == View()
    {
      hide Sized, Separate, Chained, Memory, IndexOf, FlatStep;
      outs, trace := [], [View()];
      assert ops[..0] == [] && FlatRun(trace, [], []);
      while |outs| < |ops|
        invariant Valid() && old(Repr) <= Repr && fresh(Repr - old(Repr))
        invariant |outs| <= |ops| && FlatRun(trace, ops[..|outs|], outs)
        invariant trace[0] == old(View()) && trace[|outs|] == View()
      {
        ghost var before := trace;
        var op := ops[|outs|];
        var out := Perform(op);
        trace := trace + [View()];
        FlatRunSnoc(before, ops[..|outs|], outs, op, out, View());
        assert ops[..|outs| + 1] == ops[..|outs|] + [op];
        outs := outs + [out];
      }
      assert ops[..|outs|] == ops;
    }
  }

  lemma OneChunk(c: seq<byte>)
    ensures Flatten([c]) == c
  {
  }

  lemma SpansNone(nodes: seq<Node>, base: nat, q: nat)
    requires base > 0
    ensures Spans(nodes, base, [], q, 0)
  {
  }

  lemma WroteNothing(f: Flat)
    requires f.position <= f.size <= |f.memory|
    ensures Wrote(f, f, [])
  {
  }

  lemma WroteOver(f: Flat, grown: seq<byte>, g: Flat, data: seq<byte>)
    requires f.memory <= grown && Put(grown, g.memory, f.position, data)
    requires g.position == f.position + |data| && g.size == Max(f.size, g.position)
    ensures Wrote(f, g, data)
  {
  }

  lemma RoomIsThere(code: Code, before: nat, after: nat, position: nat, need: nat, base: nat)
    ensures RoomMade(code, before, after, position, need, base) ==> position + need <= after
  {
  }

  lemma NoneAdded(code: Code, cap: nat, position: nat, need: nat, base: nat)
    requires base > 0 && position + need <= cap
    ensures RoomEnough(code, cap - position, need, base) && RoomMade(code, cap, cap, position, need, base)
  {
  }

  lemma EnoughAdded(code: Code, cap: nat, added: nat, count: nat, base: nat, position: nat, need: nat)
    requires base > 0 && position <= cap < position + need
    requires count == NodesToAdd(code, position + need - cap, base) && added == count * base
    ensures position < cap && RoomEnough(code, cap - position, need, base)
        ==> RoomMade(code, cap, cap + added, position, need, base)
    ensures position < cap && !RoomEnough(code, cap - position, need, base) ==> cap + added < position + need
    ensures position == cap ==> (code.Intended? <==> RoomEnough(code, cap - position, need, base))
    ensures code.Intended? ==> count > 0 && RoomMade(code, cap, cap + added, position, need, base)
  {
    Rounding(code, position + need - cap, base, count, added);
    hide NodesToAdd;
  }

  lemma PrefixFlattens(a: seq<seq<byte>>, b: seq<seq<byte>>)
    requires a <= b
    ensures Flatten(a) <= Flatten(b)
  {
    FlattenAppend(a, b[|a|..]);
    assert b == a + b[|a|..];
  }

  lemma CursorIndex(n: nat, base: nat, position: nat)
    requires base > 0 && position <= n * base
    ensures IndexOf(position, base) <= n
    ensures IndexOf(position, base) == n <==> position == n * base
  {
    if position < n * base {
      DivMod(position, base, position / base, position % base);
      if position / base >= n {
        MulLess(n, position / base, base);
      }
    } else {
      DivMod(position, base, n, 0);
    }
  }

  // ------------------------------------------------------------------ where the source differs

  /** A first write of 4097 bytes into a fresh array of 4096-byte nodes: the missing byte is rounded down
      to no node at all. */
  lemma FlooredGrowthFails()
    ensures !RoomEnough(AsWritten, 4096, 4097, 4096) && RoomEnough(Intended, 4096, 4097, 4096)
  {
  }

  /** The positional read as written starts at the asked position exactly when that lies in the node the
      cursor is in. */
  lemma ReadStartRight(position: nat, from: nat, base: nat)
    requires base > 0
    ensures ReadStart(AsWritten, position, from, base) == from <==> IndexOf(from, base) == IndexOf(position, base)
  {
    var k, q := IndexOf(position, base), ReadStart(AsWritten, position, from, base);
    DivMod(q, base, k, from % base);
  }

  /** The positional read as written does what is intended exactly when the request is too long even for the
      written bound, or the position is not behind the size and lies in the node the cursor is in. Without a
      byte to read the node does not matter, as long as there is one. */
  lemma ReadAtRight(nodes: nat, base: nat, size: nat, position: nat, n: nat, from: nat)
    requires base > 0 && position <= size <= nodes * base
    ensures var cap := nodes * base;
            PlanRead(AsWritten, size, cap, position, n, from, base)
            == PlanRead(Intended, size, cap, position, n, from, base)
            <==> || n > Behind(size, from)
                 || (from <= size && IndexOf(from, base) == IndexOf(position, base))
                 || (from <= size && n == 0 && from < cap && position < cap)
  {
    hide IndexOf;
    ReadStartRight(position, from, base);
    StartBeforeEnd(nodes, base, position, from);
    CursorIndex(nodes, base, position);
    if from <= size {
      CursorIndex(nodes, base, from);
    }
  }

  /** The written read starts in the cursor's node, or behind the last one. */
  lemma StartBeforeEnd(nodes: nat, base: nat, position: nat, from: nat)
    requires base > 0 && position <= nodes * base
    ensures ReadStart(AsWritten, position, from, base) < nodes * base <==> position < nodes * base
  {
    CursorIndex(nodes, base, position);
    var k := IndexOf(position, base);
    if position < nodes * base {
      MulStep(k, nodes, base);
    }
  }

  /** The positional view as written has the right length exactly when it starts at the cursor or the
      request is short; from behind the size, when nothing is asked for or nothing is readable. */
  lemma ViewLengthRight(size: nat, position: nat, from: nat, len: nat)
    requires position <= size
    ensures ViewLength(AsWritten, size, position, from, len) == ViewLength(Intended, size, position, from, len)
        <==> if from <= size then position == from || (len <= size - position && len <= size - from)
             else len == 0 || position == size
  {
  }

  /** Two nodes of 4096 bytes and the cursor at the beginning of the second: a positional read from 0 starts
      at 4096. Ten bytes in one node and the cursor at 0: a positional read of five bytes from 20 is not refused.
      Ten bytes and the cursor at 4: a positional view from 0 misses four of them, and with the cursor at 0 a
      view from 4 covers four that are not there, and one from 20 five. */
  lemma PositionalWitnesses()
    ensures ReadStart(AsWritten, 4096, 0, 4096) == 4096 && ReadStart(Intended, 4096, 0, 4096) == 0
    ensures PlanRead(AsWritten, 10, 4096, 0, 5, 20, 4096) == Slice(20)
    ensures PlanRead(Intended, 10, 4096, 0, 5, 20, 4096) == Refuse
    ensures ViewLength(AsWritten, 10, 4, 0, 10) == 6 && ViewLength(Intended, 10, 4, 0, 10) == 10
    ensures ViewLength(AsWritten, 10, 0, 4, 10) == 10 && ViewLength(Intended, 10, 0, 4, 10) == 6
    ensures ViewLength(AsWritten, 10, 0, 20, 5) == 5 && ViewLength(Intended, 10, 0, 20, 5) == 0
  {
    DivMod(4096, 4096, 1, 0);
  }
}
