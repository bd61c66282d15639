/** The integer and string codecs of the byte array. */
module ByteCodec {
  import opened Common
  import opened FlatBytes
  import opened Bits
  import opened Varint
  import opened ByteBuffer

  /** The format, group by group. */
  lemma EncodeGroup(v: nat)
    ensures if v < 0x80 then Encode(v) == [v] else Encode(v) == [v % 0x80 + 0x80] + Encode(v / 0x80)
    ensures |Encode(v)| >= 1
  {
  }

  /** The loop of writeUint32_t: the groups are collected in a buffer of five bytes. */
  method Pack32(value: nat) returns (out: seq<byte>)
    requires value < Pow2(32)
    ensures out == Encode(value)
  {
    hide Pow2, Or, Encode;
    AtMostFiveOrTen(32, value);
    var tmp := new byte[5];
    var i, v := 0, value;
    while v >= 0x80
      invariant 0 <= i && i + |Encode(v)| <= 5 && Encode(value) == tmp[..i] + Encode(v)
    {
      ContinuationByte(v % 0x80);
      EncodeGroup(v);
      ghost var done := tmp[..i];
      tmp[i] := Or(v % 0x80, 0x80);
      v := v / 0x80;
      i := i + 1;
      assert tmp[..i] == done + [tmp[i - 1]];
    }
    EncodeGroup(v);
    ghost var most := tmp[..i];
    tmp[i] := v;
    i := i + 1;
    assert tmp[..i] == most + [v];
    out := tmp[..i];
  }

  lemma ContinuationByte(g: nat)
    requires g < 0x80
    ensures Or(g, 0x80) == g + 0x80
  {
    Pow2Is();
    OrAdds(g, 1, 7);
  }

  /** The loop of writeUint64_t. As written the value is never shifted, so that a second group runs off
      the ten bytes of the buffer; the model stops there. */
  method Pack64(code: Code, value: nat) returns (out: seq<byte>, ok: bool)
    requires value < Pow2(64)
    ensures ok <==> code.Intended? || value < 0x80
    ensures ok ==> out == Encode(value)
  {
    hide Pow2, Or, Encode;
    AtMostFiveOrTen(64, value);
    var tmp := new byte[10];
    var i, v := 0, value;
    while v >= 0x80
      invariant 0 <= i <= 10
      invariant code.Intended? ==> i + |Encode(v)| <= 10 && Encode(value) == tmp[..i] + Encode(v)
      invariant code.AsWritten? ==> v == value && (v < 0x80 ==> i == 0)
      decreases v, 10 - i
    {
      EncodeGroup(v);
      if i == 10 {
        return [], false;
      }
      ContinuationByte(v % 0x80);
      ghost var done := tmp[..i];
      tmp[i] := Or(v % 0x80, 0x80);
      if code.Intended? {
        v := v / 0x80;
      }
      i := i + 1;
      assert tmp[..i] == done + [tmp[i - 1]];
    }
    EncodeGroup(v);
    ghost var most := tmp[..i];
    tmp[i] := v;
    i := i + 1;
    assert tmp[..i] == most + [v];
    out, ok := tmp[..i], true;
  }

  /** writeUint32_t */
  method WriteUint32(b: ByteArray, value: nat) returns (ok: bool)
    requires b.Valid() && value < Pow2(32)
    modifies b.Repr
    ensures ok <==> RoomEnough(b.code, old(b.capacity) - old(b.position), |Encode(value)|, b.baseSize)
    ensures old(b.Repr) <= b.Repr && fresh(b.Repr - old(b.Repr))
    ensures ok ==> b.Valid() && Wrote(old(b.View()), b.View(), Encode(value))
  {
    hide Pow2, Wrote, RoomEnough, Encode;
    var bytes := Pack32(value);
    ok := b.Write(bytes);
  }

  /** writeUint64_t */
  method WriteUint64(b: ByteArray, value: nat) returns (ok: bool)
    requires b.Valid() && value < Pow2(64)
    modifies b.Repr
    ensures ok <==> (b.code.Intended? || value < 0x80)
                    && RoomEnough(b.code, old(b.capacity) - old(b.position), |Encode(value)|, b.baseSize)
    ensures old(b.Repr) <= b.Repr && fresh(b.Repr - old(b.Repr))
    ensures ok ==> b.Valid() && Wrote(old(b.View()), b.View(), Encode(value))
    ensures ok ==> RoomMade(b.code, old(b.capacity), b.capacity, old(b.position), |Encode(value)|, b.baseSize)
  {
    hide Pow2, Wrote, RoomEnough, RoomMade, Encode;
    var bytes;
    bytes, ok := Pack64(b.code, value);
    if ok {
      ok := b.Write(bytes);
    }
  }

  /** readFuint8 */
  method ReadByte(b: ByteArray) returns (r: Outcome<byte>)
    requires b.Valid()
    modifies b`position, b`cur
    ensures b.Valid() && b.Memory() == old(b.Memory()) && |b.Memory()| == b.capacity
    ensures if old(b.position) < b.size then r == Done(b.Memory()[old(b.position)]) && b.position == old(b.position) + 1
            else r == OutOfRange && b.position == old(b.position)
  {
    hide Sized, Separate, Chained, IndexOf, b.Memory;
    var got := b.Read(1);
    r := match got case Done(s) => Done(s[0]) case _ => OutOfRange;
  }

  /** readUint32, readUint64: the same loop for two widths. */
  method ReadVarint(b: ByteArray, bits: nat) returns (r: Outcome<nat>)
    requires b.Valid() && Width(bits)
    modifies b`position, b`cur
    ensures b.Valid() && b.Memory() == old(b.Memory()) && |b.Memory()| == b.capacity
    ensures match Decode(bits, 0, b.Memory()[old(b.position)..b.size])
            case Some(p) => r == Done(p.value) && b.position == old(b.position) + p.used
            case None => r == OutOfRange && b.position == b.size
  {
    hide Pow2, Or, Decode, After, b.Memory, Sized, Separate, Chained, IndexOf;
    ghost var all := b.View().memory[b.position..b.size];
    ghost var rest := all;
    var result: nat, i := 0, 0;
    AfterNothing(Decode(bits, 0, all));
    while i < bits
      invariant 0 <= i && b.Valid() && b.Memory() == old(b.Memory()) && |b.Memory()| == b.capacity
      invariant old(b.position) <= b.position && rest == b.Memory()[b.position..b.size]
      invariant Decode(bits, 0, all) == After(result, b.position - old(b.position), Decode(bits, i, rest))
      invariant i < bits ==> result < Pow2(i)
    {
      DecodeStep(bits, i, result, b.position - old(b.position), rest);
      var got := ReadByte(b);
      if got.OutOfRange? {
        return OutOfRange;
      }
      var c := got.value;
      rest := rest[1..];
      result := Or(result, (c % 0x80 * Pow2(i)) % Pow2(bits));
      if c < 0x80 {
        return Done(result);
      }
      i := i + 7;
    }
    DecodeEnd(bits, i, result, b.position - old(b.position), rest);
    return Done(result);
  }

  /** One turn of the reading loop. */
  lemma DecodeStep(bits: nat, i: nat, acc: nat, used: nat, s: seq<byte>)
    requires i < bits && acc < Pow2(i)
    ensures s == [] ==> After(acc, used, Decode(bits, i, s)) == None
    ensures s != [] ==>
              var sum := Or(acc, (s[0] % 0x80 * Pow2(i)) % Pow2(bits));
              && (i + 7 < bits ==> sum < Pow2(i + 7))
              && After(acc, used, Decode(bits, i, s))
                 == if s[0] < 0x80 then Some(Parsed(sum, used + 1))
                    else After(sum, used + 1, Decode(bits, i + 7, s[1..]))
  {
    hide Pow2, Or;
    if s != [] {
      ReadGroup(bits, i, acc, s[0] % 0x80);
    }
  }

  lemma DecodeEnd(bits: nat, i: nat, acc: nat, used: nat, s: seq<byte>)
    requires i >= bits
    ensures After(acc, used, Decode(bits, i, s)) == Some(Parsed(acc, used))
  {
  }

  lemma AfterNothing(r: Option<Parsed>)
    ensures Pow2(0) == 1 && After(0, 0, r) == r
  {
  }

  // ------------------------------------------------------------------ strings

  /** A number as `k` bytes, highest first: the fixed-width form in the default byte order. */
  function BigEndian(k: nat, n: nat): (r: seq<byte>)
    ensures |r| == k
  {
    if k == 0 then [] else BigEndian(k - 1, n / 0x100) + [n % 0x100]
  }

  /** The length in front of a string: a fixed 64-bit number where the reader expects a varint. */
  function Header(code: Code, n: nat): seq<byte> {
    if code.Intended? then Encode(n) else BigEndian(8, n)
  }

  /** The string at the front of s, and the number of bytes it took. */
  function StringOf(s: seq<byte>): Option<(seq<byte>, nat)> {
    hide Decode, Pow2;
    match Decode(64, 0, s)
    case None => None
    case Some(p) =>
      if p.used + p.value > |s| then None else Some((s[p.used..p.used + p.value], p.used + p.value))
  }

  lemma {:induction false} BigEndianHead(k: nat, n: nat)
    requires k > 0 && n < Pow2(8 * (k - 1))
    ensures BigEndian(k, n)[0] == 0
  {
    if k > 1 {
      Pow2Adds(8, 8 * (k - 2));
      Pow2Eight();
      BigEndianHead(k - 1, n / 0x100);
    }
  }

  /** Every byte of the fixed-width form: the one at index i has k - 1 - i bytes behind it. */
  lemma {:induction false} BigEndianByte(k: nat, n: nat, i: nat)
    requires i < k
    ensures BigEndian(k, n)[i] as int == n / Pow2(8 * (k - 1 - i)) % 0x100
    decreases k
  {
    hide Pow2;
    Pow2Eight();
    if i == k - 1 {
      Pow2Zero();
    } else {
      BigEndianByte(k - 1, n / 0x100, i);
      Pow2Adds(8, 8 * (k - 2 - i));
      DivideTwice(n, 0x100, Pow2(8 * (k - 2 - i)));
    }
  }

  lemma Pow2Eight()
    ensures Pow2(8) == 0x100
  {
    Pow2Is();
  }

  /** A string written with its length is read back, whatever follows, with the repaired header and with
      no other: the written one makes the reader see an empty string in the first byte. */
  lemma StringRoundTrip(code: Code, value: seq<byte>, rest: seq<byte>)
    requires |value| < Pow2(56)
    ensures var head := Header(code, |value|);
            StringOf(head + value + rest) == Some((value, |head| + |value|)) <==> code.Intended?
  {
    hide Pow2, Decode, Encode;
    var head := Header(code, |value|);
    var s := head + value + rest;
    if code.Intended? {
      Pow2Monotone(56, 64);
      assert s == head + (value + rest);
      RoundTrip(64, |value|, value + rest);
    } else {
      BigEndianHead(8, |value|);
      ZeroByte(s);
    }
  }

  lemma ZeroByte(s: seq<byte>)
    requires s != [] && s[0] == 0
    ensures Decode(64, 0, s) == Some(Parsed(0, 1))
  {
    hide Pow2;
    ZeroGroup(Pow2(0), Pow2(64));
  }

  lemma ZeroGroup(w: nat, m: nat)
    requires m > 0
    ensures (0 * w) % m == 0
  {
  }

  lemma WroteTwice(f: Flat, g: Flat, h: Flat, a: seq<byte>, b: seq<byte>)
    requires Wrote(f, g, a) && Wrote(g, h, b)
    ensures Wrote(f, h, a + b)
  {
  }

  /** When a header of `head` bytes and then a value find room. As written each of the two has to fit, or to
      miss the room by whole nodes with the cursor on a node: behind a growth the cursor is at the end. */
  predicate StringFits(code: Code, free: nat, head: nat, value: nat, base: nat)
    requires base > 0
  {
    code.Intended? || (RoundsExactly(free, head, base)
                       && RoundsExactly(if head <= free then free - head else 0, value, base))
  }

  lemma SecondRoom(code: Code, cap: nat, after: nat, position: nat, head: nat, value: nat, base: nat)
    requires base > 0 && position <= cap && RoomEnough(code, cap - position, head, base)
    requires RoomMade(code, cap, after, position, head, base)
    ensures RoomEnough(code, after - (position + head), value, base)
        <==> StringFits(code, cap - position, head, value, base)
  {
  }

  /** writeStringVint */
  method WriteStringVint(b: ByteArray, value: seq<byte>) returns (ok: bool)
    requires b.Valid() && |value| < Pow2(64)
    modifies b.Repr
    ensures ok <==> StringFits(b.code, old(b.capacity) - old(b.position), |Header(b.code, |value|)|, |value|,
                               b.baseSize)
    ensures old(b.Repr) <= b.Repr && fresh(b.Repr - old(b.Repr))
    ensures ok ==> b.Valid() && Wrote(old(b.View()), b.View(), Header(b.code, |value|) + value)
  {
    hide Pow2, Wrote, Encode, RoundsExactly, RoomEnough, RoomMade, StringFits, b.Memory, Sized, Separate, Chained,
         IndexOf;
    ghost var head := Header(b.code, |value|);
    if b.code.Intended? {
      ok := WriteUint64(b, |value|);
    } else {
      ok := b.Write(BigEndian(8, |value|));
    }
    if ok {
      ghost var mid := b.View();
      WroteMoves(old(b.View()), mid, head);
      SecondRoom(b.code, old(b.capacity), b.capacity, old(b.position), |head|, |value|, b.baseSize);
      ok := b.Write(value);
      if ok {
        WroteTwice(old(b.View()), mid, b.View(), head, value);
      }
    } else {
      NoRoom(b.code, old(b.capacity) - old(b.position), |head|, |value|, b.baseSize);
    }
  }

  lemma WroteMoves(f: Flat, g: Flat, data: seq<byte>)
    requires Wrote(f, g, data)
    ensures g.position == f.position + |data|
  {
  }

  lemma NoRoom(code: Code, free: nat, head: nat, value: nat, base: nat)
    requires base > 0 && !RoomEnough(code, free, head, base)
    ensures !StringFits(code, free, head, value, base)
  {
  }

  /** readStringVint */
  method ReadStringVint(b: ByteArray) returns (r: Outcome<seq<byte>>)
    requires b.Valid()
    modifies b`position, b`cur
    ensures b.Valid() && b.Memory() == old(b.Memory()) && |b.Memory()| == b.capacity
    ensures match StringOf(b.Memory()[old(b.position)..b.size])
            case None => r == OutOfRange
            case Some((value, used)) =>
              b.position == old(b.position) + used
              && if value == [] && b.position == b.capacity then r == NullNode else r == Done(value)
  {
    hide Pow2, Decode, StringOf, b.Memory, Sized, Separate, Chained, IndexOf;
    ghost var from, m := b.position, b.View().memory;
    StringAt(m, from, b.size);
    var len := ReadVarint(b, 64);
    if len.Done? {
      r := b.Read(len.value);
    } else {
      r := OutOfRange;
    }
  }

  /** The string at a position of the memory, in terms of its length. */
  lemma StringAt(m: seq<byte>, from: nat, size: nat)
    requires from <= size <= |m|
    ensures StringOf(m[from..size])
         == match Decode(64, 0, m[from..size])
            case None => None
            case Some(p) =>
              if from + p.used + p.value > size then None
              else Some((m[from + p.used..from + p.used + p.value], p.used + p.value))
  {
    hide Decode, Pow2;
    var d := Decode(64, 0, m[from..size]);
    if d.Some? && from + d.value.used + d.value.value <= size {
      InnerSlice(m, from, size, d.value.used, d.value.used + d.value.value);
    }
  }

  lemma InnerSlice(m: seq<byte>, from: nat, to: nat, a: nat, b: nat)
    requires from <= to <= |m| && a <= b <= to - from
    ensures m[from..to][a..b] == m[from + a..from + b]
  {
    var x, y := m[from..to][a..b], m[from + a..from + b];
    forall i | 0 <= i < b - a ensures x[i] == y[i] {
      var j := a + i;
      assert m[from..to][j] == m[from + j];
    }
  }

  /** A string that is written, then read from where it was written, comes back, and the cursor is where
      the write left it. The one exception: reading no bytes at the very end of the capacity follows the
      null node. */
  method Echo(b: ByteArray, value: seq<byte>) returns (r: Outcome<seq<byte>>)
    requires b.Valid() && b.code.Intended? && |value| < Pow2(56)
    modifies b.Repr
    ensures b.Valid() && Wrote(old(b.View()), b.View(), Encode(|value|) + value)
    ensures r == if value == [] && b.position == b.capacity then NullNode else Done(value)
  {
    hide Pow2, Decode, Encode, StringOf, b.Memory, Sized, Separate, Chained, IndexOf;
    var start := b.position;
    Pow2Monotone(56, 64);
    var ok := WriteStringVint(b, value);
    ghost var g := b.View();
    ghost var data := Encode(|value|) + value;
    ok := b.SetPosition(start);
    assert g.memory[start..g.size] == data + g.memory[g.position..g.size];
    StringRoundTrip(Intended, value, g.memory[g.position..g.size]);
    r := ReadStringVint(b);
  }
}
