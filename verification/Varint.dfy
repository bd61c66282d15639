/** Bitwise or and exclusive or on unbounded naturals, and the two facts the integer codecs rest on. */
module Bits {

  function Pow2(k: nat): (r: nat)
    ensures r > 0
  {
    if k == 0 then 1 else 2 * Pow2(k - 1)
  }

  function Or(a: nat, b: nat): nat {
    if a == 0 && b == 0 then 0
    else (if a % 2 == 1 || b % 2 == 1 then 1 else 0) + 2 * Or(a / 2, b / 2)
  }

  function Xor(a: nat, b: nat): nat {
    if a == 0 && b == 0 then 0
    else (if a % 2 == b % 2 then 0 else 1) + 2 * Xor(a / 2, b / 2)
  }

  lemma {:induction false} OrZero(b: nat)
    ensures Or(0, b) == b
  {
    if b > 0 {
      OrZero(b / 2);
    }
  }

  /** Or-ing in higher bits is adding them. */
  lemma {:induction false} OrAdds(a: nat, b: nat, k: nat)
    requires a < Pow2(k)
    ensures Or(a, b * Pow2(k)) == a + b * Pow2(k)
  {
    if k == 0 {
      OrZero(b);
    } else {
      var p: nat := b * Pow2(k - 1);
      Twice(b, Pow2(k - 1));
      OrAdds(a / 2, b, k - 1);
      OrStep(a, p);
    }
  }

  lemma Twice(b: nat, m: nat)
    ensures b * (2 * m) == 2 * (b * m)
  {
  }

  /** One bit of an or with an even number. */
  lemma OrStep(a: nat, p: nat)
    ensures Or(a, 2 * p) == a % 2 + 2 * Or(a / 2, p)
  {
    if a != 0 || p != 0 {
      assert (2 * p) % 2 == 0 && (2 * p) / 2 == p;
    }
  }

  lemma {:induction false} XorZero(a: nat)
    ensures Xor(a, 0) == a
  {
    if a > 0 {
      XorZero(a / 2);
    }
  }

  /** Exclusive or with k ones is the complement. */
  lemma {:induction false} XorOnes(a: nat, k: nat)
    requires a < Pow2(k)
    ensures Xor(a, Pow2(k) - 1) == Pow2(k) - 1 - a
  {
    if k > 0 {
      XorOnes(a / 2, k - 1);
      var ones := Pow2(k) - 1;
      assert ones == 2 * (Pow2(k - 1) - 1) + 1;
      assert ones % 2 == 1 && ones / 2 == Pow2(k - 1) - 1;
    }
  }

  lemma {:induction false} Pow2Adds(a: nat, b: nat)
    ensures Pow2(a + b) == Pow2(a) * Pow2(b)
  {
    if a > 0 {
      Pow2Adds(a - 1, b);
    }
  }

  lemma Pow2Is()
    ensures Pow2(7) == 0x80 && Pow2(32) == 0x1_0000_0000 && Pow2(64) == 0x1_0000_0000_0000_0000
  {
    assert Pow2(8) == 0x100;
    Pow2Adds(8, 8);
    Pow2Adds(16, 16);
    Pow2Adds(32, 32);
  }

  lemma {:induction false} Pow2Monotone(a: nat, b: nat)
    requires a <= b
    ensures Pow2(a) <= Pow2(b)
  {
    if a < b {
      Pow2Monotone(a, b - 1);
    }
  }
}

/** The variable-length integer format: base 128, low group first, the high bit set on every byte but
    the last; and the zigzag mapping of signed numbers onto unsigned ones. */
module Varint {
  import opened Common
  import opened FlatBytes
  import opened Bits

  /** A value and the number of bytes it took. */
  datatype Parsed = Parsed(value: nat, used: nat)

  predicate Width(bits: nat) { bits == 32 || bits == 64 }

  function Encode(v: nat): seq<byte> {
    if v < 0x80 then [v] else [v % 0x80 + 0x80] + Encode(v / 0x80)
  }

  /** The reader: at most ceil(bits / 7) bytes; the bits that do not fit the register are shifted out. */
  function Decode(bits: nat, i: nat, s: seq<byte>): Option<Parsed>
    decreases if i < bits then bits - i else 0
  {
    if i >= bits then Some(Parsed(0, 0))
    else if s == [] then None
    else
      var part := (s[0] % 0x80 * Pow2(i)) % Pow2(bits);
      if s[0] < 0x80 then Some(Parsed(part, 1))
      else match Decode(bits, i + 7, s[1..])
           case None => None
           case Some(p) => Some(Parsed(part + p.value, 1 + p.used))
  }

  lemma Pow2Step(i: nat)
    ensures Pow2(i + 7) == 0x80 * Pow2(i)
  {
    Pow2Adds(7, i);
    Pow2Is();
  }

  /** The reader on the writer's output, whatever follows it. */
  lemma {:induction false} RoundTripFrom(bits: nat, i: nat, v: nat, rest: seq<byte>)
    requires i < bits && v * Pow2(i) < Pow2(bits)
    ensures Decode(bits, i, Encode(v) + rest) == Some(Parsed(v * Pow2(i), |Encode(v)|))
    decreases v
  {
    hide Pow2;
    var w := Pow2(i);
    if v < 0x80 {
      SmallMod(v * w, Pow2(bits));
      assert (Encode(v) + rest)[0] == v;
    } else {
      var low, high := v % 0x80, v / 0x80;
      Pow2Step(i);
      Groups(low, high, v, w);
      Fits(bits, i);
      RoundTripFrom(bits, i + 7, high, rest);
      SmallMod(low * w, Pow2(bits));
      assert Encode(v) + rest == [low + 0x80] + (Encode(high) + rest);
      assert (low + 0x80) % 0x80 == low;
    }
  }

  lemma Fits(bits: nat, i: nat)
    requires Pow2(i + 7) < Pow2(bits)
    ensures i + 7 < bits
  {
    if i + 7 >= bits {
      Pow2Monotone(bits, i + 7);
    }
  }

  lemma Groups(low: nat, high: nat, v: nat, w: nat)
    requires v == high * 0x80 + low && high > 0
    ensures v * w == low * w + high * (0x80 * w) && v * w >= 0x80 * w
  {
    assert high * (0x80 * w) == (high * 0x80) * w;
    assert v * w == (high * 0x80) * w + low * w;
    assert (high - 1) * (0x80 * w) >= 0;
  }

  lemma SmallMod(a: nat, m: nat)
    requires a < m
    ensures a % m == a
  {
  }

  /** Every value of the width survives the trip, and exactly the bytes written are consumed. */
  lemma RoundTrip(bits: nat, v: nat, rest: seq<byte>)
    requires Width(bits) && v < Pow2(bits)
    ensures Decode(bits, 0, Encode(v) + rest) == Some(Parsed(v, |Encode(v)|))
  {
    assert Pow2(0) == 1;
    RoundTripFrom(bits, 0, v, rest);
  }

  lemma Quotient(n: nat, d: nat, q: nat)
    requires q * d <= n < q * d + d
    ensures n / d == q
  {
    var p, r := n / d, n % d;
    assert n == p * d + r;
    if p < q {
      MulStep(p, q, d);
    } else if q < p {
      MulStep(q, p, d);
    }
  }

  lemma Commutes(a: nat, b: nat)
    ensures a * b == b * a
  {
  }

  lemma Regroup(q: nat, w: nat, k: nat)
    ensures (q * w) * k == q * (k * w)
  {
  }

  /** q whole products k * w, s whole factors k and a rest r. */
  lemma TwoDigits(q: nat, s: nat, r: nat, k: nat, w: nat)
    requires s < w && r < k
    ensures q * (k * w) <= (q * w + s) * k + r < q * (k * w) + k * w
  {
    Distribute(q * w, s, k);
    Regroup(q, w, k);
    MulStep(s, w, k);
    ProductNotNegative(s, k);
    Commutes(w, k);
  }

  lemma DivideTwice(n: nat, k: nat, w: nat)
    requires k > 0 && w > 0
    ensures k * w > 0 && n / k / w == n / (k * w)
  {
    ProductPositive(k, w);
    Divided(n, k);
    Divided(n / k, w);
    TwoDigits(n / k / w, n / k % w, n % k, k, w);
    Quotient(n, k * w, n / k / w);
  }

  lemma ProductPositive(k: nat, w: nat)
    requires k > 0 && w > 0
    ensures k * w > 0
  {
    MulLess(1, k, w);
  }

  lemma Divided(n: nat, k: nat)
    requires k > 0
    ensures n == (n / k) * k + n % k && n % k < k
  {
  }

  /** Every byte of a varint: seven bits of the number, lowest first, and a mark on all bytes but the last. */
  lemma {:induction false} VarintByte(v: nat, i: nat)
    requires i < |Encode(v)|
    ensures Encode(v)[i] as int
         == v / Pow2(7 * i) % 0x80 + if i + 1 < |Encode(v)| then 0x80 else 0
    decreases i
  {
    hide Pow2;
    Pow2Is();
    if i > 0 {
      VarintByte(v / 0x80, i - 1);
      Pow2Adds(7, 7 * (i - 1));
      DivideTwice(v, 0x80, Pow2(7 * (i - 1)));
      assert 7 + 7 * (i - 1) == 7 * i;
    } else {
      Pow2Zero();
    }
  }

  lemma Pow2Zero()
    ensures Pow2(0) == 1
  {
  }

  /** k bytes are enough for exactly the values below 2^(7k). */
  lemma {:induction false} EncodeLength(v: nat, k: nat)
    requires k > 0
    ensures |Encode(v)| <= k <==> v < Pow2(7 * k)
    decreases v
  {
    Pow2Step(7 * (k - 1));
    Pow2Is();
    if v < 0x80 {
      Pow2Monotone(7, 7 * k);
    } else if k > 1 {
      EncodeLength(v / 0x80, k - 1);
    } else {
      assert |Encode(v / 0x80)| > 0;
    }
  }

  lemma AtMostFiveOrTen(bits: nat, v: nat)
    requires Width(bits) && v < Pow2(bits)
    ensures |Encode(v)| <= if bits == 32 then 5 else 10
  {
    Pow2Monotone(bits, if bits == 32 then 35 else 70);
    EncodeLength(v, if bits == 32 then 5 else 10);
  }

  lemma {:induction false} DecodeBound(bits: nat, i: nat, s: seq<byte>)
    requires Decode(bits, i, s).Some?
    ensures var p := Decode(bits, i, s).value;
            && p.value + Pow2(i) <= Pow2(i + 7 * p.used)
            && (i < bits ==> p.value + Pow2(i) <= Pow2(bits))
            && (i < bits ==> 0 < p.used <= |s|)
    decreases if i < bits then bits - i else 0
  {
    if i < bits {
      var p := Decode(bits, i, s).value;
      Pow2Step(i);
      PartBound(bits, i, s[0] % 0x80);
      if s[0] >= 0x80 {
        DecodeBound(bits, i + 7, s[1..]);
        assert i + 7 + 7 * (p.used - 1) == i + 7 * p.used;
      }
    }
  }

  /** A group's contribution is a multiple of its weight. */
  lemma PartBound(bits: nat, i: nat, g: nat)
    requires i < bits && g < 0x80
    ensures var part := (g * Pow2(i)) % Pow2(bits);
            && part + Pow2(i) <= 0x80 * Pow2(i) && part + Pow2(i) <= Pow2(bits)
            && part == (g % Pow2(bits - i)) * Pow2(i)
  {
    hide Pow2;
    var w, m := Pow2(i), Pow2(bits - i);
    Pow2Adds(bits - i, i);
    assert Pow2(bits) == m * w;
    ModScale(g, m, w);
    MulStep(g % m, m, w);
    MulStep(g, 0x80, w);
    MulLess(g % m, g, w);
  }

  lemma ModScale(g: nat, m: nat, w: nat)
    requires m > 0 && w > 0
    ensures (g * w) % (m * w) == (g % m) * w
  {
    var q, r := g / m, g % m;
    assert g * w == q * (m * w) + r * w by {
      assert g == q * m + r;
      assert (q * m) * w == q * (m * w);
    }
    MulStep(r, m, w);
    DivMod(g * w, m * w, q, r * w);
  }

  /** No byte sequence the reader accepts for a value is shorter than the writer's. */
  lemma Shortest(bits: nat, s: seq<byte>)
    requires Width(bits) && Decode(bits, 0, s).Some?
    ensures var p := Decode(bits, 0, s).value;
            p.value < Pow2(bits) && |Encode(p.value)| <= p.used
  {
    hide Decode, Encode, Pow2;
    var p := Decode(bits, 0, s).value;
    DecodeBound(bits, 0, s);
    EncodeLength(p.value, p.used);
  }

  /** The result of a reader that has consumed `used` bytes and gathered `acc` before the rest. */
  function After(acc: nat, used: nat, rest: Option<Parsed>): Option<Parsed> {
    match rest
    case None => None
    case Some(p) => Some(Parsed(acc + p.value, used + p.used))
  }

  /** One byte: or-ing its group into the gathered low bits adds it. */
  lemma ReadGroup(bits: nat, i: nat, acc: nat, g: nat)
    requires i < bits && acc < Pow2(i) && g < 0x80
    ensures var part := (g * Pow2(i)) % Pow2(bits);
            Or(acc, part) == acc + part && (i + 7 < bits ==> acc + part < Pow2(i + 7)) && acc + part < Pow2(bits)
  {
    hide Pow2, Or;
    PartBound(bits, i, g);
    OrAdds(acc, g % Pow2(bits - i), i);
    Pow2Step(i);
  }

  // ------------------------------------------------------------------ zigzag

  predicate Signed(bits: nat, v: int)
    requires bits > 0
  {
    0 <= v + Pow2(bits - 1) && v < Pow2(bits - 1)
  }

  /** A number as the register of the given width holds it. */
  function Wrap(bits: nat, v: int): nat { v % Pow2(bits) }

  function ToSigned(bits: nat, u: nat): int
    requires bits > 0
  {
    if u < Pow2(bits - 1) then u else u - Pow2(bits)
  }

  /** EncodeZigzag32, EncodeZigzag64: every operation wraps. */
  function EncodeZigzag(bits: nat, v: int): nat {
    if v < 0 then Wrap(bits, Wrap(bits, Wrap(bits, -v) * 2) - 1) else Wrap(bits, v * 2)
  }

  /** DecodeZigzag32, DecodeZigzag64: (v >> 1) ^ -(v & 1) */
  function DecodeZigzag(bits: nat, v: nat): int
    requires bits > 0
  {
    ToSigned(bits, Xor(v / 2, Wrap(bits, -(v % 2))))
  }

  /** Zigzag without registers: 0, -1, 1, -2, 2, ... are numbered from 0. */
  lemma ZigzagEncodes(bits: nat, v: int)
    requires bits > 0 && Signed(bits, v)
    ensures EncodeZigzag(bits, v) == if v < 0 then -2 * v - 1 else 2 * v
  {
    var m := Pow2(bits);
    if v < 0 {
      SmallMod(-v, m);
      var twice := -v * 2;
      if twice == m {
        assert twice % m == 0;
        assert Wrap(bits, -1) == m - 1 by {
          DivModNegative(m);
        }
      } else {
        SmallMod(twice, m);
        SmallMod(twice - 1, m);
      }
    } else {
      SmallMod(v * 2, m);
    }
  }

  lemma DivModNegative(m: nat)
    requires m > 0
    ensures (-1) % m == m - 1
  {
  }

  lemma ZigzagDecodes(bits: nat, u: nat)
    requires bits > 0 && u < Pow2(bits)
    ensures DecodeZigzag(bits, u) == if u % 2 == 1 then -((u + 1) / 2) else u / 2
    ensures Signed(bits, DecodeZigzag(bits, u))
  {
    var m := Pow2(bits);
    if u % 2 == 1 {
      DivModNegative(m);
      XorOnes(u / 2, bits);
    } else {
      SmallMod(0, m);
      XorZero(u / 2);
    }
  }

  lemma Pow2Doubles(bits: nat)
    requires bits > 0
    ensures Pow2(bits) == 2 * Pow2(bits - 1)
  {
  }

  /** Zigzag is a bijection between the signed and the unsigned numbers of a width, the minimum included. */
  lemma ZigzagBijection(bits: nat, v: int, u: nat)
    requires bits > 0 && Signed(bits, v) && u < Pow2(bits)
    ensures EncodeZigzag(bits, v) < Pow2(bits) && DecodeZigzag(bits, EncodeZigzag(bits, v)) == v
    ensures Signed(bits, DecodeZigzag(bits, u)) && EncodeZigzag(bits, DecodeZigzag(bits, u)) == u
  {
    hide Pow2, EncodeZigzag, DecodeZigzag;
    Pow2Doubles(bits);
    ZigzagEncodes(bits, v);
    ZigzagDecodes(bits, EncodeZigzag(bits, v));
    ZigzagDecodes(bits, u);
    ZigzagEncodes(bits, DecodeZigzag(bits, u));
  }

  /** Signed numbers survive the trip through zigzag and varint. */
  lemma SignedRoundTrip(bits: nat, v: int, rest: seq<byte>)
    requires Width(bits) && Signed(bits, v)
    ensures EncodeZigzag(bits, v) < Pow2(bits)
    ensures var p := Decode(bits, 0, Encode(EncodeZigzag(bits, v)) + rest);
            p.Some? && p.value.used == |Encode(EncodeZigzag(bits, v))| && DecodeZigzag(bits, p.value.value) == v
  {
    hide Pow2, EncodeZigzag, DecodeZigzag, Decode, Encode;
    ZigzagBijection(bits, v, 0);
    RoundTrip(bits, EncodeZigzag(bits, v), rest);
  }
}
