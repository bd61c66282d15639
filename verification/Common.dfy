/** What the models of several components share. */
module Common {

  datatype Option<+T> = None | Some(value: T)

  /** The text a model follows: the source as it stands, or with its slips repaired. */
  datatype Code = AsWritten | Intended

  /** 64-bit registers. */
  const UINT64_MODULUS: nat := 0x1_0000_0000_0000_0000

  function Min(a: nat, b: nat): nat { if a < b then a else b }

  function Max(a: nat, b: nat): nat { if a < b then b else a }

  // ------------------------------------------------------------------ products

  lemma Distribute(a: int, b: int, w: int)
    ensures (a + b) * w == a * w + b * w
  {
  }

  lemma {:induction false} ProductNotNegative(a: nat, w: nat)
    ensures a * w >= 0
  {
    if a > 0 {
      ProductNotNegative(a - 1, w);
      Distribute(a - 1, 1, w);
    }
  }

  lemma MulLess(a: nat, b: nat, w: nat)
    requires a <= b
    ensures a * w <= b * w
  {
    Distribute(a, b - a, w);
    ProductNotNegative(b - a, w);
  }

  lemma MulStep(a: nat, b: nat, w: nat)
    requires a < b
    ensures a * w + w <= b * w
  {
    Distribute(a, 1, w);
    MulLess(a + 1, b, w);
  }

  // ------------------------------------------------------------------ sequences

  /** The length of the longest front all of whose elements are good. */
  function Front<T>(s: seq<T>, good: T -> bool): (n: nat)
    ensures n <= |s| && (forall i :: 0 <= i < n ==> good(s[i])) && (n < |s| ==> !good(s[n]))
  {
    if s == [] || !good(s[0]) then 0 else 1 + Front(s[1..], good)
  }

  lemma FrontPositive<T>(s: seq<T>, good: T -> bool)
    requires s != [] && good(s[0])
    ensures Front(s, good) > 0
  {
  }

  lemma CutAt<T>(b: seq<T>, r: seq<T>, n: nat)
    requires n <= |r|
    ensures r == r[..n] + r[n..] && b + r == (b + r[..n]) + r[n..]
  {
  }

  lemma CutHead<T>(b: seq<T>, r: seq<T>)
    requires r != []
    ensures r == [r[0]] + r[1..] && b + r == b + ([r[0]] + r[1..])
  {
  }

  lemma Associates<T>(a: seq<T>, b: seq<T>, c: seq<T>)
    ensures a + (b + c) == (a + b) + c
  {
  }
}
