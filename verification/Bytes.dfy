/** Bytes, and the fixed-width integers that Node's `Buffer` reads and writes. */
module Bytes {

  type Byte = b: int | 0 <= b < 256

  function Power2(w: nat): (p: nat)
    ensures p > 0
  {
    if w == 0 then 1 else 2 * Power2(w - 1)
  }

  /** Exclusive or of the lowest `w` bits. */
  function XorBits(a: nat, b: nat, w: nat): (r: nat)
    ensures r < Power2(w)
  {
    if w == 0 then 0 else (a + b) % 2 + 2 * XorBits(a / 2, b / 2, w - 1)
  }

  function Xor(a: Byte, b: Byte): Byte
  {
    assert Power2(8) == 256;
    XorBits(a, b, 8)
  }

  lemma ParityTwice(low: nat, high: nat, m: nat)
    requires low < 2
    ensures (low + 2 * high) / 2 == high && (low + 2 * high + m) % 2 == (low + m) % 2
  {
    assert low + 2 * high + m == (low + m) + 2 * high;
  }

  lemma LowBitTwice(a: nat, m: nat)
    ensures ((a + m) % 2 + m) % 2 == a % 2
  {
  }

  lemma LowBitFirst(low: nat, high: nat, m: nat, w: nat)
    requires low < 2 && w > 0
    ensures XorBits(low + 2 * high, m, w) == (low + m) % 2 + 2 * XorBits(high, m / 2, w - 1)
  {
    ParityTwice(low, high, m);
  }

  lemma {:induction false} XorBitsTwice(a: nat, m: nat, w: nat)
    requires a < Power2(w)
    ensures XorBits(XorBits(a, m, w), m, w) == a
  {
    if w > 0 {
      LowBitFirst((a + m) % 2, XorBits(a / 2, m / 2, w - 1), m, w);
      XorBitsTwice(a / 2, m / 2, w - 1);
      LowBitTwice(a, m);
    }
  }

  predicate Bit(n: nat, k: nat) { n / Power2(k) % 2 == 1 }

  lemma HigherBits(low: nat, high: nat, k: nat)
    requires low < 2
    ensures Bit(low + 2 * high, k) == if k == 0 then low == 1 else Bit(high, k - 1)
  {
    if k > 0 { HalfThenShift(low, high, Power2(k - 1)); }
  }

  lemma HalfThenShift(low: nat, high: nat, p: nat)
    requires low < 2 && p > 0
    ensures (low + 2 * high) / (2 * p) == high / p
  {
    var q, r := high / p, high % p;
    assert high == p * q + r;
    assert low + 2 * high == (2 * p) * q + (low + 2 * r);
    DivOf(low + 2 * high, 2 * p, q, low + 2 * r);
  }

  lemma DivOf(n: nat, d: nat, q: nat, r: nat)
    requires d > 0 && r < d && n == d * q + r
    ensures n / d == q
  {
    assert n == d * (n / d) + n % d;
    SameMultiple(d, q, n / d, r, n % d);
  }

  lemma SameMultiple(d: nat, a: nat, b: nat, r: nat, r': nat)
    requires r < d && r' < d && d * a + r == d * b + r'
    ensures a == b
  {
    if a < b { OneMore(d, a, b); }
    if b < a { OneMore(d, b, a); }
  }

  lemma {:induction false} OneMore(d: nat, a: nat, b: nat)
    requires a < b
    ensures d * a + d <= d * b
  {
    Distribute(d, b - 1);
    if a < b - 1 { OneMore(d, a, b - 1); }
  }

  lemma Distribute(d: nat, a: nat)
    ensures d * (a + 1) == d * a + d
  {
  }

  /** Bit by bit the exclusive or. */
  lemma {:induction false} XorBitByBit(a: nat, b: nat, w: nat, k: nat)
    requires k < w
    ensures Bit(XorBits(a, b, w), k) <==> Bit(a, k) != Bit(b, k)
  {
    HigherBits((a + b) % 2, XorBits(a / 2, b / 2, w - 1), k);
    HigherBits(a % 2, a / 2, k);
    HigherBits(b % 2, b / 2, k);
    if k > 0 { XorBitByBit(a / 2, b / 2, w - 1, k - 1); }
  }

  lemma XorIsExclusive(a: Byte, b: Byte, k: nat)
    requires k < 8
    ensures Bit(Xor(a, b), k) <==> Bit(a, k) != Bit(b, k)
  {
    assert Power2(8) == 256;
    XorBitByBit(a, b, 8, k);
  }

  lemma XorTwice(a: Byte, m: Byte)
    ensures Xor(Xor(a, m), m) == a
  {
    assert Power2(8) == 256;
    XorBitsTwice(a, m, 8);
  }

  function U16BE(b: seq<Byte>, at: nat): (n: nat)
    requires at + 2 <= |b|
    ensures n < 0x1_0000
  {
    256 * (b[at] as int) + b[at + 1]
  }

  function U16LE(b: seq<Byte>, at: nat): (n: nat)
    requires at + 2 <= |b|
    ensures n < 0x1_0000
  {
    b[at] + 256 * (b[at + 1] as int)
  }

  function U32LE(b: seq<Byte>, at: nat): (n: nat)
    requires at + 4 <= |b|
    ensures n < 0x1_0000_0000
  {
    U16LE(b, at) + 0x1_0000 * U16LE(b, at + 2)
  }

  function Put16BE(n: nat): (b: seq<Byte>)
    requires n < 0x1_0000
    ensures |b| == 2 && U16BE(b, 0) == n
  {
    [n / 256, n % 256]
  }

  function Put16LE(n: nat): (b: seq<Byte>)
    requires n < 0x1_0000
    ensures |b| == 2 && U16LE(b, 0) == n
  {
    [n % 256, n / 256]
  }

  function Put32LE(n: nat): (b: seq<Byte>)
    requires n < 0x1_0000_0000
    ensures |b| == 4 && U32LE(b, 0) == n
  {
    var low, high := Put16LE(n % 0x1_0000), Put16LE(n / 0x1_0000);
    assert U16LE(low + high, 2) == U16LE(high, 0);
    low + high
  }
}
