/** Bytes and big-endian numbers made of them. */
module Bytes {

  type byte = b: int | 0 <= b < 256

  /** The number that a list of bytes stands for, the most significant byte first. */
  function BigEndian(bs: seq<byte>): nat {
    if bs == [] then 0 else BigEndian(bs[..|bs| - 1]) * 256 + bs[|bs| - 1]
  }

  /** The last `k` bytes of a number, the most significant byte first. */
  function ToBytes(n: nat, k: nat): (bs: seq<byte>)
    ensures |bs| == k
  {
    if k == 0 then [] else ToBytes(n / 256, k - 1) + [n % 256]
  }

  function Pow256(k: nat): (p: nat)
    ensures p > 0
  {
    if k == 0 then 1 else 256 * Pow256(k - 1)
  }

  lemma {:induction false} BytesRoundTrip(n: nat, k: nat)
    requires n < Pow256(k)
    ensures BigEndian(ToBytes(n, k)) == n
    decreases k
  {
    if k > 0 {
      BytesRoundTrip(n / 256, k - 1);
      assert ToBytes(n, k)[..k - 1] == ToBytes(n / 256, k - 1);
    }
  }

  lemma Quotient(n: nat, p: nat, q: nat, r: nat)
    requires p > 0 && n == p * q + r && r < p
    ensures n / p == q
  {
    var d := n / p - q;
    assert p * d == r - n % p;
    assert d >= 1 ==> p * d >= p;
    assert d <= -1 ==> p * d + p <= 0;
  }

  lemma DivideTwice(n: nat, a: nat, b: nat)
    requires a > 0 && b > 0
    ensures a * b > 0 && n / a / b == n / (a * b)
  {
    var q, r := n / a / b, n / a % b;
    assert n / a == b * q + r;
    assert n == a * (b * q + r) + n % a;
    assert a * r + n % a < a * b by { assert a * r <= a * (b - 1); }
    assert n == a * b * q + (a * r + n % a) by { assert a * (b * q + r) == a * b * q + a * r; }
    Quotient(n, a * b, q, a * r + n % a);
  }

  /** Every byte of a number by division and remainder. */
  lemma {:induction false} ByteAt(n: nat, k: nat, j: nat)
    requires j < k
    ensures ToBytes(n, k)[j] == n / Pow256(k - 1 - j) % 256
    decreases k
  {
    if j < k - 1 {
      ByteAt(n / 256, k - 1, j);
      DivideTwice(n, 256, Pow256(k - 2 - j));
    }
  }

  /** The exclusive or of the low `k` bits. */
  function XorBits(a: nat, b: nat, k: nat): nat {
    if k == 0 then 0 else (a % 2 + b % 2) % 2 + 2 * XorBits(a / 2, b / 2, k - 1)
  }

  function Pow2(k: nat): (p: nat)
    ensures p > 0
  {
    if k == 0 then 1 else 2 * Pow2(k - 1)
  }

  lemma {:induction false} XorBound(a: nat, b: nat, k: nat)
    ensures XorBits(a, b, k) < Pow2(k)
    ensures k == 8 ==> Pow2(k) == 256
  {
    if k > 0 { XorBound(a / 2, b / 2, k - 1); }
  }

  lemma LowBit(a: nat, b: nat, x: nat)
    ensures var n := (a % 2 + b % 2) % 2 + 2 * x;
            n / 2 == x && (n % 2 + b % 2) % 2 == a % 2
  {
  }

  lemma {:induction false} XorBitsTwice(a: nat, b: nat, k: nat)
    requires a < Pow2(k)
    ensures XorBits(XorBits(a, b, k), b, k) == a
  {
    if k > 0 {
      XorBitsTwice(a / 2, b / 2, k - 1);
      LowBit(a, b, XorBits(a / 2, b / 2, k - 1));
    }
  }

  function Xor(a: byte, b: byte): byte {
    XorBound(a, b, 8);
    XorBits(a, b, 8)
  }

  lemma XorTwice(a: byte, b: byte)
    ensures Xor(Xor(a, b), b) == a
  {
    XorBound(a, b, 8);
    XorBitsTwice(a, b, 8);
  }

  /** Bit `k` of a number, the lowest bit first. */
  function Bit(n: nat, k: nat): nat { n / Pow2(k) % 2 }

  lemma BitDown(n: nat, k: nat)
    requires k > 0
    ensures Bit(n, k) == Bit(n / 2, k - 1)
  {
    DivideTwice(n, 2, Pow2(k - 1));
  }

  lemma {:induction false} XorBitsBit(a: nat, b: nat, n: nat, k: nat)
    requires k < n
    ensures Bit(XorBits(a, b, n), k) == 1 <==> Bit(a, k) != Bit(b, k)
    decreases n
  {
    var x := XorBits(a, b, n);
    XorHalves(a, b, n);
    hide XorBits;
    if k == 0 {
      LowestBit(x);
      LowestBit(a);
      LowestBit(b);
    } else {
      hide Bit;
      BitDown(x, k);
      BitDown(a, k);
      BitDown(b, k);
      XorBitsBit(a / 2, b / 2, n - 1, k - 1);
    }
  }

  lemma LowestBit(n: nat)
    ensures Bit(n, 0) == n % 2
  {
  }

  lemma XorHalves(a: nat, b: nat, n: nat)
    requires n > 0
    ensures XorBits(a, b, n) % 2 == 1 <==> a % 2 != b % 2
    ensures XorBits(a, b, n) / 2 == XorBits(a / 2, b / 2, n - 1)
  {
  }

  /** A bit of the exclusive or is set exactly if the two bytes differ in it. */
  lemma XorBit(a: byte, b: byte, k: nat)
    requires k < 8
    ensures Xor(a, b) / Pow2(k) % 2 == 1 <==> a / Pow2(k) % 2 != b / Pow2(k) % 2
  {
    hide XorBits;
    XorBitsBit(a, b, 8, k);
  }
}
