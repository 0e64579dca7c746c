/** Exclusive or on unbounded two's-complement integers, as Python computes it, and the zigzag map built on it. */
module Bits {

  const TWO_63: int := 0x8000_0000_0000_0000

  predicate Int64(v: int) {
    -TWO_63 <= v < TWO_63
  }

  function Magnitude(v: int): nat {
    if v >= 0 then v else -v - 1
  }

  /** `a ^ b`. Euclidean division by two is the arithmetic right shift. */
  function Xor(a: int, b: int): int
    decreases Magnitude(a) + Magnitude(b)
  {
    if a in {0, -1} && b in {0, -1} then
      if a == b then 0 else -1
    else
      2 * Xor(a / 2, b / 2) + (if a % 2 == b % 2 then 0 else 1)
  }

  lemma {:induction false} XorZero(a: int)
    ensures Xor(a, 0) == a
    decreases Magnitude(a)
  {
    if a !in {0, -1} { XorZero(a / 2); }
  }

  lemma {:induction false} XorMinusOne(a: int)
    ensures Xor(a, -1) == -a - 1
    decreases Magnitude(a)
  {
    if a !in {0, -1} { XorMinusOne(a / 2); }
  }

  lemma {:induction false} XorCancels(a: int, b: int)
    ensures Xor(a, Xor(a, b)) == b
    decreases Magnitude(a) + Magnitude(b)
  {
    if a in {0, -1} && b in {0, -1} {
    } else {
      XorCancels(a / 2, b / 2);
      var x := Xor(a, b);
      assert x / 2 == Xor(a / 2, b / 2);
      assert x % 2 == if a % 2 == b % 2 then 0 else 1;
    }
  }

  lemma {:induction false} XorSign(a: int, b: int)
    ensures Xor(a, b) >= 0 <==> (a >= 0 <==> b >= 0)
    decreases Magnitude(a) + Magnitude(b)
  {
    if a in {0, -1} && b in {0, -1} {
    } else {
      XorSign(a / 2, b / 2);
    }
  }

  function Pow2(k: nat): (r: nat)
    ensures r > 0
  {
    if k == 0 then 1 else 2 * Pow2(k - 1)
  }

  /** `a | b` on non-negative integers. */
  function Or(a: nat, b: nat): nat {
    if a == 0 then b
    else if b == 0 then a
    else 2 * Or(a / 2, b / 2) + (if a % 2 == 0 && b % 2 == 0 then 0 else 1)
  }

  /** `a | (x << k)` puts `x` above `a` when `a` has at most `k` bits. */
  lemma {:induction false} OrAbove(a: nat, x: nat, k: nat)
    requires a < Pow2(k)
    ensures Or(a, x * Pow2(k)) == a + x * Pow2(k)
  {
    if a != 0 && x != 0 {
      var b := x * Pow2(k - 1);
      assert x * Pow2(k) == 2 * b;
      OrAbove(a / 2, x, k - 1);
    }
  }

  lemma Pow2Zero()
    ensures Pow2(0) == 1
  {
  }

  lemma Pow2Plus7(k: nat)
    ensures Pow2(k + 7) == 128 * Pow2(k)
  {
    assert Pow2(k + 7) == 2 * Pow2(k + 6) == 4 * Pow2(k + 5) == 8 * Pow2(k + 4);
    assert Pow2(k + 4) == 2 * Pow2(k + 3) == 4 * Pow2(k + 2) == 8 * Pow2(k + 1);
  }

  /** The writer's `(v << 1) ^ (v >> 63)`. */
  function Zigzag(v: int): (n: nat) {
    XorSign(2 * v, v / TWO_63);
    Xor(2 * v, v / TWO_63)
  }

  /** The reader's `(n >> 1) ^ -(n & 1)`. */
  function Unzigzag(n: nat): int {
    Xor(n / 2, -(n % 2))
  }

  lemma UnzigzagClosed(n: nat)
    ensures Unzigzag(n) == if n % 2 == 0 then n / 2 else -(n / 2) - 1
  {
    XorZero(n / 2);
    XorMinusOne(n / 2);
  }

  lemma ZigzagClosed(v: int)
    requires Int64(v)
    ensures Zigzag(v) == if v >= 0 then 2 * v else -2 * v - 1
  {
    XorZero(2 * v);
    XorMinusOne(2 * v);
  }

  /** The writer and the reader agree on an integer exactly when it fits 64 bits: past either end the shift by 63
      contributes more than a sign. */
  lemma ZigzagRoundTripIffInt64(v: int)
    ensures Unzigzag(Zigzag(v)) == v <==> Int64(v)
  {
    var n := Zigzag(v);
    UnzigzagClosed(n);
    if Int64(v) {
      ZigzagClosed(v);
    } else {
      // Any other value of the second operand gives other bits than the two the reader maps back to v.
      XorCancels(2 * v, v / TWO_63);
      XorCancels(2 * v, 0);
      XorCancels(2 * v, -1);
      XorZero(2 * v);
      XorMinusOne(2 * v);
    }
  }

  lemma UnzigzagInjective(m: nat, n: nat)
    requires Unzigzag(m) == Unzigzag(n)
    ensures m == n
  {
    UnzigzagClosed(m);
    UnzigzagClosed(n);
  }
}
