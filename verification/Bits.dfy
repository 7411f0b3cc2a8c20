/** Bit operations on non-negative integers, and the algebra of exclusive or that the Bech32 checksum rests on. */
module Bits {
  function Xor(a: nat, b: nat): nat
    decreases a + b
  {
    if a == 0 && b == 0 then 0
    else 2 * Xor(a / 2, b / 2) + (if a % 2 == b % 2 then 0 else 1)
  }

  predicate Bit(x: nat, i: nat) {
    if i == 0 then x % 2 == 1 else Bit(x / 2, i - 1)
  }

  function Pow2(k: nat): (p: nat)
    ensures p > 0
  {
    if k == 0 then 1 else 2 * Pow2(k - 1)
  }

  function ShiftLeft(x: nat, k: nat): nat
    decreases k, x
  {
    if k == 0 then x else 2 * ShiftLeft(x, k - 1)
  }

  function ShiftRight(x: nat, k: nat): nat
    decreases k, x
  {
    if k == 0 then x else ShiftRight(x / 2, k - 1)
  }

  /** The lowest `k` bits of `x`. */
  function LowBits(x: nat, k: nat): (r: nat)
    ensures r < Pow2(k)
    decreases k, x
  {
    if k == 0 then 0 else 2 * LowBits(x / 2, k - 1) + x % 2
  }

  // ---------- exclusive or ----------

  lemma {:induction false} XorZero(a: nat)
    ensures Xor(a, 0) == a && Xor(0, a) == a
  {
    if a > 0 { XorZero(a / 2); }
  }

  lemma {:induction false} XorSelf(a: nat)
    ensures Xor(a, a) == 0
  {
    if a > 0 { XorSelf(a / 2); }
  }

  lemma {:induction false} XorComm(a: nat, b: nat)
    ensures Xor(a, b) == Xor(b, a)
    decreases a + b
  {
    if a + b > 0 { XorComm(a / 2, b / 2); }
  }

  lemma XorHalf(a: nat, b: nat)
    ensures Xor(a, b) / 2 == Xor(a / 2, b / 2)
    ensures Xor(a, b) % 2 == if a % 2 == b % 2 then 0 else 1
  {
  }

  lemma {:induction false} XorAssoc(a: nat, b: nat, c: nat)
    ensures Xor(Xor(a, b), c) == Xor(a, Xor(b, c))
    decreases a + b + c
  {
    if a + b + c > 0 {
      XorAssoc(a / 2, b / 2, c / 2);
      XorHalf(a, b);
      XorHalf(b, c);
      XorHalf(Xor(a, b), c);
      XorHalf(a, Xor(b, c));
    }
  }

  lemma XorSwap(a: nat, b: nat, c: nat, d: nat)
    ensures Xor(Xor(a, b), Xor(c, d)) == Xor(Xor(a, c), Xor(b, d))
  {
    XorAssoc(a, b, Xor(c, d));
    XorAssoc(b, c, d);
    XorComm(b, c);
    XorAssoc(c, b, d);
    XorAssoc(a, c, Xor(b, d));
  }

  lemma XorCancel(a: nat, b: nat)
    ensures Xor(Xor(a, b), b) == a && Xor(a, Xor(a, b)) == b
  {
    XorAssoc(a, b, b);
    XorSelf(b);
    XorZero(a);
    XorAssoc(a, a, b);
    XorSelf(a);
    XorZero(b);
  }

  lemma {:induction false} XorBit(a: nat, b: nat, i: nat)
    ensures Bit(Xor(a, b), i) == (Bit(a, i) != Bit(b, i))
  {
    XorHalf(a, b);
    if i > 0 { XorBit(a / 2, b / 2, i - 1); }
  }

  lemma {:induction false} XorRange(a: nat, b: nat, k: nat)
    requires a < Pow2(k) && b < Pow2(k)
    ensures Xor(a, b) < Pow2(k)
  {
    if k == 0 {
      XorZero(0);
    } else {
      XorRange(a / 2, b / 2, k - 1);
      XorHalf(a, b);
    }
  }

  // ---------- shifts ----------

  lemma {:induction false} XorShiftLeft(a: nat, b: nat, k: nat)
    ensures Xor(ShiftLeft(a, k), ShiftLeft(b, k)) == ShiftLeft(Xor(a, b), k)
  {
    if k > 0 { XorShiftLeft(a, b, k - 1); }
  }

  lemma {:induction false} XorShiftRight(a: nat, b: nat, k: nat)
    ensures Xor(ShiftRight(a, k), ShiftRight(b, k)) == ShiftRight(Xor(a, b), k)
  {
    if k > 0 {
      XorHalf(a, b);
      XorShiftRight(a / 2, b / 2, k - 1);
    }
  }

  lemma {:induction false} XorLowBits(a: nat, b: nat, k: nat)
    ensures Xor(LowBits(a, k), LowBits(b, k)) == LowBits(Xor(a, b), k)
  {
    if k == 0 {
      XorZero(0);
    } else {
      XorHalf(a, b);
      XorLowBits(a / 2, b / 2, k - 1);
      hide Xor;
      XorAppend(LowBits(a / 2, k - 1), a % 2, LowBits(b / 2, k - 1), b % 2);
    }
  }

  lemma XorAppend(p: nat, s: nat, q: nat, t: nat)
    requires s < 2 && t < 2
    ensures Xor(2 * p + s, 2 * q + t) == 2 * Xor(p, q) + (if s == t then 0 else 1)
  {
  }

  /** Below a left shift there is room for `k` bits. */
  lemma {:induction false} XorBelow(a: nat, v: nat, k: nat)
    requires v < Pow2(k)
    ensures Xor(ShiftLeft(a, k), v) == ShiftLeft(a, k) + v
  {
    if k == 0 {
      XorZero(a);
    } else {
      XorBelow(a, v / 2, k - 1);
      XorHalf(ShiftLeft(a, k), v);
    }
  }

  lemma {:induction false} Reassemble(x: nat, k: nat)
    ensures x == ShiftLeft(ShiftRight(x, k), k) + LowBits(x, k)
  {
    if k > 0 { Reassemble(x / 2, k - 1); }
  }

  lemma {:induction false} SmallHasNoTop(x: nat, k: nat)
    requires x < Pow2(k)
    ensures ShiftRight(x, k) == 0 && LowBits(x, k) == x
  {
    if k > 0 { SmallHasNoTop(x / 2, k - 1); }
  }

  lemma {:induction false} TopRange(x: nat, k: nat, m: nat)
    requires x < Pow2(k + m)
    ensures ShiftRight(x, k) < Pow2(m)
  {
    if k > 0 { TopRange(x / 2, k - 1, m); }
  }

  lemma {:induction false} ShiftLeftRange(x: nat, m: nat, k: nat)
    requires x < Pow2(m)
    ensures ShiftLeft(x, k) < Pow2(m + k)
  {
    if k > 0 { ShiftLeftRange(x, m, k - 1); }
  }

  lemma {:induction false} ShiftLeftIsMul(x: nat, k: nat)
    ensures ShiftLeft(x, k) == x * Pow2(k)
  {
    if k > 0 {
      ShiftLeftIsMul(x, k - 1);
      DoubleProduct(x, Pow2(k - 1));
    }
  }

  lemma DoubleProduct(x: nat, p: nat)
    ensures x * (2 * p) == 2 * (x * p)
  {
  }

  lemma {:induction false} ShiftRightAdd(x: nat, a: nat, b: nat)
    ensures ShiftRight(x, a + b) == ShiftRight(ShiftRight(x, a), b)
    decreases a
  {
    if a > 0 { ShiftRightAdd(x / 2, a - 1, b); }
  }

  lemma {:induction false} ShiftBack(x: nat, v: nat, k: nat, b: nat)
    requires v < Pow2(k)
    ensures ShiftRight(ShiftLeft(x, k) + v, k + b) == ShiftRight(x, b)
    ensures LowBits(ShiftLeft(x, k) + v, k) == v
    decreases k
  {
    if k > 0 { ShiftBack(x, v / 2, k - 1, b); }
  }

  lemma {:induction false} ShiftLeftInjective(x: nat, y: nat, k: nat)
    requires ShiftLeft(x, k) == ShiftLeft(y, k)
    ensures x == y
    decreases k
  {
    if k > 0 { ShiftLeftInjective(x, y, k - 1); }
  }

  lemma {:induction false} LowOfLow(x: nat, m: nat, t: nat)
    requires t <= m
    ensures LowBits(LowBits(x, m), t) == LowBits(x, t)
    decreases t
  {
    if t > 0 { LowOfLow(x / 2, m - 1, t - 1); }
  }

  /** Bits `b` to `b + t` of a number are also found in its lowest `m` bits. */
  lemma {:induction false} WindowOfLow(x: nat, b: nat, t: nat, m: nat)
    requires b + t <= m
    ensures LowBits(ShiftRight(LowBits(x, m), b), t) == LowBits(ShiftRight(x, b), t)
    decreases b
  {
    if b == 0 { LowOfLow(x, m, t); } else { WindowOfLow(x / 2, b - 1, t, m - 1); }
  }

  /** The lowest `m` bits of a left shift depend on the lowest bits of what is shifted only. */
  lemma {:induction false} LowOfShifted(x: nat, f: nat, v: nat, m: nat, w: nat)
    requires v < Pow2(f) && m <= w
    ensures LowBits(ShiftLeft(LowBits(x, w), f) + v, m) == LowBits(ShiftLeft(x, f) + v, m)
    decreases f
  {
    if f == 0 {
      LowOfLow(x, w, m);
    } else if m > 0 {
      hide LowBits;
      LowOfShifted(x, f - 1, v / 2, m - 1, w);
      LowStep(LowBits(x, w), x, f, v, m);
    }
  }

  lemma LowStep(y: nat, z: nat, f: nat, v: nat, m: nat)
    requires f > 0 && m > 0
    requires LowBits(ShiftLeft(y, f - 1) + v / 2, m - 1) == LowBits(ShiftLeft(z, f - 1) + v / 2, m - 1)
    ensures LowBits(ShiftLeft(y, f) + v, m) == LowBits(ShiftLeft(z, f) + v, m)
  {
    hide LowBits;
    LowHalf(ShiftLeft(y, f - 1), v, m);
    LowHalf(ShiftLeft(z, f - 1), v, m);
  }

  lemma LowHalf(x: nat, v: nat, m: nat)
    requires m > 0
    ensures LowBits(2 * x + v, m) == 2 * LowBits(x + v / 2, m - 1) + v % 2
  {
    assert (2 * x + v) / 2 == x + v / 2 && (2 * x + v) % 2 == v % 2;
  }

  // ---------- digits ----------

  /** Digits of `w` bits each. */
  predicate AreDigits(digits: seq<nat>, w: nat) {
    forall i :: 0 <= i < |digits| ==> digits[i] < Pow2(w)
  }

  /** The number whose digits of `w` bits, most significant first, are `digits`. */
  function Value(digits: seq<nat>, w: nat): nat
    decreases |digits|, w
  {
    if digits == [] then 0 else ShiftLeft(Value(digits[..|digits| - 1], w), w) + digits[|digits| - 1]
  }

  /** The `n` lowest digits of `w` bits of `m`, most significant first. */
  function Cut(m: nat, n: nat, w: nat): (digits: seq<nat>)
    ensures |digits| == n && AreDigits(digits, w)
    decreases n, m
  {
    if n == 0 then [] else Cut(ShiftRight(m, w), n - 1, w) + [LowBits(m, w)]
  }

  lemma ValueAppend(front: seq<nat>, last: nat, w: nat)
    ensures Value(front + [last], w) == ShiftLeft(Value(front, w), w) + last
  {
    assert (front + [last])[..|front|] == front;
  }

  lemma {:induction false} ValueRange(digits: seq<nat>, w: nat)
    requires AreDigits(digits, w)
    ensures Value(digits, w) < Pow2(w * |digits|)
    decreases |digits|
  {
    if digits != [] {
      var front := digits[..|digits| - 1];
      ValueRange(front, w);
      AppendRange(Value(front, w), digits[|digits| - 1], w * |front|, w);
      assert w * |front| + w == w * |digits|;
    }
  }

  lemma {:induction false} AppendRange(x: nat, v: nat, m: nat, w: nat)
    requires x < Pow2(m) && v < Pow2(w)
    ensures ShiftLeft(x, w) + v < Pow2(m + w)
    decreases w
  {
    if w > 0 { AppendRange(x, v / 2, m, w - 1); }
  }

  lemma {:induction false} CutRoundTrip(m: nat, n: nat, w: nat)
    requires m < Pow2(w * n)
    ensures Value(Cut(m, n, w), w) == m
    decreases n
  {
    if n > 0 {
      assert w * n == w + w * (n - 1);
      TopRange(m, w, w * (n - 1));
      CutRoundTrip(ShiftRight(m, w), n - 1, w);
      ValueAppend(Cut(ShiftRight(m, w), n - 1, w), LowBits(m, w), w);
      Reassemble(m, w);
    }
  }

  /** Digits are determined by their number and their value. */
  lemma {:induction false} ValueRoundTrip(digits: seq<nat>, w: nat)
    requires AreDigits(digits, w)
    ensures Cut(Value(digits, w), |digits|, w) == digits
    decreases |digits|
  {
    if digits != [] {
      var front, last := digits[..|digits| - 1], digits[|digits| - 1];
      ValueRoundTrip(front, w);
      ShiftBack(Value(front, w), last, w, 0);
      assert digits == front + [last];
    }
  }

  // ---------- single bits ----------

  lemma {:induction false} ZeroBit(k: nat)
    ensures !Bit(0, k)
  {
    if k > 0 { ZeroBit(k - 1); }
  }

  lemma {:induction false} NoBits(x: nat, m: nat)
    requires x < Pow2(m) && forall k: nat :: k < m ==> !Bit(x, k)
    ensures x == 0
  {
    if m > 0 {
      assert !Bit(x, 0);
      forall k: nat | k < m - 1 ensures !Bit(x / 2, k) { assert !Bit(x, k + 1); }
      NoBits(x / 2, m - 1);
    }
  }

  lemma {:induction false} LowBitsClear(x: nat, m: nat, k: nat)
    requires k < m
    ensures !Bit(ShiftLeft(x, m), k)
  {
    if k > 0 { LowBitsClear(x, m - 1, k - 1); }
  }

  // ---------- powers ----------

  lemma {:induction false} PowSum(a: nat, b: nat)
    ensures Pow2(a + b) == Pow2(a) * Pow2(b)
  {
    if a > 0 { PowSum(a - 1, b); }
  }

  lemma {:induction false} PowMonotone(a: nat, b: nat)
    requires a <= b
    ensures Pow2(a) <= Pow2(b)
    decreases b
  {
    if a < b { PowMonotone(a, b - 1); }
  }
}
